/** The post and comment body validator (validations/post.js). */
module PostValidation {
  import opened Common
  import opened Json
  import Joi

  /** name: an optional string; text: a required string. */
  const Schema: seq<Joi.Field> := [
    Joi.Leaf(Joi.Rule("name", false, Joi.Text(false, None, None, Joi.Plain))),
    Joi.Leaf(Joi.Rule("text", true, Joi.Text(false, None, None, Joi.Plain)))
  ]

  /** Errors are keyed by the first element of the detail's path. */
  function Key(d: Joi.Detail): string
  {
    d.head
  }

  /** The post rules, stated directly. */
  predicate Acceptable(body: Body)
  {
    Joi.OptionalText(body, "name", false) && Joi.RequiredText(body, "text") && Joi.OnlyKeys(body, {"name", "text"})
  }

  lemma SchemaKeys()
    ensures Joi.FieldKeys(Schema) == {"name", "text"}
  {
    assert Joi.FieldKey(Schema[0]) == "name";
    assert Joi.FieldKey(Schema[1]) == "text";
  }

  lemma FieldsMeanRules(fm: Formats, body: Body)
    ensures Joi.FieldHolds(Schema[0], fm, body) <==> Joi.OptionalText(body, "name", false)
    ensures Joi.FieldHolds(Schema[1], fm, body) <==> Joi.RequiredText(body, "text")
  {
    Joi.OptionalTextHolds("name", false, fm, body);
    Joi.RequiredTextHolds("text", fm, body);
  }

  /** What the validator answers for a body: 0, or 400 with the field map. */
  function Verdict(fm: Formats, body: Body): (v: Joi.Verdict)
    ensures v.Pass? <==> Acceptable(body)
    ensures v.Reject? ==> v.status == 400
  {
    Joi.DetailsEmpty(Schema, fm, body);
    SchemaKeys();
    FieldsMeanRules(fm, body);
    Joi.Outcome(Joi.Details(Schema, fm, body), Key)
  }

  /** A missing or empty text, a bad name and every undeclared key each get an entry in the map. */
  lemma AllViolationsReported(fm: Formats, body: Body)
    ensures !Joi.OptionalText(body, "name", false) ==> Verdict(fm, body).Reject? && "name" in Verdict(fm, body).errors
    ensures !Joi.RequiredText(body, "text") ==> Verdict(fm, body).Reject? && "text" in Verdict(fm, body).errors
    ensures forall j :: 0 <= j < |body| && body[j].key !in {"name", "text"} ==>
              Verdict(fm, body).Reject? && body[j].key in Verdict(fm, body).errors
  {
    assert Verdict(fm, body) == Joi.Outcome(Joi.Details(Schema, fm, body), Key);
    if !Joi.OptionalText(body, "name", false) { Joi.OptionalTextHolds("name", false, fm, body); Joi.LeafKeyed(Schema, Key, fm, body, 0); }
    if !Joi.RequiredText(body, "text") { Joi.RequiredTextHolds("text", fm, body); Joi.LeafKeyed(Schema, Key, fm, body, 1); }
    SchemaKeys();
    forall j | 0 <= j < |body| && body[j].key !in {"name", "text"}
      ensures Verdict(fm, body).Reject? && body[j].key in Verdict(fm, body).errors
    {
      Joi.UnknownKeyed(Schema, Key, fm, body, j);
    }
  }

  /** A valid body carries a non-empty string text, which the handlers copy. */
  lemma PassGivesText(fm: Formats, body: Body)
    requires Verdict(fm, body).Pass?
    ensures StrMember(body, "text").Some? && StrMember(body, "text").value != ""
  {
  }

  /** Of two `text` members the parsed body keeps the later, so an empty first one passes. */
  lemma DuplicateTextLastWins(fm: Formats)
    ensures Verdict(fm, [Entry("text", Str("")), Entry("text", Str("hi"))]).Pass?
  {
    var body := [Entry("text", Str("")), Entry("text", Str("hi"))];
    Json.LookupLast([Entry("text", Str(""))], Entry("text", Str("hi")), "text");
    assert [Entry("text", Str(""))] + [Entry("text", Str("hi"))] == body;
    assert StrMember(body, "text") == Some("hi");
  }

  /** The validator as the routes call it. */
  method Validate(fm: Formats, body: Body) returns (v: Joi.Verdict)
    ensures v == Verdict(fm, body)
  {
    v := Joi.Validate(Schema, Key, fm, body);
  }
}
