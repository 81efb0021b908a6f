/** The experience entry validator (validations/experience.js). */
module ExperienceValidation {
  import opened Common
  import opened Json
  import Joi

  /**
   * title, company: required strings; location, description: optional, '' allowed;
   * from: a required date; to: an optional date; current: a boolean or ''.
   */
  const Schema: seq<Joi.Field> := [
    Joi.Leaf(Joi.Rule("title", true, Joi.Text(false, None, None, Joi.Plain))),
    Joi.Leaf(Joi.Rule("company", true, Joi.Text(false, None, None, Joi.Plain))),
    Joi.Leaf(Joi.Rule("location", false, Joi.Text(true, None, None, Joi.Plain))),
    Joi.Leaf(Joi.Rule("from", true, Joi.Date)),
    Joi.Leaf(Joi.Rule("to", false, Joi.Date)),
    Joi.Leaf(Joi.Rule("current", false, Joi.Flag)),
    Joi.Leaf(Joi.Rule("description", false, Joi.Text(true, None, None, Joi.Plain)))
  ]

  const Keys: set<string> := {"title", "company", "location", "from", "to", "current", "description"}

  /** Errors are keyed by the first element of the detail's path. */
  function Key(d: Joi.Detail): string
  {
    d.head
  }

  /** The experience rules, stated directly. */
  predicate Acceptable(fm: Formats, body: Body)
  {
    && Joi.RequiredText(body, "title")
    && Joi.RequiredText(body, "company")
    && Joi.OptionalText(body, "location", true)
    && Joi.RequiredDate(fm, body, "from")
    && Joi.OptionalDate(fm, body, "to")
    && Joi.OptionalFlag(body, "current")
    && Joi.OptionalText(body, "description", true)
    && Joi.OnlyKeys(body, Keys)
  }

  /** The key of each schema field, by position. */
  lemma FieldAt(i: nat)
    requires i < |Schema|
    ensures Joi.FieldKey(Schema[i]) in Keys
  {
    if i == 0 { assert Joi.FieldKey(Schema[i]) == "title"; }
    else if i == 1 { assert Joi.FieldKey(Schema[i]) == "company"; }
    else if i == 2 { assert Joi.FieldKey(Schema[i]) == "location"; }
    else if i == 3 { assert Joi.FieldKey(Schema[i]) == "from"; }
    else if i == 4 { assert Joi.FieldKey(Schema[i]) == "to"; }
    else if i == 5 { assert Joi.FieldKey(Schema[i]) == "current"; }
    else { assert Joi.FieldKey(Schema[i]) == "description"; }
  }

  lemma SchemaKeys()
    ensures Joi.FieldKeys(Schema) == Keys
  {
    assert Joi.FieldKey(Schema[0]) == "title";
    assert Joi.FieldKey(Schema[1]) == "company";
    assert Joi.FieldKey(Schema[2]) == "location";
    assert Joi.FieldKey(Schema[3]) == "from";
    assert Joi.FieldKey(Schema[4]) == "to";
    assert Joi.FieldKey(Schema[5]) == "current";
    assert Joi.FieldKey(Schema[6]) == "description";
    forall k | k in Joi.FieldKeys(Schema) ensures k in Keys {
      var i :| 0 <= i < |Schema| && Joi.FieldKey(Schema[i]) == k;
      FieldAt(i);
    }
  }

  lemma FieldsMeanRules(fm: Formats, body: Body)
    ensures Joi.FieldHolds(Schema[0], fm, body) <==> Joi.RequiredText(body, "title")
    ensures Joi.FieldHolds(Schema[1], fm, body) <==> Joi.RequiredText(body, "company")
    ensures Joi.FieldHolds(Schema[2], fm, body) <==> Joi.OptionalText(body, "location", true)
    ensures Joi.FieldHolds(Schema[3], fm, body) <==> Joi.RequiredDate(fm, body, "from")
    ensures Joi.FieldHolds(Schema[4], fm, body) <==> Joi.OptionalDate(fm, body, "to")
    ensures Joi.FieldHolds(Schema[5], fm, body) <==> Joi.OptionalFlag(body, "current")
    ensures Joi.FieldHolds(Schema[6], fm, body) <==> Joi.OptionalText(body, "description", true)
  {
    Joi.RequiredTextHolds("title", fm, body);
    Joi.RequiredTextHolds("company", fm, body);
    Joi.OptionalTextHolds("location", true, fm, body);
    Joi.RequiredDateHolds("from", fm, body);
    Joi.OptionalDateHolds("to", fm, body);
    Joi.OptionalFlagHolds("current", fm, body);
    Joi.OptionalTextHolds("description", true, fm, body);
  }

  lemma ConformsMeansAcceptable(fm: Formats, body: Body)
    ensures Joi.Conforms(Schema, fm, body) <==> Acceptable(fm, body)
  {
    SchemaKeys();
    FieldsHoldMeansRules(fm, body);
  }

  lemma FieldsHoldMeansRules(fm: Formats, body: Body)
    ensures (forall i :: 0 <= i < |Schema| ==> Joi.FieldHolds(Schema[i], fm, body)) <==>
      && Joi.RequiredText(body, "title")
      && Joi.RequiredText(body, "company")
      && Joi.OptionalText(body, "location", true)
      && Joi.RequiredDate(fm, body, "from")
      && Joi.OptionalDate(fm, body, "to")
      && Joi.OptionalFlag(body, "current")
      && Joi.OptionalText(body, "description", true)
  {
    FieldsMeanRules(fm, body);
  }

  /** What the validator answers for a body: 0, or 400 with the field map. */
  function Verdict(fm: Formats, body: Body): (v: Joi.Verdict)
    ensures v.Pass? <==> Acceptable(fm, body)
    ensures v.Reject? ==> v.status == 400
  {
    Joi.DetailsEmpty(Schema, fm, body);
    ConformsMeansAcceptable(fm, body);
    Joi.Outcome(Joi.Details(Schema, fm, body), Key)
  }

  /** Each failing field, and every undeclared key, has its own entry in the map. */
  lemma AllViolationsReported(fm: Formats, body: Body)
    ensures !Joi.RequiredText(body, "title") ==> Verdict(fm, body).Reject? && "title" in Verdict(fm, body).errors
    ensures !Joi.RequiredText(body, "company") ==> Verdict(fm, body).Reject? && "company" in Verdict(fm, body).errors
    ensures !Joi.RequiredDate(fm, body, "from") ==> Verdict(fm, body).Reject? && "from" in Verdict(fm, body).errors
    ensures !Joi.OptionalDate(fm, body, "to") ==> Verdict(fm, body).Reject? && "to" in Verdict(fm, body).errors
    ensures !Joi.OptionalFlag(body, "current") ==> Verdict(fm, body).Reject? && "current" in Verdict(fm, body).errors
    ensures !Joi.OptionalText(body, "location", true) ==> Verdict(fm, body).Reject? && "location" in Verdict(fm, body).errors
    ensures !Joi.OptionalText(body, "description", true) ==> Verdict(fm, body).Reject? && "description" in Verdict(fm, body).errors
    ensures forall j :: 0 <= j < |body| && body[j].key !in Keys ==>
              Verdict(fm, body).Reject? && body[j].key in Verdict(fm, body).errors
  {
    assert Verdict(fm, body) == Joi.Outcome(Joi.Details(Schema, fm, body), Key);
    if !Joi.RequiredText(body, "title") { Joi.RequiredTextHolds("title", fm, body); Joi.LeafKeyed(Schema, Key, fm, body, 0); }
    if !Joi.RequiredText(body, "company") { Joi.RequiredTextHolds("company", fm, body); Joi.LeafKeyed(Schema, Key, fm, body, 1); }
    if !Joi.RequiredDate(fm, body, "from") { Joi.RequiredDateHolds("from", fm, body); Joi.LeafKeyed(Schema, Key, fm, body, 3); }
    if !Joi.OptionalDate(fm, body, "to") { Joi.OptionalDateHolds("to", fm, body); Joi.LeafKeyed(Schema, Key, fm, body, 4); }
    if !Joi.OptionalFlag(body, "current") { Joi.OptionalFlagHolds("current", fm, body); Joi.LeafKeyed(Schema, Key, fm, body, 5); }
    if !Joi.OptionalText(body, "location", true) { Joi.OptionalTextHolds("location", true, fm, body); Joi.LeafKeyed(Schema, Key, fm, body, 2); }
    if !Joi.OptionalText(body, "description", true) { Joi.OptionalTextHolds("description", true, fm, body); Joi.LeafKeyed(Schema, Key, fm, body, 6); }
    SchemaKeys();
    forall j | 0 <= j < |body| && body[j].key !in Keys
      ensures Verdict(fm, body).Reject? && body[j].key in Verdict(fm, body).errors
    {
      Joi.UnknownKeyed(Schema, Key, fm, body, j);
    }
  }

  /** A `from` of 10^16 ms lies beyond a JavaScript `Date`'s range and is refused under `from`. */
  lemma OutOfRangeFromRefused(fm: Formats)
    ensures var body := [Entry("title", Str("a")), Entry("company", Str("b")), Entry("from", Num(10_000_000_000_000_000))];
      Verdict(fm, body).Reject? && "from" in Verdict(fm, body).errors
  {
    var body := [Entry("title", Str("a")), Entry("company", Str("b")), Entry("from", Num(10_000_000_000_000_000))];
    assert Lookup(body, "from") == Some(Num(10_000_000_000_000_000));
    AllViolationsReported(fm, body);
  }

  /** The validator as the route calls it. */
  method Validate(fm: Formats, body: Body) returns (v: Joi.Verdict)
    ensures v == Verdict(fm, body)
  {
    v := Joi.Validate(Schema, Key, fm, body);
  }
}
