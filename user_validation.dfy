/** The registration body validator (validations/user.js). */
module UserValidation {
  import opened Common
  import opened Json
  import Joi
  import Strings

  /**
   * name: 3..30 characters, email: an e-mail address, password: 8..20 characters; all required.
   * Lengths are JavaScript lengths, in UTF-16 code units.
   */
  const Schema: seq<Joi.Field> := [
    Joi.Leaf(Joi.Rule("name", true, Joi.Text(false, Some(3), Some(30), Joi.Plain))),
    Joi.Leaf(Joi.Rule("email", true, Joi.Text(false, None, None, Joi.EmailAddress))),
    Joi.Leaf(Joi.Rule("password", true, Joi.Text(false, Some(8), Some(20), Joi.Plain)))
  ]

  /** Errors are keyed by the first element of the detail's path. */
  function Key(d: Joi.Detail): string
  {
    d.head
  }

  predicate NameOk(body: Body)
  {
    match StrMember(body, "name") case Some(s) => 3 <= Strings.Utf16Length(s) <= 30 case None => false
  }

  predicate EmailOk(fm: Formats, body: Body)
  {
    match StrMember(body, "email") case Some(s) => s != "" && fm.isEmail(s) case None => false
  }

  predicate PasswordOk(body: Body)
  {
    match StrMember(body, "password") case Some(s) => 8 <= Strings.Utf16Length(s) <= 20 case None => false
  }

  /** The registration rules, stated directly. */
  predicate Acceptable(fm: Formats, body: Body)
  {
    NameOk(body) && EmailOk(fm, body) && PasswordOk(body) && Joi.OnlyKeys(body, {"name", "email", "password"})
  }

  lemma SchemaKeys()
    ensures Joi.FieldKeys(Schema) == {"name", "email", "password"}
  {
    assert Joi.FieldKey(Schema[0]) == "name";
    assert Joi.FieldKey(Schema[1]) == "email";
    assert Joi.FieldKey(Schema[2]) == "password";
  }

  lemma FieldsMeanRules(fm: Formats, body: Body)
    ensures Joi.FieldHolds(Schema[0], fm, body) <==> NameOk(body)
    ensures Joi.FieldHolds(Schema[1], fm, body) <==> EmailOk(fm, body)
    ensures Joi.FieldHolds(Schema[2], fm, body) <==> PasswordOk(body)
  {
  }

  /** What the validator answers for a body: 0, or 400 with the field map. */
  function Verdict(fm: Formats, body: Body): (v: Joi.Verdict)
    ensures v.Pass? <==> Acceptable(fm, body)
    ensures v.Reject? ==> v.status == 400
  {
    Joi.DetailsEmpty(Schema, fm, body);
    SchemaKeys();
    FieldsMeanRules(fm, body);
    Joi.Outcome(Joi.Details(Schema, fm, body), Key)
  }

  /** Every failing field, and every undeclared key, has its own entry in the error map. */
  lemma AllViolationsReported(fm: Formats, body: Body)
    ensures !NameOk(body) ==> Verdict(fm, body).Reject? && "name" in Verdict(fm, body).errors
    ensures !EmailOk(fm, body) ==> Verdict(fm, body).Reject? && "email" in Verdict(fm, body).errors
    ensures !PasswordOk(body) ==> Verdict(fm, body).Reject? && "password" in Verdict(fm, body).errors
    ensures forall j :: 0 <= j < |body| && body[j].key !in {"name", "email", "password"} ==>
              Verdict(fm, body).Reject? && body[j].key in Verdict(fm, body).errors
  {
    assert Verdict(fm, body) == Joi.Outcome(Joi.Details(Schema, fm, body), Key);
    FieldsMeanRules(fm, body);
    if !NameOk(body) { Joi.LeafKeyed(Schema, Key, fm, body, 0); }
    if !EmailOk(fm, body) { Joi.LeafKeyed(Schema, Key, fm, body, 1); }
    if !PasswordOk(body) { Joi.LeafKeyed(Schema, Key, fm, body, 2); }
    SchemaKeys();
    forall j | 0 <= j < |body| && body[j].key !in {"name", "email", "password"}
      ensures Verdict(fm, body).Reject? && body[j].key in Verdict(fm, body).errors
    {
      Joi.UnknownKeyed(Schema, Key, fm, body, j);
    }
  }

  /** A name of two emoji is four JavaScript characters long, which the minimum of 3 admits. */
  lemma TwoEmojiNameOk()
    ensures NameOk([Entry("name", Str("\U{1F600}\U{1F600}"))])
  {
    Strings.TwoEmojiLength();
    assert StrMember([Entry("name", Str("\U{1F600}\U{1F600}"))], "name") == Some("\U{1F600}\U{1F600}");
  }

  /** The validator as the route calls it. */
  method Validate(fm: Formats, body: Body) returns (v: Joi.Verdict)
    ensures v == Verdict(fm, body)
  {
    v := Joi.Validate(Schema, Key, fm, body);
  }
}
