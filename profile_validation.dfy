/** The profile body validator (validations/profile.js). */
module ProfileValidation {
  import opened Common
  import opened Json
  import Joi

  const SocialMembers: seq<Joi.Rule> := [
    Joi.Rule("youtube", false, Joi.Text(true, None, None, Joi.Plain)),
    Joi.Rule("twitter", false, Joi.Text(true, None, None, Joi.Plain)),
    Joi.Rule("linkedin", false, Joi.Text(true, None, None, Joi.Plain)),
    Joi.Rule("instagram", false, Joi.Text(true, None, None, Joi.Plain)),
    Joi.Rule("facebook", false, Joi.Text(true, None, None, Joi.Plain))
  ]

  /**
   * user: an optional object id; handle, status: required strings; website: an optional URI;
   * company, location, skills, bio, githubusername: optional strings, '' allowed;
   * social: an optional object of five optional strings, '' allowed.
   */
  const Schema: seq<Joi.Field> := [
    Joi.Leaf(Joi.Rule("user", false, Joi.Text(false, None, None, Joi.MongoId))),
    Joi.Leaf(Joi.Rule("handle", true, Joi.Text(false, None, None, Joi.Plain))),
    Joi.Leaf(Joi.Rule("company", false, Joi.Text(true, None, None, Joi.Plain))),
    Joi.Leaf(Joi.Rule("website", false, Joi.Text(true, None, None, Joi.Uri))),
    Joi.Leaf(Joi.Rule("location", false, Joi.Text(true, None, None, Joi.Plain))),
    Joi.Leaf(Joi.Rule("status", true, Joi.Text(false, None, None, Joi.Plain))),
    Joi.Leaf(Joi.Rule("skills", false, Joi.Text(true, None, None, Joi.Plain))),
    Joi.Leaf(Joi.Rule("bio", false, Joi.Text(true, None, None, Joi.Plain))),
    Joi.Leaf(Joi.Rule("githubusername", false, Joi.Text(true, None, None, Joi.Plain))),
    Joi.Group("social", SocialMembers)
  ]

  const Keys: set<string> :=
    {"user", "handle", "company", "website", "location", "status", "skills", "bio", "githubusername", "social"}

  const SocialKeys: set<string> := {"youtube", "twitter", "linkedin", "instagram", "facebook"}

  /**
   * The error key as the validator computes it: `path[1]` under `social`, `path[0]` elsewhere.
   * A detail about `social` itself has no `path[1]`, so JavaScript files it under "undefined".
   */
  function KeyAsWritten(d: Joi.Detail): (k: string)
    ensures k != Key(d) <==> d.head == "social" && d.sub.None?
    ensures k != Key(d) ==> k == "undefined"
  {
    if d.head == "social" then (match d.sub case Some(k) => k case None => "undefined") else d.head
  }

  /** The evidently intended key: the nested name under `social`, the top-level name otherwise. */
  function Key(d: Joi.Detail): (k: string)
    ensures d.head != "social" ==> k == d.head
    ensures d.head == "social" ==> Some(k) == d.sub || (d.sub.None? && k == "social")
  {
    if d.head == "social" && d.sub.Some? then d.sub.value else d.head
  }

  // The rules, stated directly.

  predicate UserOk(body: Body)
  {
    Lookup(body, "user").None? || (StrMember(body, "user").Some? && Joi.IsObjectId(StrMember(body, "user").value))
  }

  predicate WebsiteOk(fm: Formats, body: Body)
  {
    Lookup(body, "website").None? ||
    (StrMember(body, "website").Some? &&
     (StrMember(body, "website").value == "" || fm.isUri(StrMember(body, "website").value)))
  }

  predicate SocialOk(body: Body)
  {
    match Lookup(body, "social")
    case None => true
    case Some(Obj(es)) =>
      && Joi.OptionalText(es, "youtube", true)
      && Joi.OptionalText(es, "twitter", true)
      && Joi.OptionalText(es, "linkedin", true)
      && Joi.OptionalText(es, "instagram", true)
      && Joi.OptionalText(es, "facebook", true)
      && Joi.OnlyKeys(es, SocialKeys)
    case Some(_) => false
  }

  predicate Acceptable(fm: Formats, body: Body)
  {
    && UserOk(body)
    && Joi.RequiredText(body, "handle")
    && Joi.OptionalText(body, "company", true)
    && WebsiteOk(fm, body)
    && Joi.OptionalText(body, "location", true)
    && Joi.RequiredText(body, "status")
    && Joi.OptionalText(body, "skills", true)
    && Joi.OptionalText(body, "bio", true)
    && Joi.OptionalText(body, "githubusername", true)
    && SocialOk(body)
    && Joi.OnlyKeys(body, Keys)
  }

  /** The key of each schema field, by position; only position 9 is a group. */
  lemma FieldAt(i: nat)
    requires i < |Schema|
    ensures Joi.FieldKey(Schema[i]) in Keys
    ensures Joi.FieldKey(Schema[i]) == "social" || Schema[i].Group? ==> i == 9
    ensures Joi.FieldKey(Schema[i]) != "undefined"
  {
    if i == 0 { assert Joi.FieldKey(Schema[i]) == "user"; }
    else if i == 1 { assert Joi.FieldKey(Schema[i]) == "handle"; }
    else if i == 2 { assert Joi.FieldKey(Schema[i]) == "company"; }
    else if i == 3 { assert Joi.FieldKey(Schema[i]) == "website"; }
    else if i == 4 { assert Joi.FieldKey(Schema[i]) == "location"; }
    else if i == 5 { assert Joi.FieldKey(Schema[i]) == "status"; }
    else if i == 6 { assert Joi.FieldKey(Schema[i]) == "skills"; }
    else if i == 7 { assert Joi.FieldKey(Schema[i]) == "bio"; }
    else if i == 8 { assert Joi.FieldKey(Schema[i]) == "githubusername"; }
    else { assert Joi.FieldKey(Schema[i]) == "social"; }
  }

  lemma SchemaKeys()
    ensures Joi.FieldKeys(Schema) == Keys
  {
    var ks := Joi.FieldKeys(Schema);
    assert Joi.FieldKey(Schema[0]) == "user";
    assert Joi.FieldKey(Schema[1]) == "handle";
    assert Joi.FieldKey(Schema[2]) == "company";
    assert Joi.FieldKey(Schema[3]) == "website";
    assert Joi.FieldKey(Schema[4]) == "location";
    assert Joi.FieldKey(Schema[5]) == "status";
    assert Joi.FieldKey(Schema[6]) == "skills";
    assert Joi.FieldKey(Schema[7]) == "bio";
    assert Joi.FieldKey(Schema[8]) == "githubusername";
    assert Joi.FieldKey(Schema[9]) == "social";
    assert Keys <= ks;
    forall k | k in ks ensures k in Keys {
      var i :| 0 <= i < |Schema| && Joi.FieldKey(Schema[i]) == k;
      FieldAt(i);
    }
  }

  lemma SocialKeysAre()
    ensures Joi.RuleKeys(SocialMembers) == SocialKeys
  {
    assert SocialMembers[0].key == "youtube";
    assert SocialMembers[1].key == "twitter";
    assert SocialMembers[2].key == "linkedin";
    assert SocialMembers[3].key == "instagram";
    assert SocialMembers[4].key == "facebook";
    forall k | k in Joi.RuleKeys(SocialMembers) ensures k in SocialKeys {
      var i :| 0 <= i < |SocialMembers| && SocialMembers[i].key == k;
    }
  }

  lemma SocialMeansRules(fm: Formats, es: seq<Entry>)
    ensures (forall i :: 0 <= i < |SocialMembers| ==> Joi.Satisfies(SocialMembers[i], fm, Lookup(es, SocialMembers[i].key))) <==>
      && Joi.OptionalText(es, "youtube", true)
      && Joi.OptionalText(es, "twitter", true)
      && Joi.OptionalText(es, "linkedin", true)
      && Joi.OptionalText(es, "instagram", true)
      && Joi.OptionalText(es, "facebook", true)
  {
    assert Joi.Satisfies(SocialMembers[0], fm, Lookup(es, "youtube")) <==> Joi.OptionalText(es, "youtube", true);
    assert Joi.Satisfies(SocialMembers[1], fm, Lookup(es, "twitter")) <==> Joi.OptionalText(es, "twitter", true);
    assert Joi.Satisfies(SocialMembers[2], fm, Lookup(es, "linkedin")) <==> Joi.OptionalText(es, "linkedin", true);
    assert Joi.Satisfies(SocialMembers[3], fm, Lookup(es, "instagram")) <==> Joi.OptionalText(es, "instagram", true);
    assert Joi.Satisfies(SocialMembers[4], fm, Lookup(es, "facebook")) <==> Joi.OptionalText(es, "facebook", true);
  }

  lemma SocialFieldMeansRule(fm: Formats, body: Body)
    ensures Joi.FieldHolds(Schema[9], fm, body) <==> SocialOk(body)
  {
    SocialKeysAre();
    match Lookup(body, "social")
    case None =>
    case Some(x) =>
      if x.Obj? { SocialMeansRules(fm, x.entries); }
  }

  lemma UserRuleMeans(fm: Formats, body: Body)
    ensures Joi.FieldHolds(Schema[0], fm, body) <==> UserOk(body)
  {
  }

  lemma WebsiteRuleMeans(fm: Formats, body: Body)
    ensures Joi.FieldHolds(Schema[3], fm, body) <==> WebsiteOk(fm, body)
  {
  }

  lemma FieldsMeanRules(fm: Formats, body: Body)
    ensures Joi.FieldHolds(Schema[0], fm, body) <==> UserOk(body)
    ensures Joi.FieldHolds(Schema[1], fm, body) <==> Joi.RequiredText(body, "handle")
    ensures Joi.FieldHolds(Schema[2], fm, body) <==> Joi.OptionalText(body, "company", true)
    ensures Joi.FieldHolds(Schema[3], fm, body) <==> WebsiteOk(fm, body)
    ensures Joi.FieldHolds(Schema[4], fm, body) <==> Joi.OptionalText(body, "location", true)
    ensures Joi.FieldHolds(Schema[5], fm, body) <==> Joi.RequiredText(body, "status")
    ensures Joi.FieldHolds(Schema[6], fm, body) <==> Joi.OptionalText(body, "skills", true)
    ensures Joi.FieldHolds(Schema[7], fm, body) <==> Joi.OptionalText(body, "bio", true)
    ensures Joi.FieldHolds(Schema[8], fm, body) <==> Joi.OptionalText(body, "githubusername", true)
  {
    UserRuleMeans(fm, body);
    WebsiteRuleMeans(fm, body);
    Joi.OptionalTextHolds("company", true, fm, body);
    Joi.OptionalTextHolds("location", true, fm, body);
    Joi.RequiredTextHolds("handle", fm, body);
    Joi.RequiredTextHolds("status", fm, body);
    Joi.OptionalTextHolds("skills", true, fm, body);
    Joi.OptionalTextHolds("bio", true, fm, body);
    Joi.OptionalTextHolds("githubusername", true, fm, body);
  }

  lemma FieldsHoldMeansRules(fm: Formats, body: Body)
    ensures (forall i :: 0 <= i < |Schema| ==> Joi.FieldHolds(Schema[i], fm, body)) <==>
      && UserOk(body)
      && Joi.RequiredText(body, "handle")
      && Joi.OptionalText(body, "company", true)
      && WebsiteOk(fm, body)
      && Joi.OptionalText(body, "location", true)
      && Joi.RequiredText(body, "status")
      && Joi.OptionalText(body, "skills", true)
      && Joi.OptionalText(body, "bio", true)
      && Joi.OptionalText(body, "githubusername", true)
      && SocialOk(body)
  {
    FieldsMeanRules(fm, body);
    SocialFieldMeansRule(fm, body);
  }

  lemma ConformsMeansAcceptable(fm: Formats, body: Body)
    ensures Joi.Conforms(Schema, fm, body) <==> Acceptable(fm, body)
  {
    SchemaKeys();
    FieldsHoldMeansRules(fm, body);
  }

  /** What the validator answers, with the evidently intended error keys. */
  function Verdict(fm: Formats, body: Body): (v: Joi.Verdict)
    ensures v.Pass? <==> Acceptable(fm, body)
    ensures v.Reject? ==> v.status == 400
  {
    Joi.DetailsEmpty(Schema, fm, body);
    ConformsMeansAcceptable(fm, body);
    Joi.Outcome(Joi.Details(Schema, fm, body), Key)
  }

  /** What the validator answers as written: the same verdict, with `KeyAsWritten`. */
  function VerdictAsWritten(fm: Formats, body: Body): (v: Joi.Verdict)
    ensures v.Pass? <==> Acceptable(fm, body)
    ensures v.Reject? ==> v.status == 400
  {
    Joi.DetailsEmpty(Schema, fm, body);
    ConformsMeansAcceptable(fm, body);
    Joi.Outcome(Joi.Details(Schema, fm, body), KeyAsWritten)
  }

  /**
   * Failing required and formatted fields are each reported under their own name, and a
   * failing member of `social` under its nested name (e.g. `twitter`), not under `social`.
   */
  lemma AllViolationsReported(fm: Formats, body: Body)
    ensures !UserOk(body) ==> Verdict(fm, body).Reject? && "user" in Verdict(fm, body).errors
    ensures !Joi.RequiredText(body, "handle") ==> Verdict(fm, body).Reject? && "handle" in Verdict(fm, body).errors
    ensures !WebsiteOk(fm, body) ==> Verdict(fm, body).Reject? && "website" in Verdict(fm, body).errors
    ensures !Joi.RequiredText(body, "status") ==> Verdict(fm, body).Reject? && "status" in Verdict(fm, body).errors
    ensures forall j :: 0 <= j < |body| && body[j].key !in Keys ==>
              Verdict(fm, body).Reject? && body[j].key in Verdict(fm, body).errors
  {
    assert Verdict(fm, body) == Joi.Outcome(Joi.Details(Schema, fm, body), Key);
    if !UserOk(body) { UserRuleMeans(fm, body); Joi.LeafKeyed(Schema, Key, fm, body, 0); }
    if !Joi.RequiredText(body, "handle") { Joi.RequiredTextHolds("handle", fm, body); Joi.LeafKeyed(Schema, Key, fm, body, 1); }
    if !WebsiteOk(fm, body) { WebsiteRuleMeans(fm, body); Joi.LeafKeyed(Schema, Key, fm, body, 3); }
    if !Joi.RequiredText(body, "status") { Joi.RequiredTextHolds("status", fm, body); Joi.LeafKeyed(Schema, Key, fm, body, 5); }
    SchemaKeys();
    forall j | 0 <= j < |body| && body[j].key !in Keys
      ensures Verdict(fm, body).Reject? && body[j].key in Verdict(fm, body).errors
    {
      Joi.UnknownKeyed(Schema, Key, fm, body, j);
    }
  }

  /** A failing member of `social` is keyed by its own name. */
  lemma SocialMemberKeyedByName(fm: Formats, body: Body, es: seq<Entry>, i: nat)
    requires Lookup(body, "social") == Some(Obj(es))
    requires i < |SocialMembers| && !Joi.Satisfies(SocialMembers[i], fm, Lookup(es, SocialMembers[i].key))
    ensures Verdict(fm, body).Reject? && SocialMembers[i].key in Verdict(fm, body).errors
  {
    var r := SocialMembers[i];
    var ds := Joi.Details(Schema, fm, body);
    Joi.RuleCodesEmpty(r, fm, Lookup(es, r.key));
    var c := Joi.RuleCodes(r, fm, Lookup(es, r.key))[0];
    var d := Joi.Detail("social", Some(r.key), c);
    NestedDetailIn(fm, es, i, d);
    assert d in Joi.FieldDetails(Schema[9], fm, body);
    Joi.FieldDetailInDetails(Schema, fm, body, 9, d);
    Joi.OutcomeReportsAll(ds, Key);
  }

  lemma NestedDetailIn(fm: Formats, es: seq<Entry>, i: nat, d: Joi.Detail)
    requires i < |SocialMembers|
    requires d in Joi.Tag(Some("social"), SocialMembers[i].key, Joi.RuleCodes(SocialMembers[i], fm, Lookup(es, SocialMembers[i].key)))
    ensures d in Joi.RulesDetails(SocialMembers, fm, es, Some("social"))
  {
    RulesDetailIn(SocialMembers, fm, es, i, d);
  }

  lemma {:induction false} RulesDetailIn(rules: seq<Joi.Rule>, fm: Formats, es: seq<Entry>, i: nat, d: Joi.Detail)
    requires i < |rules|
    requires d in Joi.Tag(Some("social"), rules[i].key, Joi.RuleCodes(rules[i], fm, Lookup(es, rules[i].key)))
    ensures d in Joi.RulesDetails(rules, fm, es, Some("social"))
  {
    if i > 0 {
      assert rules[1..][i - 1] == rules[i];
      RulesDetailIn(rules[1..], fm, es, i - 1, d);
    }
  }

  /**
   * When two details share a key the later message wins: an undeclared top-level member,
   * reported last, keeps its `is not allowed` message even if a `social` member of the same
   * name failed earlier.
   */
  lemma UndeclaredMemberMessageWins(fm: Formats, body: Body, j: nat)
    requires j < |body| && body[j].key !in Keys
    ensures Verdict(fm, body).Reject?
    ensures body[j].key in Verdict(fm, body).errors
    ensures Verdict(fm, body).errors[body[j].key] == "\"" + body[j].key + "\" is not allowed"
  {
    SchemaKeys();
    assert Verdict(fm, body) == Joi.Outcome(Joi.Details(Schema, fm, body), Key);
    Joi.UndeclaredKeySettles(Schema, fm, body, Key, j);
    Joi.NotAllowedMessage(body[j].key);
  }

  /** When `social` is sent but is not an object, the only detail about `social` is `object.base`. */
  lemma SocialNotObjectNoNested(fm: Formats, body: Body, e: Joi.Detail)
    requires Lookup(body, "social").Some? && !Lookup(body, "social").value.Obj?
    requires e in Joi.Details(Schema, fm, body)
    ensures e.sub.None?
  {
    var i := Joi.DetailOrigin(Schema, fm, body, e);
    if 0 <= i { FieldAt(i); }
  }

  lemma SocialNotObjectOnly(fm: Formats, body: Body, e: Joi.Detail)
    requires Lookup(body, "social").Some? && !Lookup(body, "social").value.Obj?
    requires e in Joi.Details(Schema, fm, body)
    ensures e.head == "social" ==> e == Joi.Detail("social", None, Joi.NotObject)
  {
    var i := Joi.DetailOrigin(Schema, fm, body, e);
    if 0 <= i { FieldAt(i); } else { SchemaKeys(); }
  }

  /** A detail keyed "undefined" can only be about a body member of that name. */
  lemma UndefinedFromBody(fm: Formats, body: Body, e: Joi.Detail)
    requires e in Joi.Details(Schema, fm, body)
    ensures e.head == "undefined" ==> Lookup(body, "undefined").Some?
  {
    var i := Joi.DetailOrigin(Schema, fm, body, e);
    if 0 <= i { FieldAt(i); }
    LookupFinds(body, "undefined");
  }

  /** Where the `object.base` detail about `social` sits among all details. */
  lemma SocialNotObjectDetail(fm: Formats, body: Body) returns (i: nat)
    requires Lookup(body, "social").Some? && !Lookup(body, "social").value.Obj?
    ensures i < |Joi.Details(Schema, fm, body)|
    ensures Joi.Details(Schema, fm, body)[i] == Joi.Detail("social", None, Joi.NotObject)
  {
    var d := Joi.Detail("social", None, Joi.NotObject);
    Joi.GroupNotObject("social", SocialMembers, fm, body);
    assert Joi.FieldDetails(Schema[9], fm, body) == [d];
    Joi.FieldDetailInDetails(Schema, fm, body, 9, d);
    var ds := Joi.Details(Schema, fm, body);
    i :| 0 <= i < |ds| && ds[i] == d;
  }

  /** How the details are keyed when `social` is sent but is not an object. */
  lemma KeysWhenSocialNotObject(fm: Formats, body: Body, e: Joi.Detail)
    requires Lookup(body, "social").Some? && !Lookup(body, "social").value.Obj?
    requires e in Joi.Details(Schema, fm, body)
    ensures KeyAsWritten(e) != "social"
    ensures KeyAsWritten(e) == "undefined" && Lookup(body, "undefined").None? ==> e == Joi.Detail("social", None, Joi.NotObject)
    ensures Key(e) == "social" ==> e == Joi.Detail("social", None, Joi.NotObject)
  {
    SocialNotObjectNoNested(fm, body, e);
    SocialNotObjectOnly(fm, body, e);
    UndefinedFromBody(fm, body, e);
  }

  /**
   * As written, a `social` member that is present but not an object is reported under the key
   * "undefined", and nothing is reported under `social`.
   */
  lemma SocialNotObjectAsWritten(fm: Formats, body: Body)
    requires Lookup(body, "social").Some? && !Lookup(body, "social").value.Obj?
    requires Lookup(body, "undefined").None?
    ensures VerdictAsWritten(fm, body).Reject?
    ensures "social" !in VerdictAsWritten(fm, body).errors
    ensures "undefined" in VerdictAsWritten(fm, body).errors
    ensures VerdictAsWritten(fm, body).errors["undefined"] == Joi.Message(Joi.Detail("social", None, Joi.NotObject))
  {
    var ds := Joi.Details(Schema, fm, body);
    var i := SocialNotObjectDetail(fm, body);
    assert VerdictAsWritten(fm, body) == Joi.Reject(400, Joi.ErrorMapOf(ds, KeyAsWritten));
    forall k | 0 <= k < |ds|
      ensures KeyAsWritten(ds[k]) != "social"
      ensures KeyAsWritten(ds[k]) == "undefined" ==> ds[k] == ds[i]
    {
      KeysWhenSocialNotObject(fm, body, ds[k]);
    }
    assert "social" !in Joi.ErrorMapOf(ds, KeyAsWritten) by {
      Joi.ErrorMapKeys(ds, KeyAsWritten, "social");
    }
    Joi.ErrorMapSettles(ds, KeyAsWritten, i, "undefined", Joi.Message(ds[i]));
  }

  /** With the intended key, the same failure is reported under `social`. */
  lemma SocialNotObjectReported(fm: Formats, body: Body)
    requires Lookup(body, "social").Some? && !Lookup(body, "social").value.Obj?
    ensures Verdict(fm, body).Reject?
    ensures "social" in Verdict(fm, body).errors
    ensures Verdict(fm, body).errors["social"] == Joi.Message(Joi.Detail("social", None, Joi.NotObject))
  {
    var ds := Joi.Details(Schema, fm, body);
    SocialNotObjectKeyed(fm, body);
    assert Verdict(fm, body) == Joi.Reject(400, Joi.ErrorMapOf(ds, Key));
  }

  lemma SocialNotObjectKeyed(fm: Formats, body: Body)
    requires Lookup(body, "social").Some? && !Lookup(body, "social").value.Obj?
    ensures Joi.Details(Schema, fm, body) != []
    ensures var m := Joi.ErrorMapOf(Joi.Details(Schema, fm, body), Key);
      "social" in m && m["social"] == Joi.Message(Joi.Detail("social", None, Joi.NotObject))
  {
    var ds := Joi.Details(Schema, fm, body);
    var i := SocialNotObjectDetail(fm, body);
    var d := Joi.Detail("social", None, Joi.NotObject);
    assert Key(d) == "social";
    forall k | i <= k < |ds| && Key(ds[k]) == "social" ensures Joi.Message(ds[k]) == Joi.Message(d) {
      KeysWhenSocialNotObject(fm, body, ds[k]);
    }
    Joi.ErrorMapSettles(ds, Key, i, "social", Joi.Message(d));
  }

  /** The validator as the route calls it. */
  method Validate(fm: Formats, body: Body) returns (v: Joi.Verdict)
    ensures v == Verdict(fm, body)
  {
    v := Joi.Validate(Schema, Key, fm, body);
  }
}
