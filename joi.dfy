/**
 * The part of the Joi validation library the validators rely on, as a declarative rule
 * engine: a schema is a sequence of field rules; validating a body with
 * `abortEarly: false` yields EVERY violation, in Joi's order (the schema's keys in
 * declaration order, a nested object's keys inside it, then the keys the schema does
 * not know).  Each validator then folds that list into a field -> message map with a
 * `forEach` loop (CollectErrors) and answers 400 with the map, or returns 0.
 */
module Joi {
  import opened Common
  import opened Json
  import Strings

  // ---------------------------------------------------------------------------
  // Format predicates
  // ---------------------------------------------------------------------------

  predicate IsHexDigit(c: char)
  {
    '0' <= c <= '9' || 'a' <= c <= 'f' || 'A' <= c <= 'F'
  }

  /** The joi-objectid pattern: exactly 24 hexadecimal characters. */
  predicate IsObjectId(s: string)
  {
    |s| == 24 && forall i :: 0 <= i < |s| ==> IsHexDigit(s[i])
  }

  // ---------------------------------------------------------------------------
  // Schemas
  // ---------------------------------------------------------------------------

  /** The format rule of a `Joi.string()`: none, `.email()`, `.uri()`, or `Joi.objectId()`. */
  datatype Format = Plain | EmailAddress | Uri | MongoId

  /**
   * The type of a field: a string (with `.allow('')`, `.min`, `.max` and a format),
   * `Joi.date()`, or `Joi.boolean().allow('')`.
   */
  datatype Check =
    | Text(allowEmpty: bool, minLength: Option<nat>, maxLength: Option<nat>, format: Format)
    | Date
    | Flag

  /** The largest distance from the epoch, in milliseconds, that a JavaScript `Date` can hold. */
  const MaxTime: int := 8_640_000_000_000_000

  /** `new Date(n)` is a valid date: `Joi.date()` turns a number into one and refuses an Invalid Date. */
  predicate Timestamp(n: int)
  {
    -MaxTime <= n <= MaxTime
  }

  /** One key of a schema, `.required()` or optional. */
  datatype Rule = Rule(key: string, required: bool, check: Check)

  /** A top-level schema entry: a plain key, or an optional `Joi.object({...})` of optional keys. */
  datatype Field = Leaf(rule: Rule) | Group(key: string, members: seq<Rule>)

  function RuleKeys(rules: seq<Rule>): (keys: set<string>)
    ensures forall i :: 0 <= i < |rules| ==> rules[i].key in keys
    ensures forall k :: k in keys ==> exists i :: 0 <= i < |rules| && rules[i].key == k
  {
    set i | 0 <= i < |rules| :: rules[i].key
  }

  function FieldKey(f: Field): string
  {
    match f
    case Leaf(r) => r.key
    case Group(g, _) => g
  }

  function FieldKeys(schema: seq<Field>): (keys: set<string>)
    ensures forall i :: 0 <= i < |schema| ==> FieldKey(schema[i]) in keys
    ensures forall k :: k in keys ==> exists i :: 0 <= i < |schema| && FieldKey(schema[i]) == k
  {
    set i | 0 <= i < |schema| :: FieldKey(schema[i])
  }

  // ---------------------------------------------------------------------------
  // Violations and their messages
  // ---------------------------------------------------------------------------

  /** Joi's error codes, as far as these schemas can raise them. */
  datatype Code =
    | Required          // any.required
    | NotString         // string.base
    | Empty             // string.empty
    | TooShort(limit: nat)  // string.min
    | TooLong(limit: nat)   // string.max
    | NotEmail          // string.email
    | NotUri            // string.uri
    | NotMongoId(value: string)  // string.pattern.name of joi-objectid
    | NotDate           // date.base
    | NotBoolean        // boolean.base
    | NotObject         // object.base
    | NotAllowed        // object.unknown

  /** One entry of `error.details`: its path (`[head]` or `[head, sub]`) and its code. */
  datatype Detail = Detail(head: string, sub: Option<string>, code: Code)

  function Digit(d: nat): char
    requires d < 10
  {
    (48 + d) as char
  }

  predicate AllDigits(t: string)
  {
    forall i :: 0 <= i < |t| ==> '0' <= t[i] <= '9'
  }

  /** The number a string of decimal digits denotes. */
  function DigitsValue(t: string): nat
    requires AllDigits(t)
  {
    if t == [] then 0 else DigitsValue(t[..|t| - 1]) * 10 + (t[|t| - 1] as int - 48)
  }

  /**
   * Decimal text of a limit, as Joi interpolates it into a message: the digits of `n`, with
   * no leading zero unless `n` is 0.
   */
  function NatText(n: nat): (t: string)
    ensures |t| > 0 && AllDigits(t)
    ensures DigitsValue(t) == n
    ensures t[0] == '0' ==> n == 0 && |t| == 1
  {
    if n < 10 then [Digit(n)]
    else
      var t := NatText(n / 10) + [Digit(n % 10)];
      assert t[..|t| - 1] == NatText(n / 10);
      t
  }

  /** Joi's default label: the path joined with dots, in double quotes. */
  function Label(d: Detail): string
  {
    "\"" + (match d.sub case None => d.head case Some(k) => d.head + "." + k) + "\""
  }

  /** Joi's default English message for a detail. */
  function Message(d: Detail): string
  {
    Label(d) +
    match d.code
    case Required => " is required"
    case NotString => " must be a string"
    case Empty => " is not allowed to be empty"
    case TooShort(n) => " length must be at least " + NatText(n) + " characters long"
    case TooLong(n) => " length must be less than or equal to " + NatText(n) + " characters long"
    case NotEmail => " must be a valid email"
    case NotUri => " must be a valid uri"
    case NotMongoId(s) => " with value \"" + s + "\" fails to match the valid mongo id pattern"
    case NotDate => " must be a valid date"
    case NotBoolean => " must be a boolean"
    case NotObject => " must be of type object"
    case NotAllowed => " is not allowed"
  }

  /** Every message opens with the quoted label, followed by a space and the rule's wording. */
  lemma MessageStartsWithLabel(d: Detail)
    ensures Label(d) < Message(d) && Message(d)[|Label(d)|] == ' '
  {
  }

  // ---------------------------------------------------------------------------
  // Evaluation
  // ---------------------------------------------------------------------------

  function FormatCodes(fm: Formats, format: Format, s: string): seq<Code>
  {
    match format
    case Plain => []
    case EmailAddress => if fm.isEmail(s) then [] else [NotEmail]
    case Uri => if fm.isUri(s) then [] else [NotUri]
    case MongoId => if IsObjectId(s) then [] else [NotMongoId(s)]
  }

  /**
   * The violations of a present value.  A string schema tries the allowed values first,
   * then the base type, then emptiness, and then runs every rule (min, max, format).
   */
  function ValueCodes(check: Check, fm: Formats, v: Value): seq<Code>
  {
    match check
    case Text(allowEmpty, minLength, maxLength, format) =>
      if v == Str("") && allowEmpty then []
      else if !v.Str? then [NotString]
      else if v.s == "" then [Empty]
      else
        (if minLength.Some? && Strings.Utf16Length(v.s) < minLength.value then [TooShort(minLength.value)] else [])
        + (if maxLength.Some? && Strings.Utf16Length(v.s) > maxLength.value then [TooLong(maxLength.value)] else [])
        + FormatCodes(fm, format, v.s)
    case Date =>
      if (v.Num? && Timestamp(v.n)) || (v.Str? && fm.isDate(v.s)) then [] else [NotDate]
    case Flag =>
      if v.Bool? || v == Str("") || v == Str("true") || v == Str("false") then [] else [NotBoolean]
  }

  /** The violations of a key that may be absent. */
  function RuleCodes(r: Rule, fm: Formats, v: Option<Value>): seq<Code>
  {
    match v
    case None => if r.required then [Required] else []
    case Some(x) => ValueCodes(r.check, fm, x)
  }

  /** The detail for key `key`, at the top level or under the object `group`. */
  function At(group: Option<string>, key: string, c: Code): Detail
  {
    match group
    case None => Detail(key, None, c)
    case Some(g) => Detail(g, Some(key), c)
  }

  function Tag(group: Option<string>, key: string, codes: seq<Code>): (ds: seq<Detail>)
    ensures |ds| == |codes|
    ensures forall i :: 0 <= i < |ds| ==> ds[i] == At(group, key, codes[i])
  {
    seq(|codes|, i requires 0 <= i < |codes| => At(group, key, codes[i]))
  }

  /** The details of the keys of `rules`, in order, looked up in `entries`. */
  function RulesDetails(rules: seq<Rule>, fm: Formats, entries: seq<Entry>, group: Option<string>): seq<Detail>
  {
    if rules == [] then []
    else
      Tag(group, rules[0].key, RuleCodes(rules[0], fm, Lookup(entries, rules[0].key)))
      + RulesDetails(rules[1..], fm, entries, group)
  }

  /** One `object.unknown` detail per member whose key the schema does not declare, in body order. */
  function Unknown(known: set<string>, entries: seq<Entry>, group: Option<string>): (ds: seq<Detail>)
    ensures ds == [] <==> forall i :: 0 <= i < |entries| ==> entries[i].key in known
    ensures forall d :: d in ds ==> d.code == NotAllowed
  {
    if entries == [] then []
    else
      var rest := Unknown(known, entries[1..], group);
      assert forall i :: 1 <= i < |entries| ==> entries[i] == entries[1..][i - 1];
      (if entries[0].key in known then [] else [At(group, entries[0].key, NotAllowed)]) + rest
  }

  function FieldDetails(f: Field, fm: Formats, body: Body): seq<Detail>
  {
    match f
    case Leaf(r) => Tag(None, r.key, RuleCodes(r, fm, Lookup(body, r.key)))
    case Group(g, members) =>
      match Lookup(body, g)
      case None => []
      case Some(Obj(es)) => RulesDetails(members, fm, es, Some(g)) + Unknown(RuleKeys(members), es, Some(g))
      case Some(_) => [Detail(g, None, NotObject)]
  }

  function SchemaDetails(schema: seq<Field>, fm: Formats, body: Body): seq<Detail>
  {
    if schema == [] then [] else FieldDetails(schema[0], fm, body) + SchemaDetails(schema[1..], fm, body)
  }

  /** `schema.validate(body, { abortEarly: false }).error.details`, empty when the body is valid. */
  function Details(schema: seq<Field>, fm: Formats, body: Body): seq<Detail>
  {
    SchemaDetails(schema, fm, body) + Unknown(FieldKeys(schema), body, None)
  }

  // ---------------------------------------------------------------------------
  // A declarative reading of the rules
  // ---------------------------------------------------------------------------

  predicate FormatHolds(fm: Formats, format: Format, s: string)
  {
    match format
    case Plain => true
    case EmailAddress => fm.isEmail(s)
    case Uri => fm.isUri(s)
    case MongoId => IsObjectId(s)
  }

  /** What a present value must be to pass `check`. */
  predicate Accepts(check: Check, fm: Formats, v: Value)
  {
    match check
    case Text(allowEmpty, minLength, maxLength, format) =>
      v.Str? &&
      (if v.s == "" then allowEmpty
       else
         (minLength.Some? ==> Strings.Utf16Length(v.s) >= minLength.value) &&
         (maxLength.Some? ==> Strings.Utf16Length(v.s) <= maxLength.value) &&
         FormatHolds(fm, format, v.s))
    case Date => (v.Num? && Timestamp(v.n)) || (v.Str? && fm.isDate(v.s))
    case Flag => v.Bool? || (v.Str? && (v.s == "" || v.s == "true" || v.s == "false"))
  }

  predicate Satisfies(r: Rule, fm: Formats, v: Option<Value>)
  {
    match v
    case None => !r.required
    case Some(x) => Accepts(r.check, fm, x)
  }

  /** The evaluator reports no violation for a key exactly when the declarative rule holds. */
  lemma RuleCodesEmpty(r: Rule, fm: Formats, v: Option<Value>)
    ensures RuleCodes(r, fm, v) == [] <==> Satisfies(r, fm, v)
  {
    match v
    case None =>
    case Some(x) =>
      match r.check
      case Text(allowEmpty, minLength, maxLength, format) =>
        if x.Str? && x.s != "" {
          var a := if minLength.Some? && Strings.Utf16Length(x.s) < minLength.value then [TooShort(minLength.value)] else [];
          var b := if maxLength.Some? && Strings.Utf16Length(x.s) > maxLength.value then [TooLong(maxLength.value)] else [];
          assert ValueCodes(r.check, fm, x) == a + b + FormatCodes(fm, format, x.s);
          assert FormatCodes(fm, format, x.s) == [] <==> FormatHolds(fm, format, x.s);
        }
      case Date =>
      case Flag =>
  }

  lemma {:induction false} RulesDetailsEmpty(rules: seq<Rule>, fm: Formats, entries: seq<Entry>, group: Option<string>)
    ensures RulesDetails(rules, fm, entries, group) == [] <==>
            forall i :: 0 <= i < |rules| ==> Satisfies(rules[i], fm, Lookup(entries, rules[i].key))
  {
    if rules != [] {
      RuleCodesEmpty(rules[0], fm, Lookup(entries, rules[0].key));
      RulesDetailsEmpty(rules[1..], fm, entries, group);
      assert forall i :: 1 <= i < |rules| ==> rules[i] == rules[1..][i - 1];
    }
  }

  /** What a top-level schema entry demands of the body. */
  predicate FieldHolds(f: Field, fm: Formats, body: Body)
  {
    match f
    case Leaf(r) => Satisfies(r, fm, Lookup(body, r.key))
    case Group(g, members) =>
      match Lookup(body, g)
      case None => true
      case Some(Obj(es)) =>
        (forall i :: 0 <= i < |members| ==> Satisfies(members[i], fm, Lookup(es, members[i].key))) &&
        (forall j :: 0 <= j < |es| ==> es[j].key in RuleKeys(members))
      case Some(_) => false
  }

  lemma FieldDetailsEmpty(f: Field, fm: Formats, body: Body)
    ensures FieldDetails(f, fm, body) == [] <==> FieldHolds(f, fm, body)
  {
    match f
    case Leaf(r) => RuleCodesEmpty(r, fm, Lookup(body, r.key));
    case Group(g, members) =>
      match Lookup(body, g)
      case None =>
      case Some(x) =>
        if x.Obj? { RulesDetailsEmpty(members, fm, x.entries, Some(g)); }
  }

  lemma {:induction false} SchemaDetailsEmpty(schema: seq<Field>, fm: Formats, body: Body)
    ensures SchemaDetails(schema, fm, body) == [] <==> forall i :: 0 <= i < |schema| ==> FieldHolds(schema[i], fm, body)
  {
    if schema != [] {
      FieldDetailsEmpty(schema[0], fm, body);
      SchemaDetailsEmpty(schema[1..], fm, body);
      assert forall i :: 1 <= i < |schema| ==> schema[i] == schema[1..][i - 1];
    }
  }

  /** The body passes the schema: every entry's rule holds and no member is undeclared. */
  predicate Conforms(schema: seq<Field>, fm: Formats, body: Body)
  {
    (forall i :: 0 <= i < |schema| ==> FieldHolds(schema[i], fm, body)) &&
    (forall j :: 0 <= j < |body| ==> body[j].key in FieldKeys(schema))
  }

  /** Joi reports no detail exactly when the body conforms to the declarative rules. */
  lemma DetailsEmpty(schema: seq<Field>, fm: Formats, body: Body)
    ensures Details(schema, fm, body) == [] <==> Conforms(schema, fm, body)
  {
    SchemaDetailsEmpty(schema, fm, body);
  }

  /** Every detail of one schema entry is among the details of the whole schema. */
  lemma {:induction false} FieldDetailInDetails(schema: seq<Field>, fm: Formats, body: Body, i: nat, d: Detail)
    requires i < |schema| && d in FieldDetails(schema[i], fm, body)
    ensures d in Details(schema, fm, body)
  {
    SchemaDetailIn(schema, fm, body, i, d);
  }

  lemma {:induction false} SchemaDetailIn(schema: seq<Field>, fm: Formats, body: Body, i: nat, d: Detail)
    requires i < |schema| && d in FieldDetails(schema[i], fm, body)
    ensures d in SchemaDetails(schema, fm, body)
  {
    var head := FieldDetails(schema[0], fm, body);
    var rest := SchemaDetails(schema[1..], fm, body);
    assert SchemaDetails(schema, fm, body) == head + rest;
    if i == 0 {
      InConcat(head, rest, d);
    } else {
      assert schema[1..][i - 1] == schema[i];
      SchemaDetailIn(schema[1..], fm, body, i - 1, d);
      InConcat(head, rest, d);
    }
  }

  lemma InConcat<T>(a: seq<T>, b: seq<T>, x: T)
    ensures x in a + b <==> x in a || x in b
  {
  }

  lemma {:induction false} UnknownContains(known: set<string>, entries: seq<Entry>, group: Option<string>, j: nat)
    requires j < |entries| && entries[j].key !in known
    ensures At(group, entries[j].key, NotAllowed) in Unknown(known, entries, group)
  {
    if j > 0 {
      assert entries[1..][j - 1] == entries[j];
      UnknownContains(known, entries[1..], group, j - 1);
    }
  }

  /**
   * Where each detail comes from: a nested path only under a declared object that the body
   * sends as an object; a top-level path under a declared key or an undeclared member.
   */
  lemma DetailShape(schema: seq<Field>, fm: Formats, body: Body, d: Detail)
    requires d in Details(schema, fm, body)
    ensures d.sub.Some? ==> exists i :: 0 <= i < |schema| && schema[i].Group? && schema[i].key == d.head &&
                                       Lookup(body, d.head).Some? && Lookup(body, d.head).value.Obj?
    ensures d.sub.None? ==> (exists i :: 0 <= i < |schema| && FieldKey(schema[i]) == d.head) ||
                            (d.code == NotAllowed && d.head !in FieldKeys(schema))
  {
    var sd := SchemaDetails(schema, fm, body);
    if d in sd {
      var i := SchemaDetailSource(schema, fm, body, d);
      FieldDetailShape(schema[i], fm, body, d);
    } else {
      UnknownShape(FieldKeys(schema), body, None, d);
    }
  }

  lemma {:induction false} SchemaDetailSource(schema: seq<Field>, fm: Formats, body: Body, d: Detail) returns (i: nat)
    requires d in SchemaDetails(schema, fm, body)
    ensures i < |schema| && d in FieldDetails(schema[i], fm, body)
  {
    if d in FieldDetails(schema[0], fm, body) {
      i := 0;
    } else {
      var j := SchemaDetailSource(schema[1..], fm, body, d);
      i := j + 1;
    }
  }

  lemma {:induction false} RulesDetailShape(rules: seq<Rule>, fm: Formats, entries: seq<Entry>, g: string, d: Detail)
    requires d in RulesDetails(rules, fm, entries, Some(g))
    ensures d.head == g && d.sub.Some?
  {
    if d !in Tag(Some(g), rules[0].key, RuleCodes(rules[0], fm, Lookup(entries, rules[0].key))) {
      RulesDetailShape(rules[1..], fm, entries, g, d);
    }
  }

  lemma {:induction false} UnknownShape(known: set<string>, entries: seq<Entry>, group: Option<string>, d: Detail)
    requires d in Unknown(known, entries, group)
    ensures group.None? ==> d.sub.None? && d.head !in known && d.code == NotAllowed
    ensures group.None? ==> exists j :: 0 <= j < |entries| && entries[j].key == d.head
    ensures group.Some? ==> d.head == group.value && d.sub.Some?
  {
    var rest := Unknown(known, entries[1..], group);
    if d in rest {
      UnknownShape(known, entries[1..], group, d);
      if group.None? {
        var j :| 0 <= j < |entries[1..]| && entries[1..][j].key == d.head;
        assert entries[j + 1].key == d.head;
      }
    }
  }

  lemma FieldDetailShape(f: Field, fm: Formats, body: Body, d: Detail)
    requires d in FieldDetails(f, fm, body)
    ensures d.head == FieldKey(f)
    ensures d.sub.Some? ==> f.Group? && Lookup(body, f.key).Some? && Lookup(body, f.key).value.Obj?
  {
    match f
    case Leaf(r) =>
    case Group(g, members) =>
      match Lookup(body, g)
      case None =>
      case Some(x) =>
        if x.Obj? {
          if d in RulesDetails(members, fm, x.entries, Some(g)) {
            RulesDetailShape(members, fm, x.entries, g, d);
          } else {
            UnknownShape(RuleKeys(members), x.entries, Some(g), d);
          }
        }
  }

  /** A group whose member is present but not an object yields the single `object.base` detail. */
  lemma GroupNotObject(g: string, members: seq<Rule>, fm: Formats, body: Body)
    requires Lookup(body, g).Some? && !Lookup(body, g).value.Obj?
    ensures FieldDetails(Group(g, members), fm, body) == [Detail(g, None, NotObject)]
  {
  }

  /**
   * Where a detail comes from: the field at some position `i` of the schema, or (`i == -1`)
   * an undeclared top-level member of the body.
   */
  lemma DetailOrigin(schema: seq<Field>, fm: Formats, body: Body, d: Detail) returns (i: int)
    requires d in Details(schema, fm, body)
    ensures -1 <= i < |schema|
    ensures i < 0 ==> d.sub.None? && d.code == NotAllowed && d.head !in FieldKeys(schema)
    ensures i < 0 ==> exists j :: 0 <= j < |body| && body[j].key == d.head
    ensures 0 <= i ==> d in FieldDetails(schema[i], fm, body) && d.head == FieldKey(schema[i])
    ensures d.sub.Some? ==> 0 <= i && schema[i].Group? && Lookup(body, d.head).Some? && Lookup(body, d.head).value.Obj?
  {
    if d in SchemaDetails(schema, fm, body) {
      i := SchemaDetailSource(schema, fm, body, d);
      FieldDetailShape(schema[i], fm, body, d);
    } else {
      i := -1;
      UnknownShape(FieldKeys(schema), body, None, d);
    }
  }

  lemma LeafReported(schema: seq<Field>, fm: Formats, body: Body, i: nat) returns (c: Code)
    requires i < |schema| && schema[i].Leaf? && !FieldHolds(schema[i], fm, body)
    ensures Detail(schema[i].rule.key, None, c) in Details(schema, fm, body)
  {
    LeafDetails(schema[i].rule, fm, body);
    var d := FieldDetails(schema[i], fm, body)[0];
    FieldDetailInDetails(schema, fm, body, i, d);
    c := d.code;
  }

  /** A top-level member the schema does not declare yields an `object.unknown` detail under its own key. */
  lemma UnknownReported(schema: seq<Field>, fm: Formats, body: Body, j: nat)
    requires j < |body| && body[j].key !in FieldKeys(schema)
    ensures Detail(body[j].key, None, NotAllowed) in Details(schema, fm, body)
  {
    UnknownContains(FieldKeys(schema), body, None, j);
  }

  /** A failing required-or-typed key yields details, all under that key. */
  lemma LeafDetails(r: Rule, fm: Formats, body: Body)
    requires !Satisfies(r, fm, Lookup(body, r.key))
    ensures |FieldDetails(Leaf(r), fm, body)| > 0
    ensures forall d :: d in FieldDetails(Leaf(r), fm, body) ==> d.head == r.key && d.sub == None
  {
    RuleCodesEmpty(r, fm, Lookup(body, r.key));
  }

  // Field conditions in the words of a schema, used to state each validator's rules.

  /** A `Joi.string().required()` key: present, a string, not empty. */
  predicate RequiredText(body: Body, key: string)
  {
    StrMember(body, key).Some? && StrMember(body, key).value != ""
  }

  /** An optional `Joi.string()` key: absent, or a string (empty only with `.allow('')`). */
  predicate OptionalText(body: Body, key: string, allowEmpty: bool)
  {
    Lookup(body, key).None? || (StrMember(body, key).Some? && (StrMember(body, key).value == "" ==> allowEmpty))
  }

  /** A `Joi.date()` value: a timestamp within a JavaScript `Date`'s range, or a string the date predicate accepts. */
  predicate DateValue(fm: Formats, v: Value)
  {
    (v.Num? && Timestamp(v.n)) || (v.Str? && fm.isDate(v.s))
  }

  /** A `Joi.boolean().allow('')` value. */
  predicate FlagValue(v: Value)
  {
    v.Bool? || v == Str("") || v == Str("true") || v == Str("false")
  }

  predicate RequiredDate(fm: Formats, body: Body, key: string)
  {
    Lookup(body, key).Some? && DateValue(fm, Lookup(body, key).value)
  }

  predicate OptionalDate(fm: Formats, body: Body, key: string)
  {
    Lookup(body, key).None? || DateValue(fm, Lookup(body, key).value)
  }

  predicate OptionalFlag(body: Body, key: string)
  {
    Lookup(body, key).None? || FlagValue(Lookup(body, key).value)
  }

  /** No member of the body lies outside `keys`. */
  predicate OnlyKeys(body: Body, keys: set<string>)
  {
    forall j :: 0 <= j < |body| ==> body[j].key in keys
  }

  // What each kind of leaf rule demands, in the words above.

  lemma RequiredTextHolds(key: string, fm: Formats, body: Body)
    ensures FieldHolds(Leaf(Rule(key, true, Text(false, None, None, Plain))), fm, body) <==> RequiredText(body, key)
  {
  }

  lemma OptionalTextHolds(key: string, allowEmpty: bool, fm: Formats, body: Body)
    ensures FieldHolds(Leaf(Rule(key, false, Text(allowEmpty, None, None, Plain))), fm, body) <==>
            OptionalText(body, key, allowEmpty)
  {
  }

  lemma RequiredDateHolds(key: string, fm: Formats, body: Body)
    ensures FieldHolds(Leaf(Rule(key, true, Date)), fm, body) <==> RequiredDate(fm, body, key)
  {
  }

  lemma OptionalDateHolds(key: string, fm: Formats, body: Body)
    ensures FieldHolds(Leaf(Rule(key, false, Date)), fm, body) <==> OptionalDate(fm, body, key)
  {
  }

  lemma OptionalFlagHolds(key: string, fm: Formats, body: Body)
    ensures FieldHolds(Leaf(Rule(key, false, Flag)), fm, body) <==> OptionalFlag(body, key)
  {
  }

  // ---------------------------------------------------------------------------
  // The error map and the validator's verdict
  // ---------------------------------------------------------------------------

  /** `error[key(d)] = d.message` for each detail in turn: a later detail overwrites an earlier one. */
  function ErrorMapOf(ds: seq<Detail>, keyOf: Detail -> string): ErrorMap
  {
    if ds == [] then map[]
    else ErrorMapOf(ds[..|ds| - 1], keyOf)[keyOf(ds[|ds| - 1]) := Message(ds[|ds| - 1])]
  }

  /** The map has an entry for each violation's key and for nothing else. */
  lemma {:induction false} ErrorMapKeys(ds: seq<Detail>, keyOf: Detail -> string, k: string)
    ensures k in ErrorMapOf(ds, keyOf) <==> exists i :: 0 <= i < |ds| && keyOf(ds[i]) == k
  {
    if ds != [] {
      var front := ds[..|ds| - 1];
      ErrorMapKeys(front, keyOf, k);
      assert forall i :: 0 <= i < |front| ==> front[i] == ds[i];
    }
  }

  /** The message kept for a key is that of the LAST detail with that key. */
  lemma {:induction false} ErrorMapLastWins(ds: seq<Detail>, keyOf: Detail -> string, i: nat)
    requires i < |ds|
    requires forall j :: i < j < |ds| ==> keyOf(ds[j]) != keyOf(ds[i])
    ensures keyOf(ds[i]) in ErrorMapOf(ds, keyOf)
    ensures ErrorMapOf(ds, keyOf)[keyOf(ds[i])] == Message(ds[i])
  {
    if i < |ds| - 1 {
      var front := ds[..|ds| - 1];
      assert forall j :: i < j < |front| ==> front[j] == ds[j];
      ErrorMapLastWins(front, keyOf, i);
    }
  }

  /**
   * Once every detail from position i on that has key k carries message m, the map keeps m
   * for k, whatever earlier details said.
   */
  lemma {:induction false} ErrorMapSettles(ds: seq<Detail>, keyOf: Detail -> string, i: nat, k: string, m: string)
    requires i < |ds| && keyOf(ds[i]) == k
    requires forall j :: i <= j < |ds| && keyOf(ds[j]) == k ==> Message(ds[j]) == m
    ensures k in ErrorMapOf(ds, keyOf) && ErrorMapOf(ds, keyOf)[k] == m
  {
    var front := ds[..|ds| - 1];
    if keyOf(ds[|ds| - 1]) != k {
      assert forall j :: i <= j < |front| ==> front[j] == ds[j];
      ErrorMapSettles(front, keyOf, i, k, m);
    }
  }

  /**
   * Undeclared members are reported after every declared key, so when they are keyed by their
   * own name their `is not allowed` message overwrites whatever an earlier detail left there.
   */
  lemma UndeclaredKeySettles(schema: seq<Field>, fm: Formats, body: Body, keyOf: Detail -> string, j: nat)
    requires j < |body| && body[j].key !in FieldKeys(schema)
    requires forall d: Detail :: d.sub.None? && d.head !in FieldKeys(schema) ==> keyOf(d) == d.head
    ensures Outcome(Details(schema, fm, body), keyOf).Reject?
    ensures var errors := Outcome(Details(schema, fm, body), keyOf).errors;
      body[j].key in errors && errors[body[j].key] == Message(Detail(body[j].key, None, NotAllowed))
  {
    var k := body[j].key;
    var known := FieldKeys(schema);
    var sd := SchemaDetails(schema, fm, body);
    var unk := Unknown(known, body, None);
    var d := Detail(k, None, NotAllowed);
    UnknownContains(known, body, None, j);
    var idx :| 0 <= idx < |unk| && unk[idx] == d;
    UnknownUndeclared(known, body);
    forall i | idx <= i < |unk| && keyOf(unk[i]) == k ensures Message(unk[i]) == Message(d) {
      assert unk[i] == d;
    }
    SettlesInSuffix(sd, unk, keyOf, idx, k, Message(d));
    assert Details(schema, fm, body) == sd + unk;
  }

  /** Every top-level `object.unknown` detail is about an undeclared key. */
  lemma UnknownUndeclared(known: set<string>, entries: seq<Entry>)
    ensures var unk := Unknown(known, entries, None);
      forall i :: 0 <= i < |unk| ==> unk[i].sub.None? && unk[i].head !in known && unk[i].code == NotAllowed
  {
    var unk := Unknown(known, entries, None);
    forall i | 0 <= i < |unk|
      ensures unk[i].sub.None? && unk[i].head !in known && unk[i].code == NotAllowed
    {
      UnknownShape(known, entries, None, unk[i]);
    }
  }

  /** ErrorMapSettles for a detail that lies in the second part of a concatenation. */
  lemma {:induction false} SettlesInSuffix(pre: seq<Detail>, suf: seq<Detail>, keyOf: Detail -> string, idx: nat, k: string, m: string)
    requires idx < |suf| && keyOf(suf[idx]) == k
    requires forall j :: idx <= j < |suf| && keyOf(suf[j]) == k ==> Message(suf[j]) == m
    ensures k in ErrorMapOf(pre + suf, keyOf) && ErrorMapOf(pre + suf, keyOf)[k] == m
  {
    var ds := pre + suf;
    var last := suf[|suf| - 1];
    var front := suf[..|suf| - 1];
    assert ds[..|ds| - 1] == pre + front;
    assert ds[|ds| - 1] == last;
    if keyOf(last) != k {
      assert forall j :: idx <= j < |front| ==> front[j] == suf[j];
      SettlesInSuffix(pre, front, keyOf, idx, k, m);
    }
  }

  /** The message of an undeclared member. */
  lemma NotAllowedMessage(k: string)
    ensures Message(Detail(k, None, NotAllowed)) == "\"" + k + "\" is not allowed"
  {
  }

  /** The loop of the validators: `details.forEach(err => error[path] = err.message)`. */
  method CollectErrors(ds: seq<Detail>, keyOf: Detail -> string) returns (errors: ErrorMap)
    ensures errors == ErrorMapOf(ds, keyOf)
    ensures forall i :: 0 <= i < |ds| ==> keyOf(ds[i]) in errors
  {
    errors := map[];
    var i := 0;
    while i < |ds|
      invariant 0 <= i <= |ds|
      invariant errors == ErrorMapOf(ds[..i], keyOf)
    {
      assert ds[..i + 1][..i] == ds[..i];
      errors := errors[keyOf(ds[i]) := Message(ds[i])];
      i := i + 1;
    }
    assert ds[..|ds|] == ds;
    forall i | 0 <= i < |ds| ensures keyOf(ds[i]) in errors {
      ErrorMapKeys(ds, keyOf, keyOf(ds[i]));
    }
  }

  /**
   * What a validator does: return `0` and write nothing (Pass), or write status 400 with
   * the error map and return `undefined` (Reject), after which the caller stops.
   */
  datatype Verdict = Pass | Reject(status: int, errors: ErrorMap)

  function Outcome(ds: seq<Detail>, keyOf: Detail -> string): (v: Verdict)
  {
    if ds == [] then Pass else Reject(400, ErrorMapOf(ds, keyOf))
  }

  /** Every violation refuses the body with 400, and each violation's key is in the map. */
  lemma OutcomeReportsAll(ds: seq<Detail>, keyOf: Detail -> string)
    ensures Outcome(ds, keyOf).Pass? <==> ds == []
    ensures Outcome(ds, keyOf).Reject? ==> Outcome(ds, keyOf).status == 400
    ensures forall d :: d in ds ==> Outcome(ds, keyOf).Reject? && keyOf(d) in Outcome(ds, keyOf).errors
  {
    forall d | d in ds ensures keyOf(d) in ErrorMapOf(ds, keyOf) {
      var i :| 0 <= i < |ds| && ds[i] == d;
      ErrorMapKeys(ds, keyOf, keyOf(d));
    }
  }

  /** A key function that files a detail without a nested path under its top-level key. */
  ghost predicate KeysTopByHead(keyOf: Detail -> string)
  {
    forall d: Detail :: d.sub.None? ==> keyOf(d) == d.head
  }

  /** A failing top-level key refuses the body and has an entry in the error map. */
  lemma LeafKeyed(schema: seq<Field>, keyOf: Detail -> string, fm: Formats, body: Body, i: nat)
    requires i < |schema| && schema[i].Leaf? && !FieldHolds(schema[i], fm, body)
    requires KeysTopByHead(keyOf)
    ensures Outcome(Details(schema, fm, body), keyOf).Reject?
    ensures schema[i].rule.key in Outcome(Details(schema, fm, body), keyOf).errors
  {
    var ds := Details(schema, fm, body);
    var c := LeafReported(schema, fm, body, i);
    var d := Detail(schema[i].rule.key, None, c);
    var k :| 0 <= k < |ds| && ds[k] == d;
    ErrorMapKeys(ds, keyOf, keyOf(d));
  }

  /** An undeclared top-level member refuses the body and has an entry in the error map. */
  lemma UnknownKeyed(schema: seq<Field>, keyOf: Detail -> string, fm: Formats, body: Body, j: nat)
    requires j < |body| && body[j].key !in FieldKeys(schema)
    requires KeysTopByHead(keyOf)
    ensures Outcome(Details(schema, fm, body), keyOf).Reject?
    ensures body[j].key in Outcome(Details(schema, fm, body), keyOf).errors
  {
    var ds := Details(schema, fm, body);
    var d := Detail(body[j].key, None, NotAllowed);
    UnknownReported(schema, fm, body, j);
    var k :| 0 <= k < |ds| && ds[k] == d;
    ErrorMapKeys(ds, keyOf, keyOf(d));
  }

  /** Run a schema over a body and build the response the validator writes. */
  method Validate(schema: seq<Field>, keyOf: Detail -> string, fm: Formats, body: Body) returns (v: Verdict)
    ensures v == Outcome(Details(schema, fm, body), keyOf)
  {
    var ds := Details(schema, fm, body);
    if ds == [] {
      v := Pass;
    } else {
      var errors := CollectErrors(ds, keyOf);
      v := Reject(400, errors);
    }
  }
}
