/** Parsed JSON request bodies, as the body parser hands them to the handlers. */
module Json {
  import opened Common

  /** A JSON value; an object keeps its members in the order they were sent. */
  datatype Value = Str(s: string) | Num(n: int) | Bool(b: bool) | Null | Obj(entries: seq<Entry>)

  datatype Entry = Entry(key: string, value: Value)

  /** A request body is a JSON object. */
  type Body = seq<Entry>

  /**
   * `body[key]`: the value of the LAST member named `key`, as `JSON.parse` keeps the last of
   * duplicate members, or None when there is none (JavaScript's `undefined`).
   */
  function Lookup(entries: seq<Entry>, key: string): Option<Value>
  {
    if entries == [] then None
    else if entries[|entries| - 1].key == key then Some(entries[|entries| - 1].value)
    else Lookup(entries[..|entries| - 1], key)
  }

  /** A member is found exactly when the object has one with that key, and then it is the last such. */
  lemma {:induction false} LookupFinds(entries: seq<Entry>, key: string)
    ensures Lookup(entries, key).Some? <==> exists i :: 0 <= i < |entries| && entries[i].key == key
    ensures Lookup(entries, key).Some? ==> exists i ::
      && 0 <= i < |entries| && entries[i].key == key && entries[i].value == Lookup(entries, key).value
      && forall k :: i < k < |entries| ==> entries[k].key != key
  {
    if entries != [] && entries[|entries| - 1].key != key {
      var front := entries[..|entries| - 1];
      LookupFinds(front, key);
      assert forall i :: 0 <= i < |front| ==> entries[i] == front[i];
      if Lookup(entries, key).Some? {
        var j :| && 0 <= j < |front| && front[j].key == key
                 && front[j].value == Lookup(entries, key).value
                 && forall k :: j < k < |front| ==> front[k].key != key;
        assert entries[j] == front[j];
      }
    }
  }

  /** When the last member has the key, `body[key]` is its value; otherwise the earlier members decide. */
  lemma LookupLast(front: seq<Entry>, e: Entry, key: string)
    ensures Lookup(front + [e], key) == if e.key == key then Some(e.value) else Lookup(front, key)
  {
    assert (front + [e])[..|front + [e]| - 1] == front;
  }

  /** JavaScript truthiness of a member that may be absent. */
  predicate Truthy(v: Option<Value>)
  {
    match v
    case None => false
    case Some(Null) => false
    case Some(Bool(b)) => b
    case Some(Num(n)) => n != 0
    case Some(Str(s)) => s != ""
    case Some(Obj(_)) => true
  }

  /** The string member `key`, if it is present and a string. */
  function StrMember(entries: seq<Entry>, key: string): (r: Option<string>)
    ensures r.Some? <==> Lookup(entries, key).Some? && Lookup(entries, key).value.Str?
    ensures r.Some? ==> Lookup(entries, key) == Some(Str(r.value))
  {
    match Lookup(entries, key)
    case Some(Str(s)) => Some(s)
    case _ => None
  }

  /** `body[key]` where a validator has already made sure it is a string; '' otherwise. */
  function Text(entries: seq<Entry>, key: string): string
  {
    match StrMember(entries, key) case Some(s) => s case None => ""
  }
}
