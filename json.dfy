/** The JSON values the PayPal routes read: the webhook event, the capture
    request body and the order metadata kept in `custom_id`. Member access,
    optional chaining and truthiness follow JavaScript on the parsed value. */
module Json {
  import opened Wrappers

  /** A parsed JSON value. Numbers are integers here. */
  datatype Value =
    | Null
    | Bool(b: bool)
    | Number(n: int)
    | Str(s: string)
    | Array(items: seq<Value>)
    | Object(members: seq<(string, Value)>)

  /** The member named `key`; JSON.parse keeps the last of duplicate keys. */
  function Lookup(ms: seq<(string, Value)>, key: string): (r: Option<Value>)
    ensures r.None? <==> forall i :: 0 <= i < |ms| ==> ms[i].0 != key
    ensures r.Some? ==> exists i :: (0 <= i < |ms| && ms[i] == (key, r.value)
                                     && forall j :: i < j < |ms| ==> ms[j].0 != key)
  {
    if ms == [] then None
    else if ms[|ms| - 1].0 == key then Some(ms[|ms| - 1].1)
    else
      var r := Lookup(ms[..|ms| - 1], key);
      LookupStep(ms, key, r);
      r
  }

  /** A lookup in all but the last member, when the last one has another key,
      is the lookup in all of them. */
  lemma LookupStep(ms: seq<(string, Value)>, key: string, r: Option<Value>)
    requires ms != [] && ms[|ms| - 1].0 != key
    requires var init := ms[..|ms| - 1];
      && (r.None? <==> forall i :: 0 <= i < |init| ==> init[i].0 != key)
      && (r.Some? ==> exists i :: (0 <= i < |init| && init[i] == (key, r.value)
                                   && forall j :: i < j < |init| ==> init[j].0 != key))
    ensures r.None? <==> forall i :: 0 <= i < |ms| ==> ms[i].0 != key
    ensures r.Some? ==> exists i :: (0 <= i < |ms| && ms[i] == (key, r.value)
                                     && forall j :: i < j < |ms| ==> ms[j].0 != key)
  {
    var init := ms[..|ms| - 1];
    assert forall i :: 0 <= i < |init| ==> init[i] == ms[i];
    if r.Some? {
      var i :| 0 <= i < |init| && init[i] == (key, r.value) && forall j :: i < j < |init| ==> init[j].0 != key;
      assert ms[i] == (key, r.value);
    }
  }

  /** `v.key`: undefined (None) unless v is an object with that member. */
  function Get(v: Value, key: string): Option<Value>
  {
    if v.Object? then Lookup(v.members, key) else None
  }

  /** `v?.key`. */
  function Member(v: Option<Value>, key: string): Option<Value>
  {
    if v.Some? then Get(v.value, key) else None
  }

  /** JavaScript truthiness of a value that may be undefined. */
  predicate Truthy(v: Option<Value>)
  {
    match v
    case None => false
    case Some(Null) => false
    case Some(Bool(b)) => b
    case Some(Number(n)) => n != 0
    case Some(Str(s)) => s != ""
    case Some(_) => true
  }

  /** Members appended under other keys do not change a lookup. */
  lemma {:induction false} LookupAppendOther(ms: seq<(string, Value)>, extra: seq<(string, Value)>, key: string)
    requires forall i :: 0 <= i < |extra| ==> extra[i].0 != key
    ensures Lookup(ms + extra, key) == Lookup(ms, key)
  {
    if extra != [] {
      var init := extra[..|extra| - 1];
      assert (ms + extra)[..|ms + extra| - 1] == ms + init;
      LookupAppendOther(ms, init, key);
    } else {
      assert ms + extra == ms;
    }
  }
}
