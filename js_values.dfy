/** JavaScript values as the rule decoder sees them: what `JSON.parse` returns,
    plus `undefined`, the result of reading a property an object does not have.
    Only the few JavaScript operations the decoder and the validator use are
    modelled: `Object.keys`, reading a property, and truthiness. */
module JsValues {
  import opened Wrappers

  /** An object's members are its own properties in `Object.keys` order. */
  datatype Json =
    | Undefined
    | Null
    | Bool(b: bool)
    | Num(n: real)
    | Str(s: string)
    | Arr(items: seq<Json>)
    | Obj(members: seq<(string, Json)>)

  /** The decimal spelling of an array or string index, as `Object.keys` gives it. */
  function NatToString(n: nat): (r: string)
    ensures |r| > 0 && '0' <= r[0] <= '9'
    decreases n
  {
    var d := ['0' + (n % 10) as char];
    if n < 10 then d else NatToString(n / 10) + d
  }

  function IndexKeys(n: nat): (r: seq<string>)
    ensures |r| == n && forall i :: 0 <= i < n ==> r[i] == NatToString(i)
  {
    seq(n, i requires 0 <= i < n => NatToString(i))
  }

  /** The keys of the members of an object, in order. */
  function MemberKeys(ms: seq<(string, Json)>): (r: seq<string>)
    ensures |r| == |ms| && forall i :: 0 <= i < |ms| ==> r[i] == ms[i].0
  {
    seq(|ms|, i requires 0 <= i < |ms| => ms[i].0)
  }

  /** `Object.keys(j)`; `None` when it throws a TypeError (null or undefined). */
  function Keys(j: Json): (r: Option<seq<string>>)
    ensures r.None? <==> j.Undefined? || j.Null?
  {
    match j
    case Undefined => None
    case Null => None
    case Bool(_) => Some([])
    case Num(_) => Some([])
    case Str(s) => Some(IndexKeys(|s|))
    case Arr(items) => Some(IndexKeys(|items|))
    case Obj(ms) => Some(MemberKeys(ms))
  }

  /** The position below n whose index key is k, if there is one. */
  function IndexOf(k: string, n: nat, from: nat): (r: Option<nat>)
    ensures r.Some? ==> from <= r.value < n && NatToString(r.value) == k
    ensures r.None? ==> forall i :: from <= i < n ==> NatToString(i) != k
    decreases n - from
  {
    if from >= n then None
    else if NatToString(from) == k then Some(from)
    else IndexOf(k, n, from + 1)
  }

  /** The value of the first member named k, or undefined when there is none. */
  function Lookup(ms: seq<(string, Json)>, k: string): (r: Json)
    ensures forall i :: 0 <= i < |ms| && ms[i].0 == k && (forall j :: 0 <= j < i ==> ms[j].0 != k) ==>
              r == ms[i].1
    ensures (forall i :: 0 <= i < |ms| ==> ms[i].0 != k) ==> r == Undefined
  {
    if |ms| == 0 then Undefined
    else if ms[0].0 == k then ms[0].1
    else
      var r := Lookup(ms[1..], k);
      assert forall i :: 1 <= i < |ms| ==> ms[i] == ms[1..][i - 1];
      r
  }

  /** Reading the own property k of j (`j[k]`); `None` when the read throws a
      TypeError (j is null or undefined). Inherited properties (a string's or
      an array's `length`, methods) are not modelled: the decoder reads only
      `field`, `value`, `$and`, `$or` and keys that `Object.keys` returned. */
  function Get(j: Json, k: string): (r: Option<Json>)
    ensures r.None? <==> j.Undefined? || j.Null?
  {
    match j
    case Undefined => None
    case Null => None
    case Bool(_) => Some(Undefined)
    case Num(_) => Some(Undefined)
    case Str(s) =>
      Some(match IndexOf(k, |s|, 0)
           case Some(i) => Str([s[i]])
           case None => Undefined)
    case Arr(items) =>
      Some(match IndexOf(k, |items|, 0)
           case Some(i) => items[i]
           case None => Undefined)
    case Obj(ms) => Some(Lookup(ms, k))
  }

  /** JavaScript truthiness (`!!j`). `JSON.parse` never yields NaN. */
  predicate Truthy(j: Json): (r: bool)
    ensures r <==> j !in [Undefined, Null, Bool(false), Num(0.0), Str("")]
  {
    match j
    case Undefined => false
    case Null => false
    case Bool(b) => b
    case Num(n) => n != 0.0
    case Str(s) => s != ""
    case Arr(_) => true
    case Obj(_) => true
  }

  /** `items.map(f)` where the callback f, given an item and its index, may
      throw (`None`): the results in order, or `None` as soon as one call
      throws. */
  function MapOrThrow<T>(items: seq<Json>, f: (Json, nat) -> Option<T>): (r: Option<seq<T>>)
    ensures r.Some? <==> forall i :: 0 <= i < |items| ==> f(items[i], i).Some?
    ensures r.Some? ==> |r.value| == |items|
    ensures r.Some? ==> forall i :: 0 <= i < |items| ==> f(items[i], i) == Some(r.value[i])
    decreases |items|
  {
    if |items| == 0 then Some([])
    else
      var n := |items| - 1;
      var prefix := MapOrThrow(items[..n], f);
      assert forall i :: 0 <= i < n ==> items[..n][i] == items[i];
      match f(items[n], n)
      case None => None
      case Some(last) =>
        if prefix.None? then None
        else
          var r := prefix.value + [last];
          assert forall i :: 0 <= i < n ==> r[i] == prefix.value[i];
          Some(r)
  }

  /** An object with a single member `{ [k]: v }` has the one key k, whose
      value is v. */
  lemma SingleMember(k: string, v: Json)
    ensures Keys(Obj([(k, v)])) == Some([k])
    ensures Get(Obj([(k, v)]), k) == Some(v)
  {
    assert MemberKeys([(k, v)]) == [k];
  }

  /** Reading either member of a two-member object `{ [k1]: v1, [k2]: v2 }`
      with distinct keys gives its value. */
  lemma TwoMembers(k1: string, v1: Json, k2: string, v2: Json)
    requires k1 != k2
    ensures Get(Obj([(k1, v1), (k2, v2)]), k1) == Some(v1)
    ensures Get(Obj([(k1, v1), (k2, v2)]), k2) == Some(v2)
  {
    var ms := [(k1, v1), (k2, v2)];
    assert Lookup(ms, k1) == v1;
    assert ms[1..] == [(k2, v2)];
    assert Lookup(ms, k2) == Lookup([(k2, v2)], k2) == v2;
  }
}
