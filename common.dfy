/** Building blocks shared by every component of the pipeline model: the
    failure-compatible wrappers, the decoded-JSON value that the stream hands
    to the normalizer and that the file sink writes back out, and sums over
    finite maps used by the bookkeeping invariants. */
module Common {

  datatype Option<+T> = None | Some(value: T)

  datatype Result<+T, +E> = Ok(value: T) | Err(error: E)

  /** A decoded JSON value. An object keeps its members in document order;
      looking a key up returns its last occurrence, as a dict built from the
      text does when a key is repeated. */
  datatype Json =
    | JNull
    | JBool(b: bool)
    | JInt(i: int)
    | JFloat(r: real)
    | JStr(s: string)
    | JArr(items: seq<Json>)
    | JObj(members: seq<(string, Json)>)

  /** The value of `key` in an object's members (`dict.get`). */
  function Get(members: seq<(string, Json)>, key: string): Option<Json>
  {
    if |members| == 0 then None
    else if members[|members| - 1].0 == key then Some(members[|members| - 1].1)
    else Get(members[..|members| - 1], key)
  }

  /** `dict.get(key, default)` */
  function GetOr(members: seq<(string, Json)>, key: string, default: Json): Json
  {
    match Get(members, key)
    case Some(v) => v
    case None => default
  }

  /** Python truthiness of a decoded value (`bool(v)`); a missing key reads as None. */
  predicate Truthy(v: Json)
  {
    match v
    case JNull => false
    case JBool(b) => b
    case JInt(i) => i != 0
    case JFloat(r) => r != 0.0
    case JStr(s) => |s| > 0
    case JArr(items) => |items| > 0
    case JObj(members) => |members| > 0
  }

  predicate TruthyOpt(v: Option<Json>)
  {
    v.Some? && Truthy(v.value)
  }

  /** Sum of the values of a finite map. */
  ghost function Sum<K>(m: map<K, nat>): nat
    decreases |m|
  {
    if m == map[] then 0
    else
      var k :| k in m;
      assert |m - {k}| < |m| by { assert (m - {k}).Keys == m.Keys - {k}; }
      m[k] + Sum(m - {k})
  }

  /** The value at `k`, 0 when `k` is absent (`defaultdict(int)[k]`). */
  function At<K>(m: map<K, nat>, k: K): nat
  {
    if k in m then m[k] else 0
  }

  lemma {:induction false} SumRemove<K>(m: map<K, nat>, k: K)
    requires k in m
    ensures Sum(m) == m[k] + Sum(m - {k})
    decreases |m|
  {
    var j :| j in m && Sum(m) == m[j] + Sum(m - {j});
    if j != k {
      assert (m - {j}).Keys == m.Keys - {j};
      assert (m - {k}).Keys == m.Keys - {k};
      SumRemove(m - {j}, k);
      SumRemove(m - {k}, j);
      assert m - {j} - {k} == m - {k} - {j};
    }
  }

  /** Raising one entry by `d` raises the sum by `d`. */
  lemma SumAdd<K>(m: map<K, nat>, k: K, d: nat)
    ensures Sum(m[k := At(m, k) + d]) == Sum(m) + d
  {
    var m' := m[k := At(m, k) + d];
    SumRemove(m', k);
    assert m' - {k} == m - {k};
    if k in m {
      SumRemove(m, k);
    } else {
      assert m - {k} == m;
    }
  }
}
