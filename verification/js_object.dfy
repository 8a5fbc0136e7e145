/** A JavaScript plain object as its own entries in insertion order. For
 *  keys that are not integer-like this is the order `Object.keys` and
 *  `Object.entries` report; JavaScript lists integer-like keys ("0", "42")
 *  first, in ascending numeric order, which this model does not do. */
module JsObject {
  import opened Wrappers

  type Obj<V> = seq<(string, V)>

  function Keys<V>(o: Obj<V>): (ks: seq<string>)
    ensures |ks| == |o|
    ensures forall i :: 0 <= i < |o| ==> ks[i] == o[i].0
  {
    seq(|o|, i requires 0 <= i < |o| => o[i].0)
  }

  predicate HasKey<V>(o: Obj<V>, k: string)
  {
    k in Keys(o)
  }

  /** A real object never lists a key twice. */
  predicate WellFormed<V>(o: Obj<V>)
  {
    forall i, j :: 0 <= i < j < |o| ==> o[i].0 != o[j].0
  }

  /** `o[k]`, `undefined` being `None`. */
  function Get<V>(o: Obj<V>, k: string): (r: Option<V>)
    ensures r.None? <==> !HasKey(o, k)
    ensures r.Some? ==> (k, r.value) in o
  {
    if |o| == 0 then None
    else if o[0].0 == k then Some(o[0].1)
    else
      KeysPrepend(o[0], o[1..]);
      assert o == [o[0]] + o[1..];
      Get(o[1..], k)
  }

  /** `{...o, [k]: v}`: an existing key keeps its place, a new one goes last. */
  function Put<V>(o: Obj<V>, k: string, v: V): (r: Obj<V>)
    ensures HasKey(o, k) ==> Keys(r) == Keys(o)
    ensures !HasKey(o, k) ==> Keys(r) == Keys(o) + [k]
  {
    if |o| == 0 then [(k, v)]
    else
      KeysPrepend(o[0], o[1..]);
      assert o == [o[0]] + o[1..];
      if o[0].0 == k then
        KeysPrepend((k, v), o[1..]);
        [(k, v)] + o[1..]
      else
        var rest := Put(o[1..], k, v);
        KeysPrepend(o[0], rest);
        [o[0]] + rest
  }

  lemma KeysPrepend<V>(e: (string, V), o: Obj<V>)
    ensures Keys([e] + o) == [e.0] + Keys(o)
  {
  }

  /** After `Put`, `k` reads `v` and every other key reads as before. */
  lemma {:induction false} GetPut<V>(o: Obj<V>, k: string, v: V, j: string)
    ensures Get(Put(o, k, v), j) == if j == k then Some(v) else Get(o, j)
  {
    if |o| > 0 && o[0].0 != k {
      GetPut(o[1..], k, v, j);
    }
  }

  lemma GetPutOther<V>(o: Obj<V>, k: string, v: V, j: string)
    requires j != k
    ensures Get(Put(o, k, v), j) == Get(o, j)
  {
    GetPut(o, k, v, j);
  }

  lemma GetPutSame<V>(o: Obj<V>, k: string, v: V)
    ensures Get(Put(o, k, v), k) == Some(v)
  {
    GetPut(o, k, v, k);
  }

  /** In a well-formed object the value at a listed key is the one stored
   *  with it. */
  lemma {:induction false} GetAt<V>(o: Obj<V>, i: nat)
    requires WellFormed(o) && i < |o|
    ensures Get(o, o[i].0) == Some(o[i].1)
  {
    if i > 0 {
      assert o[0].0 != o[i].0;
      assert o[1..][i - 1] == o[i];
      GetAt(o[1..], i - 1);
    }
  }

  /** Applies `f` to every value, keeping the keys and their order
   *  (`Object.fromEntries(Object.entries(o).map(...))`). */
  function MapValues<V, W>(o: Obj<V>, f: V -> W): (r: Obj<W>)
    ensures Keys(r) == Keys(o)
    ensures forall i :: 0 <= i < |o| ==> r[i].1 == f(o[i].1)
  {
    seq(|o|, i requires 0 <= i < |o| => (o[i].0, f(o[i].1)))
  }

  /** Reading a key of the mapped object reads the key of the original and
   *  applies `f`; a key the original lacks stays absent. */
  lemma {:induction false} GetMapValues<V, W>(o: Obj<V>, f: V -> W, k: string)
    ensures Get(MapValues(o, f), k) == if HasKey(o, k) then Some(f(Get(o, k).value)) else None
  {
    if |o| > 0 {
      var r := MapValues(o, f);
      assert Keys(o) == [o[0].0] + Keys(o[1..]);
      assert r[1..] == MapValues(o[1..], f);
      if o[0].0 != k {
        GetMapValues(o[1..], f, k);
      }
    }
  }
}
