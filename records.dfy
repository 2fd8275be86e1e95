/** Values the editor state is built from: optional values and JavaScript
    objects used as dictionaries. */
module Records {

  /** A value that may be absent (`undefined` in the editor's code). */
  datatype Option<+T> = None | Some(value: T)
  {
    /** The value, or `default` when absent: a default parameter value. */
    function GetOr(default: T): T
    {
      match this
      case Some(v) => v
      case None => default
    }
  }

  /** A JavaScript object used as a dictionary from string keys to values,
      written as its own entries in the order `Object.values` and
      `Object.keys` enumerate them. An object's keys are distinct; a
      sequence that repeats a key stands for no object, and on it `Values`
      would list an entry that `Get` never returns. */
  type Record<V> = seq<(string, V)>

  /** `Object.values(r)`: the values of the entries, in enumeration order. */
  function Values<V>(r: Record<V>): (vs: seq<V>)
    ensures |vs| == |r|
    ensures forall i :: 0 <= i < |r| ==> vs[i] == r[i].1
  {
    seq(|r|, i requires 0 <= i < |r| => r[i].1)
  }

  /** True when the object has an entry under `k`. */
  predicate HasKey<V>(r: Record<V>, k: string)
  {
    exists i :: 0 <= i < |r| && r[i].0 == k
  }

  /** `r[k]`: the value of the first entry under `k`, or None (`undefined`)
      when no entry has that key. */
  function Get<V>(r: Record<V>, k: string): (o: Option<V>)
    ensures o.Some? <==> HasKey(r, k)
  {
    if r == [] then None
    else if r[0].0 == k then Some(r[0].1)
    else
      var rest := Get(r[1..], k);
      assert HasKey(r, k) ==> HasKey(r[1..], k) by {
        if HasKey(r, k) {
          var i :| 0 <= i < |r| && r[i].0 == k;
          assert r[1..][i - 1].0 == k;
        }
      }
      rest
  }

  /** `m[k]` on a lookup table: the value under `k`, or None (`undefined`). */
  function Lookup<K, V>(m: map<K, V>, k: K): (o: Option<V>)
    ensures o.Some? <==> k in m
    ensures o.Some? ==> o.value == m[k]
  {
    if k in m then Some(m[k]) else None
  }
}
