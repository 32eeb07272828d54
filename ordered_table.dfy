/** A Python `dict` with string keys where iteration order matters: a
    sequence of (key, value) entries in insertion order.  Assigning to an
    existing key replaces its value in place; a new key goes to the end. */
module OrderedTable {
  import opened Wrappers

  type Table<V> = seq<(string, V)>

  function Keys<V>(t: Table<V>): (ks: seq<string>)
    ensures |ks| == |t|
    ensures forall i :: 0 <= i < |t| ==> ks[i] == t[i].0
  {
    seq(|t|, i requires 0 <= i < |t| => t[i].0)
  }

  /** No key occurs twice, as in any dict. */
  predicate Distinct<V>(t: Table<V>) {
    forall i, j :: 0 <= i < j < |t| ==> t[i].0 != t[j].0
  }

  /** The position of key `k`, if present. */
  function IndexOf<V>(t: Table<V>, k: string): (r: Option<nat>)
    ensures r.Some? ==> r.value < |t| && t[r.value].0 == k
    ensures r.Some? ==> forall j :: 0 <= j < r.value ==> t[j].0 != k
    ensures r.None? <==> k !in Keys(t)
  {
    if t == [] then None
    else if t[0].0 == k then Some(0)
    else match IndexOf(t[1..], k)
      case None => None
      case Some(i) => Some(i + 1)
  }

  /** `t[k]`, or None where Python raises KeyError. */
  function Get<V>(t: Table<V>, k: string): Option<V> {
    match IndexOf(t, k)
    case None => None
    case Some(i) => Some(t[i].1)
  }

  /** `t[k] = v`. */
  function Put<V>(t: Table<V>, k: string, v: V): Table<V> {
    match IndexOf(t, k)
    case Some(i) => t[i := (k, v)]
    case None => t + [(k, v)]
  }

  lemma IndexOfDistinct<V>(t: Table<V>, i: nat)
    requires Distinct(t) && i < |t|
    ensures IndexOf(t, t[i].0) == Some(i)
  {
    assert Keys(t)[i] == t[i].0;
  }

  /** Assignment keeps the keys unique. */
  lemma PutDistinct<V>(t: Table<V>, k: string, v: V)
    requires Distinct(t)
    ensures Distinct(Put(t, k, v))
  {
  }

  /** Assignment never moves a key: an existing key keeps its position, a
      new one is appended. */
  lemma PutKeys<V>(t: Table<V>, k: string, v: V)
    ensures Keys(Put(t, k, v)) == if k in Keys(t) then Keys(t) else Keys(t) + [k]
  {
    var r := Put(t, k, v);
    if k in Keys(t) {
      assert forall i :: 0 <= i < |t| ==> Keys(r)[i] == Keys(t)[i];
    } else {
      assert forall i :: 0 <= i < |t| ==> Keys(r)[i] == Keys(t)[i];
      assert Keys(r)[|t|] == k;
    }
  }

  /** After `t[k] = v`, `t[k]` is `v` and every other key reads as before. */
  lemma PutGet<V>(t: Table<V>, k: string, v: V, k': string)
    requires Distinct(t)
    ensures Get(Put(t, k, v), k') == if k' == k then Some(v) else Get(t, k')
  {
    var r := Put(t, k, v);
    PutDistinct(t, k, v);
    match IndexOf(r, k')
    case None =>
      PutKeys(t, k, v);
    case Some(j) =>
      IndexOfDistinct(r, j);
      if k' != k {
        PutKeys(t, k, v);
        assert t[j].0 == k';
        IndexOfDistinct(t, j);
      }
  }
}
