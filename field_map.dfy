/**
 * The `dict` from field name to `str` or `None` that the extractor builds:
 * an insertion-ordered list of (key, value) entries whose keys are distinct.
 */
module FieldMaps {
  import opened Wrappers

  type FieldMap = seq<(string, Option<string>)>

  /** The keys in insertion order: the order `dict.items()` iterates in. */
  function Keys(m: FieldMap): (ks: seq<string>)
    ensures |ks| == |m|
    ensures forall i :: 0 <= i < |m| ==> ks[i] == m[i].0
  {
    seq(|m|, i requires 0 <= i < |m| => m[i].0)
  }

  /** The keys of two maps laid end to end. */
  lemma KeysAppend(a: FieldMap, b: FieldMap)
    ensures Keys(a + b) == Keys(a) + Keys(b)
  {
  }

  /** No key occurs twice, as in every Python `dict`. */
  predicate DistinctKeys(m: FieldMap) {
    forall i, j :: 0 <= i < j < |m| ==> m[i].0 != m[j].0
  }

  /** Distinct keys, read off the key list. */
  lemma DistinctKeysOf(m: FieldMap, ks: seq<string>)
    requires Keys(m) == ks
    requires forall i, j :: 0 <= i < j < |ks| ==> ks[i] != ks[j]
    ensures DistinctKeys(m)
  {
    assert forall i :: 0 <= i < |m| ==> m[i].0 == ks[i];
  }

  /** The position of the entry for `k`. */
  function IndexOf(m: FieldMap, k: string): (i: nat)
    requires k in Keys(m)
    ensures i < |m| && m[i].0 == k
  {
    if m[0].0 == k then 0
    else
      assert Keys(m) == [m[0].0] + Keys(m[1..]);
      1 + IndexOf(m[1..], k)
  }

  /** In a map with distinct keys, the entry for a key is the one at its index. */
  lemma IndexOfUnique(m: FieldMap, i: nat)
    requires DistinctKeys(m) && i < |m|
    ensures m[i].0 in Keys(m) && IndexOf(m, m[i].0) == i
  {
  }

  /** The value stored under `k`: `None` when `k` is not a key, `Some(v)` for
      the entry `(k, v)`, whose `v` may itself be Python's `None`. */
  function Lookup(m: FieldMap, k: string): (r: Option<Option<string>>)
    ensures r.None? <==> k !in Keys(m)
  {
    if k in Keys(m) then Some(m[IndexOf(m, k)].1) else None
  }

  /** In a map with distinct keys, the entry at index `i` is what `Lookup` finds. */
  lemma LookupAt(m: FieldMap, i: nat)
    requires DistinctKeys(m) && i < |m|
    ensures Lookup(m, m[i].0) == Some(m[i].1)
  {
    IndexOfUnique(m, i);
  }

  /** The first entry with key `k` is what `Lookup` finds, whether or not
      later entries repeat the key. */
  lemma {:induction false} LookupFirst(m: FieldMap, i: nat)
    requires i < |m|
    requires forall j :: 0 <= j < i ==> m[j].0 != m[i].0
    ensures Lookup(m, m[i].0) == Some(m[i].1)
  {
    var k := m[i].0;
    assert Keys(m)[i] == k;
    if i > 0 {
      var rest := m[1..];
      assert rest[i - 1] == m[i];
      assert forall j :: 0 <= j < i - 1 ==> rest[j] == m[j + 1];
      LookupFirst(rest, i - 1);
      assert IndexOf(m, k) == 1 + IndexOf(rest, k);
    }
  }

  /** `m.get(k)`: the value, or `None` when `k` is absent. */
  function Get(m: FieldMap, k: string): (r: Option<string>)
    ensures r.Some? ==> k in Keys(m)
    ensures k !in Keys(m) ==> r.None?
  {
    match Lookup(m, k)
    case Some(v) => v
    case None => None
  }

  /** Inserting a key that no entry has appends it. */
  lemma PutFresh(m: FieldMap, k: string, v: Option<string>)
    requires forall i :: 0 <= i < |m| ==> m[i].0 != k
    ensures Put(m, k, v) == m + [(k, v)]
  {
  }

  /** `m[k] = v`: the entry for `k` is overwritten in place when `k` is a key,
      and appended at the end otherwise. */
  function Put(m: FieldMap, k: string, v: Option<string>): (r: FieldMap)
    ensures DistinctKeys(m) ==> DistinctKeys(r)
    ensures k !in Keys(m) ==> r == m + [(k, v)]
    ensures k in Keys(m) ==> |r| == |m| && r[IndexOf(m, k)] == (k, v) &&
                             forall i :: 0 <= i < |m| && i != IndexOf(m, k) ==> r[i] == m[i]
  {
    if k in Keys(m) then m[IndexOf(m, k) := (k, v)] else m + [(k, v)]
  }

  /** Stores the entries `es` one after the other, as successive `m[k] = v`. */
  function StoreAll(m: FieldMap, es: FieldMap): FieldMap
    decreases |es|
  {
    if es == [] then m else StoreAll(Put(m, es[0].0, es[0].1), es[1..])
  }

  /** Storing entries whose keys are all new and distinct appends them in order. */
  lemma {:induction false} StoreAllFresh(m: FieldMap, es: FieldMap)
    requires DistinctKeys(m + es)
    ensures StoreAll(m, es) == m + es
    decreases |es|
  {
    if es != [] {
      assert forall i :: 0 <= i < |m| ==> m[i] == (m + es)[i];
      assert es[0] == (m + es)[|m|];
      PutFresh(m, es[0].0, es[0].1);
      assert (m + [es[0]]) + es[1..] == m + es;
      StoreAllFresh(m + [es[0]], es[1..]);
    }
  }
}
