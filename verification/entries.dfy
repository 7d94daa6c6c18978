/**
 * A plain JavaScript object whose keys are integers, such as the page's
 * answer object indexed by question id. Keys that are array indices (0 up
 * to 2^32 - 2) are enumerated in ascending order whatever the order of
 * assignment; the model takes every id to be such a key, so the object is
 * represented by its entry list kept in strictly ascending key order.
 * `AsMap` gives the key/value mapping it stands for.
 */
module Entries {
  import opened Wrappers

  datatype Entry = Entry(key: int, value: string)

  /** Keys strictly ascend, so no key appears twice. */
  predicate Ordered(e: seq<Entry>) {
    forall i, j :: 0 <= i < j < |e| ==> e[i].key < e[j].key
  }

  /** The keys present in the object. */
  function Keys(e: seq<Entry>): set<int> {
    if e == [] then {} else {e[0].key} + Keys(e[1..])
  }

  /** Property read `obj[k]`: the value stored under `k`, or nothing. */
  function Get(e: seq<Entry>, k: int): (r: Option<string>)
    ensures r.Some? <==> k in Keys(e)
  {
    if e == [] then None
    else if e[0].key == k then Some(e[0].value)
    else Get(e[1..], k)
  }

  /** The key/value mapping the object stands for. */
  function AsMap(e: seq<Entry>): (m: map<int, string>)
    ensures m.Keys == Keys(e)
  {
    map k | k in Keys(e) :: Get(e, k).value
  }

  /** Every key of an ordered entry list lies at or above its first key. */
  lemma {:induction false} KeysAbove(e: seq<Entry>, k: int)
    requires Ordered(e)
    requires |e| > 0
    requires k in Keys(e[1..])
    ensures e[0].key < k
    decreases |e|
  {
    var tail := e[1..];
    if tail[0].key != k {
      assert Ordered(tail);
      KeysAbove(tail, k);
    }
  }

  /**
   * Property write `obj[k] = v`: replaces the value under `k`, or inserts
   * the entry at its place in key order.
   */
  function Put(e: seq<Entry>, k: int, v: string): (r: seq<Entry>)
    requires Ordered(e)
    ensures Ordered(r)
    ensures Keys(r) == Keys(e) + {k}
    ensures Get(r, k) == Some(v)
    ensures forall k' :: k' != k ==> Get(r, k') == Get(e, k')
    decreases |e|
  {
    if e == [] then [Entry(k, v)]
    else if k < e[0].key then
      var r := [Entry(k, v)] + e;
      assert r[1..] == e;
      forall i, j | 0 <= i < j < |r|
        ensures r[i].key < r[j].key
      {
        if i == 0 && j > 1 {
          assert r[j] == e[j - 1];
        }
      }
      r
    else if k == e[0].key then
      var r := [Entry(k, v)] + e[1..];
      assert r[1..] == e[1..];
      r
    else
      var rest := Put(e[1..], k, v);
      var r := [e[0]] + rest;
      assert r[1..] == rest;
      forall i, j | 0 <= i < j < |r|
        ensures r[i].key < r[j].key
      {
        if i == 0 {
          assert r[j] == rest[j - 1];
          RestKeys(rest, j - 1);
          if rest[j - 1].key != k {
            KeysAbove(e, rest[j - 1].key);
          }
        }
      }
      r
  }

  /** An element's key is among the keys. */
  lemma {:induction false} RestKeys(e: seq<Entry>, i: int)
    requires 0 <= i < |e|
    ensures e[i].key in Keys(e)
    decreases i
  {
    if i > 0 {
      assert e[1..][i - 1] == e[i];
      RestKeys(e[1..], i - 1);
    }
  }

  /** In an ordered entry list, reading an entry's key gives that entry's value. */
  lemma {:induction false} GetAt(e: seq<Entry>, i: int)
    requires Ordered(e)
    requires 0 <= i < |e|
    ensures Get(e, e[i].key) == Some(e[i].value)
    decreases i
  {
    if i > 0 {
      assert e[1..][i - 1] == e[i];
      GetAt(e[1..], i - 1);
    }
  }

  /** The position at which a present key is stored. */
  lemma {:induction false} KeyIndex(e: seq<Entry>, k: int) returns (i: int)
    requires k in Keys(e)
    ensures 0 <= i < |e| && e[i].key == k
    decreases |e|
  {
    if e[0].key == k {
      i := 0;
    } else {
      var j := KeyIndex(e[1..], k);
      i := j + 1;
    }
  }

  /** Writing a property updates exactly that key of the mapping. */
  lemma PutIsUpdate(e: seq<Entry>, k: int, v: string)
    requires Ordered(e)
    ensures AsMap(Put(e, k, v)) == AsMap(e)[k := v]
  {
    var r := Put(e, k, v);
    forall k' | k' in AsMap(r)
      ensures AsMap(r)[k'] == AsMap(e)[k := v][k']
    {
      if k' != k {
        assert Get(r, k') == Get(e, k');
      }
    }
  }
}
