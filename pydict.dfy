/**
 * Python 3 dictionaries of strings, which remember insertion order.
 * A dictionary is a sequence of entries whose keys are pairwise distinct;
 * `ToMap` forgets the order and gives the mapping the dictionary stands for.
 */
module PyDict {
  import opened Wrappers
  import opened Seqs

  type Entry = (string, string)

  predicate DistinctKeys<T>(d: seq<(string, T)>) {
    forall i, j | 0 <= i < j < |d| :: d[i].0 != d[j].0
  }

  type Dict = d: seq<Entry> | DistinctKeys(d) witness []

  /** The keys in iteration order (`list(d.keys())`). */
  function Keys<T>(d: seq<(string, T)>): (ks: seq<string>)
    ensures |ks| == |d|
    ensures forall i | 0 <= i < |d| :: ks[i] == d[i].0
  {
    if d == [] then [] else [d[0].0] + Keys(d[1..])
  }

  /** The mapping a sequence of entries stands for; the first entry for a key decides. */
  function ToMap(d: seq<Entry>): (m: map<string, string>)
  {
    if d == [] then map[] else ToMap(d[1..])[d[0].0 := d[0].1]
  }

  /** Only the empty dictionary stands for the empty mapping. */
  lemma ToMapEmpty(d: seq<Entry>)
    ensures ToMap(d) == map[] <==> d == []
  {
    if d != [] {
      assert d[0].0 in ToMap(d);
    }
  }

  lemma {:induction false} ToMapAt(d: Dict, i: nat)
    requires i < |d|
    ensures d[i].0 in ToMap(d) && ToMap(d)[d[i].0] == d[i].1
  {
    if i > 0 {
      ToMapAt(d[1..], i - 1);
    }
  }

  /** `d.get(k, default)` */
  function Get(d: Dict, k: string, default: string): (v: string)
    ensures k in ToMap(d) ==> v == ToMap(d)[k]
    ensures k !in ToMap(d) ==> v == default
  {
    if d == [] then default
    else if d[0].0 == k then d[0].1
    else Get(d[1..], k, default)
  }

  /** The position of key `k` in `d`, or `|d|` when `k` is absent. */
  function IndexOf(d: seq<Entry>, k: string): (i: nat)
    ensures i <= |d|
    ensures i < |d| ==> d[i].0 == k
    ensures forall j | 0 <= j < i :: d[j].0 != k
  {
    if d == [] then 0
    else if d[0].0 == k then 0
    else 1 + IndexOf(d[1..], k)
  }

  /** `d[k] = v`: an existing key keeps its position, a new key goes last. */
  function Put(d: Dict, k: string, v: string): (r: Dict)
    ensures ToMap(r) == ToMap(d)[k := v]
    ensures k in ToMap(d) ==> Keys(r) == Keys(d)
    ensures k !in ToMap(d) ==> Keys(r) == Keys(d) + [k]
  {
    var i := IndexOf(d, k);
    InToMapIff(d, k);
    if i < |d| then
      var r: Dict := d[i := (k, v)];
      PutAtMap(d, i, v);
      r
    else
      var r: Dict := d + [(k, v)];
      AppendMap(d, k, v);
      r
  }

  lemma {:induction false} InToMapIff(d: Dict, k: string)
    ensures k in ToMap(d) <==> IndexOf(d, k) < |d|
  {
    if d != [] && d[0].0 != k {
      InToMapIff(d[1..], k);
    }
  }

  lemma {:induction false} PutAtMap(d: Dict, i: nat, v: string)
    requires i < |d|
    ensures DistinctKeys(d[i := (d[i].0, v)])
    ensures ToMap(d[i := (d[i].0, v)]) == ToMap(d)[d[i].0 := v]
  {
    var r := d[i := (d[i].0, v)];
    if i == 0 {
      assert r[1..] == d[1..];
    } else {
      assert r[1..] == d[1..][i - 1 := (d[i].0, v)];
      PutAtMap(d[1..], i - 1, v);
    }
  }

  lemma {:induction false} AppendMap(d: Dict, k: string, v: string)
    requires k !in ToMap(d)
    ensures DistinctKeys(d + [(k, v)])
    ensures ToMap(d + [(k, v)]) == ToMap(d)[k := v]
  {
    if d != [] {
      assert (d + [(k, v)])[1..] == d[1..] + [(k, v)];
      AppendMap(d[1..], k, v);
    }
  }

  lemma {:induction false} InToMapKeys(d: seq<Entry>, k: string)
    ensures k in ToMap(d) <==> k in Keys(d)
  {
    if d != [] {
      InToMapKeys(d[1..], k);
      assert Keys(d) == [d[0].0] + Keys(d[1..]);
    }
  }

  /** `dict.update(e)`, also `dict(e)` when started from the empty dictionary:
      entries are stored one after the other, so a later entry for a key wins. */
  function Update(d: Dict, e: seq<Entry>): (r: Dict)
    decreases |e|
  {
    if e == [] then d else Update(Put(d, e[0].0, e[0].1), e[1..])
  }

  /** `dict(pairs)` */
  function FromPairs(pairs: seq<Entry>): (r: Dict)
  {
    Update([], pairs)
  }

  /** Updating with a dictionary overrides exactly the keys of that dictionary. */
  lemma {:induction false} UpdateToMap(d: Dict, e: Dict)
    ensures ToMap(Update(d, e)) == ToMap(d) + ToMap(e)
    decreases |e|
  {
    if e != [] {
      var (k, v) := e[0];
      var e' : Dict := e[1..];
      UpdateToMap(Put(d, k, v), e');
      assert k !in Keys(e');
      InToMapKeys(e', k);
      assert ToMap(e) == ToMap(e')[k := v];
      UnionPut(ToMap(d), ToMap(e'), k, v);
    }
  }

  lemma UnionPut(a: map<string, string>, b: map<string, string>, k: string, v: string)
    requires k !in b
    ensures a[k := v] + b == a + b[k := v]
  {
  }

  /** Updating with entries whose keys are new appends them in order. */
  lemma {:induction false} UpdateFresh(d: Dict, e: seq<Entry>)
    requires DistinctKeys(d + e)
    ensures Update(d, e) == d + e
    decreases |e|
  {
    if e != [] {
      var (k, v) := e[0];
      FirstAppendedFresh(d, e);
      PutFresh(d, k, v);
      var d': Dict := d + [(k, v)];
      assert d + e == d' + e[1..];
      UpdateFresh(d', e[1..]);
    }
  }

  lemma FirstAppendedFresh(d: Dict, e: seq<Entry>)
    requires e != [] && DistinctKeys(d + e)
    ensures e[0].0 !in ToMap(d) && DistinctKeys(d + [e[0]])
  {
    forall i | 0 <= i < |d|
      ensures d[i].0 != e[0].0
    {
      assert (d + e)[i] == d[i] && (d + e)[|d|] == e[0];
    }
    InToMapKeys(d, e[0].0);
  }

  lemma PutFresh(d: Dict, k: string, v: string)
    requires k !in ToMap(d)
    ensures Put(d, k, v) == d + [(k, v)]
  {
    InToMapIff(d, k);
  }

  /** `a` is `b` with some elements left out, the others in their order. */
  predicate Subsequence(a: seq<string>, b: seq<string>)
    decreases |b|
  {
    if a == [] then true
    else if b == [] then false
    else (a[0] == b[0] && Subsequence(a[1..], b[1..])) || Subsequence(a, b[1..])
  }

  /** `dict((k, v) for k, v in d.items() if keep(k, v))` */
  function Filter(d: Dict, keep: (string, string) -> bool): (r: Dict)
    ensures forall k | k in Keys(r) :: k in Keys(d)
  {
    if d == [] then []
    else
      var rest := Filter(d[1..], keep);
      assert d[0].0 !in Keys(d[1..]);
      if keep(d[0].0, d[0].1) then [d[0]] + rest else rest
  }

  /** Filtering keeps the surviving keys in their order. */
  lemma {:induction false} FilterOrder(d: Dict, keep: (string, string) -> bool)
    ensures Subsequence(Keys(Filter(d, keep)), Keys(d))
  {
    if d != [] {
      var rest := Filter(d[1..], keep);
      FilterOrder(d[1..], keep);
      assert Keys(d)[1..] == Keys(d[1..]);
      if keep(d[0].0, d[0].1) {
        var r := Filter(d, keep);
        assert r[1..] == rest;
        assert Keys(r)[1..] == Keys(rest);
      }
    }
  }

  /** The entries whose keys are not in `s`. */
  function NotIn(s: set<string>): (string, string) -> bool
  {
    (k, _) => k !in s
  }

  /** A key that `e` lacks makes no difference to which of its entries are new. */
  lemma {:induction false} FilterNotInSkip(e: Dict, s: set<string>, k: string)
    requires k !in Keys(e)
    ensures Filter(e, NotIn(s + {k})) == Filter(e, NotIn(s))
  {
    if e != [] {
      assert Keys(e)[1..] == Keys(e[1..]);
      FilterNotInSkip(e[1..], s, k);
    }
  }

  lemma FilterNotInFirst(e: Dict, s: set<string>)
    requires e != []
    ensures Filter(e, NotIn(s)) ==
      if e[0].0 in s then Filter(e[1..], NotIn(s)) else [e[0]] + Filter(e[1..], NotIn(s))
  {
    assert NotIn(s)(e[0].0, e[0].1) == (e[0].0 !in s);
  }

  /**
   * The order of keys after `d.update(e)`: the keys of `d` where they were,
   * then the keys of `e` that `d` lacks, in the order of `e`.
   */
  lemma {:induction false} UpdateKeys(d: Dict, e: Dict)
    ensures Keys(Update(d, e)) == Keys(d) + Keys(Filter(e, NotIn(ToMap(d).Keys)))
    decreases |e|
  {
    if e == [] {
      assert Keys(d) + [] == Keys(d);
    } else {
      var e': Dict := e[1..];
      var d' := Put(d, e[0].0, e[0].1);
      UpdateKeys(d', e');
      UpdateKeysStep(d, e, d', e');
    }
  }

  lemma UpdateKeysStep(d: Dict, e: Dict, d': Dict, e': Dict)
    requires e != [] && e' == e[1..] && d' == Put(d, e[0].0, e[0].1)
    requires Keys(Update(d', e')) == Keys(d') + Keys(Filter(e', NotIn(ToMap(d').Keys)))
    ensures Keys(Update(d, e)) == Keys(d) + Keys(Filter(e, NotIn(ToMap(d).Keys)))
  {
    assert Update(d, e) == Update(d', e');
    FilterNotInFirst(e, ToMap(d).Keys);
    if e[0].0 in ToMap(d) {
      UpdateKeysKnown(d, e, d', e');
    } else {
      UpdateKeysNew(d, e, d', e');
      AppendAssoc(Keys(d), [e[0].0], Keys(Filter(e', NotIn(ToMap(d').Keys))));
    }
  }

  /** A key `d` has keeps its place and adds nothing. */
  lemma UpdateKeysKnown(d: Dict, e: Dict, d': Dict, e': Dict)
    requires e != [] && e' == e[1..] && d' == Put(d, e[0].0, e[0].1) && e[0].0 in ToMap(d)
    ensures Keys(d') == Keys(d) && ToMap(d').Keys == ToMap(d).Keys
    ensures Filter(e, NotIn(ToMap(d).Keys)) == Filter(e', NotIn(ToMap(d).Keys))
  {
    FilterNotInFirst(e, ToMap(d).Keys);
  }

  /** A key `d` lacks goes last, and is the first of the new keys. */
  lemma UpdateKeysNew(d: Dict, e: Dict, d': Dict, e': Dict)
    requires e != [] && e' == e[1..] && d' == Put(d, e[0].0, e[0].1) && e[0].0 !in ToMap(d)
    ensures Keys(d') == Keys(d) + [e[0].0]
    ensures [e[0].0] + Keys(Filter(e', NotIn(ToMap(d').Keys))) == Keys(Filter(e, NotIn(ToMap(d).Keys)))
  {
    PutKeySet(d, e[0].0, e[0].1);
    FilterNotInNew(e, ToMap(d).Keys);
  }

  lemma PutKeySet(d: Dict, k: string, v: string)
    ensures ToMap(Put(d, k, v)).Keys == ToMap(d).Keys + {k}
  {
  }

  lemma FilterNotInNew(e: Dict, s: set<string>)
    requires e != [] && e[0].0 !in s
    ensures Keys(Filter(e, NotIn(s))) == [e[0].0] + Keys(Filter(e[1..], NotIn(s + {e[0].0})))
  {
    var e': Dict := e[1..];
    assert e[0].0 !in Keys(e') by {
      assert Keys(e)[0] == e[0].0 && Keys(e)[1..] == Keys(e');
    }
    FilterNotInSkip(e', s, e[0].0);
    FilterNotInFirst(e, s);
    var f := Filter(e', NotIn(s));
    assert ([e[0]] + f)[1..] == f;
  }

  /** Filtering keeps exactly the entries the predicate accepts. */
  lemma {:induction false} FilterToMap(d: Dict, keep: (string, string) -> bool)
    ensures var m := ToMap(d);
      ToMap(Filter(d, keep)) == map k | k in m && keep(k, m[k]) :: m[k]
  {
    if d != [] {
      FilterToMap(d[1..], keep);
      assert d[0].0 !in Keys(d[1..]);
      InToMapKeys(d[1..], d[0].0);
    }
  }

  /** `del d[k]` for a key that may be absent: the other entries keep their order. */
  function Remove(d: Dict, k: string): (r: Dict)
    ensures forall x | x in Keys(r) :: x in Keys(d)
    ensures ToMap(r) == ToMap(d) - {k}
    ensures k !in ToMap(d) ==> r == d
  {
    if d == [] then []
    else
      var rest := Remove(d[1..], k);
      assert d[0].0 !in Keys(d[1..]);
      InToMapKeys(d[1..], d[0].0);
      assert d[0].0 !in ToMap(rest);
      MinusPut(ToMap(d[1..]), k, d[0].0, d[0].1);
      if d[0].0 == k then rest
      else
        var r: Dict := [d[0]] + rest;
        assert r[1..] == rest;
        r
  }

  /** Removing a present key leaves the entries before and after it, in order. */
  lemma {:induction false} RemoveOrder(d: Dict, k: string)
    requires IndexOf(d, k) < |d|
    ensures Remove(d, k) == d[..IndexOf(d, k)] + d[IndexOf(d, k) + 1..]
  {
    if d[0].0 == k {
      assert d[0].0 !in Keys(d[1..]);
      InToMapKeys(d[1..], d[0].0);
      assert d[..0] + d[1..] == d[1..];
    } else {
      var t: Dict := d[1..];
      RemoveOrder(t, k);
      RemoveOrderCons(d, IndexOf(t, k));
    }
  }

  lemma RemoveOrderCons(d: Dict, i: nat)
    requires d != [] && i < |d| - 1
    ensures [d[0]] + (d[1..][..i] + d[1..][i + 1..]) == d[..i + 1] + d[i + 2..]
  {
    assert d[..i + 1] == [d[0]] + d[1..][..i];
    assert d[i + 2..] == d[1..][i + 1..];
  }

  lemma MinusPut(m: map<string, string>, x: string, k: string, v: string)
    ensures x == k ==> m[k := v] - {x} == m - {x}
    ensures x != k ==> m[k := v] - {x} == (m - {x})[k := v]
  {
  }

  /**
   * `d.pop(k)`: the value and the dictionary without `k`, or None for a
   * KeyError; the other entries keep their order.
   */
  function Pop(d: Dict, k: string): (r: Option<(string, Dict)>)
    ensures r.None? <==> k !in ToMap(d)
    ensures r.Some? ==> IndexOf(d, k) < |d| && r.value.0 == d[IndexOf(d, k)].1
    ensures r.Some? ==> r.value.0 == ToMap(d)[k] && ToMap(r.value.1) == ToMap(d) - {k}
    ensures r.Some? ==> r.value.1 == d[..IndexOf(d, k)] + d[IndexOf(d, k) + 1..]
  {
    InToMapIff(d, k);
    if k in ToMap(d) then
      ToMapAt(d, IndexOf(d, k));
      RemoveOrder(d, k);
      Some((ToMap(d)[k], Remove(d, k)))
    else None
  }

  /** Popping the first key gives its value and the remaining entries. */
  lemma PopFirst(d: Dict)
    requires d != []
    ensures Pop(d, d[0].0) == Some((d[0].1, d[1..]))
  {
    ToMapAt(d, 0);
    assert d[0].0 !in Keys(d[1..]);
    InToMapKeys(d[1..], d[0].0);
  }
}
