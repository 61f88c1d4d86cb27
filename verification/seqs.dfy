/** Sequence helpers the Python code expresses with list comprehensions,
    `next(...)` searches and dictionaries used as "first seen wins" sets. */
module Seqs {
  import opened Wrappers

  /** `[x for x in xs if p(x)]` */
  function Filter<T>(xs: seq<T>, p: T -> bool): (r: seq<T>)
    ensures |r| <= |xs|
    ensures forall i :: 0 <= i < |r| ==> r[i] in xs && p(r[i])
    ensures forall i :: 0 <= i < |xs| && p(xs[i]) ==> xs[i] in r
    decreases |xs|
  {
    if |xs| == 0 then []
    else
      var init := xs[..|xs| - 1];
      var x := xs[|xs| - 1];
      assert xs == init + [x];
      if p(x) then Filter(init, p) + [x] else Filter(init, p)
  }

  /** A filter every element passes keeps the whole sequence. */
  lemma {:induction false} FilterAll<T>(xs: seq<T>, p: T -> bool)
    requires forall i :: 0 <= i < |xs| ==> p(xs[i])
    ensures Filter(xs, p) == xs
    decreases |xs|
  {
    if |xs| > 0 {
      var init := xs[..|xs| - 1];
      assert xs == init + [xs[|xs| - 1]];
      FilterAll(init, p);
    }
  }

  /** Filters that agree on every element keep the same elements. */
  lemma {:induction false} FilterSame<T>(xs: seq<T>, p: T -> bool, q: T -> bool)
    requires forall i :: 0 <= i < |xs| ==> (p(xs[i]) <==> q(xs[i]))
    ensures Filter(xs, p) == Filter(xs, q)
    decreases |xs|
  {
    if |xs| > 0 {
      var init := xs[..|xs| - 1];
      assert xs == init + [xs[|xs| - 1]];
      FilterSame(init, p, q);
    }
  }

  /** Filtering keeps order: the result over a concatenation is the
      concatenation of the results. */
  lemma {:induction false} FilterAppend<T>(xs: seq<T>, ys: seq<T>, p: T -> bool)
    ensures Filter(xs + ys, p) == Filter(xs, p) + Filter(ys, p)
    decreases |ys|
  {
    if |ys| == 0 {
      assert xs + ys == xs;
    } else {
      var init := ys[..|ys| - 1];
      assert (xs + ys)[..|xs + ys| - 1] == xs + init;
      assert (xs + ys)[|xs + ys| - 1] == ys[|ys| - 1];
      assert ys[..|ys| - 1] == init;
      FilterAppend(xs, init, p);
    }
  }

  /** A single element is kept exactly when it passes. */
  lemma FilterOne<T>(x: T, p: T -> bool)
    ensures Filter([x], p) == if p(x) then [x] else []
  {
    assert [x][..0] == [];
  }

  /** `[f(x) for x in xs if p(x)]` */
  function FilterMap<T, U>(xs: seq<T>, p: T -> bool, f: T -> U): (r: seq<U>)
    ensures |r| <= |xs|
    ensures forall i :: 0 <= i < |xs| && p(xs[i]) ==> f(xs[i]) in r
    ensures forall k :: 0 <= k < |r| ==> exists i :: 0 <= i < |xs| && p(xs[i]) && r[k] == f(xs[i])
    decreases |xs|
  {
    if |xs| == 0 then []
    else
      var init := xs[..|xs| - 1];
      var x := xs[|xs| - 1];
      assert xs == init + [x];
      var r := FilterMap(init, p, f);
      assert forall i :: 0 <= i < |init| ==> init[i] == xs[i];
      if p(x) then r + [f(x)] else r
  }

  /** The mapped values of the passing elements keep their order: the
      result over a concatenation is the concatenation of the results. */
  lemma {:induction false} FilterMapAppend<T, U>(xs: seq<T>, ys: seq<T>, p: T -> bool, f: T -> U)
    ensures FilterMap(xs + ys, p, f) == FilterMap(xs, p, f) + FilterMap(ys, p, f)
    decreases |ys|
  {
    if |ys| == 0 {
      assert xs + ys == xs;
    } else {
      var init := ys[..|ys| - 1];
      assert (xs + ys)[..|xs + ys| - 1] == xs + init;
      assert (xs + ys)[|xs + ys| - 1] == ys[|ys| - 1];
      FilterMapAppend(xs, init, p, f);
    }
  }

  /** A single element yields its mapped value exactly when it passes. */
  lemma FilterMapOne<T, U>(x: T, p: T -> bool, f: T -> U)
    ensures FilterMap([x], p, f) == if p(x) then [f(x)] else []
  {
    assert [x][..0] == [];
  }

  /** `[f(x) for x in xs]` */
  function Map<T, U>(xs: seq<T>, f: T -> U): (r: seq<U>)
    ensures |r| == |xs| && forall i :: 0 <= i < |xs| ==> r[i] == f(xs[i])
  {
    seq(|xs|, i requires 0 <= i < |xs| => f(xs[i]))
  }

  /** `[v for v in xs if v is not None]` */
  function Somes<T>(xs: seq<Option<T>>): (r: seq<T>)
    ensures |r| <= |xs|
    ensures forall i :: 0 <= i < |r| ==> Some(r[i]) in xs
    ensures forall i :: 0 <= i < |xs| && xs[i].Some? ==> xs[i].value in r
    ensures (forall i :: 0 <= i < |xs| ==> xs[i].None?) ==> r == []
    decreases |xs|
  {
    if |xs| == 0 then []
    else
      var init := xs[..|xs| - 1];
      assert xs == init + [xs[|xs| - 1]];
      match xs[|xs| - 1]
      case Some(v) => Somes(init) + [v]
      case None => Somes(init)
  }

  /** The absent values are dropped and the others keep their order: the
      result over a concatenation is the concatenation of the results. */
  lemma {:induction false} SomesAppend<T>(xs: seq<Option<T>>, ys: seq<Option<T>>)
    ensures Somes(xs + ys) == Somes(xs) + Somes(ys)
    decreases |ys|
  {
    if |ys| == 0 {
      assert xs + ys == xs;
    } else {
      var init := ys[..|ys| - 1];
      assert xs + ys == (xs + init) + [ys[|ys| - 1]];
      assert (xs + ys)[..|xs + ys| - 1] == xs + init;
      SomesAppend(xs, init);
    }
  }

  /** Mapping a concatenation maps each part. */
  lemma MapAppend<T, U>(xs: seq<T>, ys: seq<T>, f: T -> U)
    ensures Map(xs + ys, f) == Map(xs, f) + Map(ys, f)
  {
    var l := Map(xs + ys, f);
    var r := Map(xs, f) + Map(ys, f);
    forall i | 0 <= i < |l| ensures l[i] == r[i] {
      if i < |xs| {
        assert (xs + ys)[i] == xs[i];
      } else {
        assert (xs + ys)[i] == ys[i - |xs|];
      }
    }
  }

  /** A single value is kept exactly when it is present. */
  lemma SomesOne<T>(o: Option<T>)
    ensures Somes([o]) == if o.Some? then [o.value] else []
  {
    assert [o][..0] == [];
  }

  /** `"".join(xs)` */
  function Concat<T>(xs: seq<seq<T>>): (r: seq<T>)
    ensures forall i, x :: 0 <= i < |xs| && x in xs[i] ==> x in r
    ensures forall x :: x in r ==> exists i :: 0 <= i < |xs| && x in xs[i]
    decreases |xs|
  {
    if |xs| == 0 then []
    else
      assert forall i :: 1 <= i < |xs| ==> xs[1..][i - 1] == xs[i];
      xs[0] + Concat(xs[1..])
  }

  /** Dropping the absent values of a sequence that has none keeps every
      value in place. */
  lemma {:induction false} SomesAll<T>(xs: seq<Option<T>>)
    requires forall i :: 0 <= i < |xs| ==> xs[i].Some?
    ensures |Somes(xs)| == |xs|
    ensures forall i :: 0 <= i < |xs| ==> Somes(xs)[i] == xs[i].value
    decreases |xs|
  {
    if |xs| > 0 {
      var init := xs[..|xs| - 1];
      SomesAll(init);
    }
  }

  /** The position of `next(x for x in xs if p(x))`, or None when no element matches. */
  function FirstIndex<T>(xs: seq<T>, p: T -> bool): (r: Option<nat>)
    ensures r.Some? ==> r.value < |xs| && p(xs[r.value])
    ensures r.Some? ==> forall j :: 0 <= j < r.value ==> !p(xs[j])
    ensures r.None? ==> forall j :: 0 <= j < |xs| ==> !p(xs[j])
    decreases |xs|
  {
    if |xs| == 0 then None
    else if p(xs[0]) then Some(0)
    else
      match FirstIndex(xs[1..], p)
      case None => None
      case Some(i) => Some(i + 1)
  }

  /** The keys the elements of `xs` carry. */
  function KeySet<T, K(==)>(xs: seq<T>, key: T -> K): (r: set<K>)
    ensures forall i :: 0 <= i < |xs| ==> key(xs[i]) in r
    ensures forall k :: k in r ==> exists i :: 0 <= i < |xs| && key(xs[i]) == k
    decreases |xs|
  {
    if |xs| == 0 then {}
    else
      var init := xs[..|xs| - 1];
      assert forall i :: 0 <= i < |init| ==> init[i] == xs[i];
      KeySet(init, key) + {key(xs[|xs| - 1])}
  }

  ghost predicate DistinctKeys<T, K>(xs: seq<T>, key: T -> K) {
    forall i, j :: 0 <= i < j < |xs| ==> key(xs[i]) != key(xs[j])
  }

  /** `xs` lists its elements in strictly increasing order of `f`. */
  ghost predicate IncreasingBy<T>(xs: seq<T>, f: T -> int) {
    forall i, j :: 0 <= i < j < |xs| ==> f(xs[i]) < f(xs[j])
  }

  /** `xs[i]` is the first element of `xs` with its key. */
  ghost predicate FirstOfKey<T, K>(xs: seq<T>, key: T -> K, i: int)
    requires 0 <= i < |xs|
  {
    forall j :: 0 <= j < i ==> key(xs[j]) != key(xs[i])
  }

  /** The Python idiom `d = {}; for x in xs: if key(x) in d: continue; d[key(x)] = x;
      list(d.values())`: one element per key, the first one seen, in the order the
      keys were first seen. */
  function DedupFirst<T, K(==)>(xs: seq<T>, key: T -> K): (r: seq<T>)
    ensures |r| <= |xs|
    ensures forall x :: x in r ==> x in xs
    ensures KeySet(r, key) == KeySet(xs, key)
    ensures DistinctKeys(r, key)
    decreases |xs|
  {
    if |xs| == 0 then []
    else
      var init := xs[..|xs| - 1];
      var x := xs[|xs| - 1];
      assert xs == init + [x];
      var kept := DedupFirst(init, key);
      assert KeySet(xs, key) == KeySet(init, key) + {key(x)};
      if key(x) in KeySet(kept, key) then kept
      else
        KeySetSnoc(kept, x, key);
        DistinctSnoc(kept, x, key);
        kept + [x]
  }

  lemma KeySetSnoc<T, K>(xs: seq<T>, x: T, key: T -> K)
    ensures KeySet(xs + [x], key) == KeySet(xs, key) + {key(x)}
  {
    assert (xs + [x])[..|xs|] == xs;
  }

  /** Appending an element whose key is new keeps the keys distinct. */
  lemma DistinctSnoc<T, K>(xs: seq<T>, x: T, key: T -> K)
    requires DistinctKeys(xs, key) && key(x) !in KeySet(xs, key)
    ensures DistinctKeys(xs + [x], key)
  {
    var r := xs + [x];
    forall i, j | 0 <= i < j < |r| ensures key(r[i]) != key(r[j]) {
      assert r[i] == xs[i];
      if j < |xs| {
        assert r[j] == xs[j];
      } else {
        assert r[j] == x;
        assert key(xs[i]) in KeySet(xs, key);
      }
    }
  }

  /** Every element that is the first with its key survives deduplication. */
  lemma {:induction false} DedupFirstKeepsFirst<T, K>(xs: seq<T>, key: T -> K, i: int)
    requires 0 <= i < |xs| && FirstOfKey(xs, key, i)
    ensures xs[i] in DedupFirst(xs, key)
    decreases |xs|
  {
    var init := xs[..|xs| - 1];
    var x := xs[|xs| - 1];
    assert xs == init + [x];
    var kept := DedupFirst(init, key);
    if i < |xs| - 1 {
      assert init[i] == xs[i];
      assert FirstOfKey(init, key, i) by {
        forall j | 0 <= j < i ensures key(init[j]) != key(init[i]) {
          assert init[j] == xs[j];
        }
      }
      DedupFirstKeepsFirst(init, key, i);
    }
  }

  /** Deduplication keeps nothing but first occurrences. */
  lemma {:induction false} DedupFirstOnlyFirst<T, K>(xs: seq<T>, key: T -> K, k: int)
    requires 0 <= k < |DedupFirst(xs, key)|
    ensures exists i :: 0 <= i < |xs| && xs[i] == DedupFirst(xs, key)[k] && FirstOfKey(xs, key, i)
    decreases |xs|
  {
    var init := xs[..|xs| - 1];
    var x := xs[|xs| - 1];
    assert xs == init + [x];
    var kept := DedupFirst(init, key);
    var r := DedupFirst(xs, key);
    if k < |kept| {
      assert r[k] == kept[k];
      DedupFirstOnlyFirst(init, key, k);
      var i :| 0 <= i < |init| && init[i] == kept[k] && FirstOfKey(init, key, i);
      assert xs[i] == init[i];
      assert FirstOfKey(xs, key, |xs| - 1 - (|xs| - 1 - i)) by {
        forall j | 0 <= j < i ensures key(xs[j]) != key(xs[i]) {
          assert xs[j] == init[j];
        }
      }
    } else {
      assert r == kept + [x] && r[k] == x;
      assert key(x) !in KeySet(init, key);
      assert FirstOfKey(xs, key, |xs| - 1) by {
        forall j | 0 <= j < |xs| - 1 ensures key(xs[j]) != key(x) {
          assert xs[j] == init[j];
        }
      }
    }
  }

  /** Deduplication preserves a strictly increasing order. */
  lemma {:induction false} DedupFirstIncreasing<T, K>(xs: seq<T>, key: T -> K, f: T -> int)
    requires IncreasingBy(xs, f)
    ensures IncreasingBy(DedupFirst(xs, key), f)
    decreases |xs|
  {
    if |xs| > 0 {
      var init := xs[..|xs| - 1];
      var x := xs[|xs| - 1];
      assert xs == init + [x];
      assert IncreasingBy(init, f);
      DedupFirstIncreasing(init, key, f);
      var kept := DedupFirst(init, key);
      forall y | y in kept ensures f(y) < f(x) {
        assert y in init;
      }
    }
  }

  /** Two increasing runs, the first entirely below the second, make one. */
  lemma IncreasingAppend<T>(xs: seq<T>, ys: seq<T>, f: T -> int)
    requires IncreasingBy(xs, f) && IncreasingBy(ys, f)
    requires forall i, j :: 0 <= i < |xs| && 0 <= j < |ys| ==> f(xs[i]) < f(ys[j])
    ensures IncreasingBy(xs + ys, f)
  {
    var zs := xs + ys;
    forall i, j | 0 <= i < j < |zs| ensures f(zs[i]) < f(zs[j]) {
      if j < |xs| {
        assert zs[i] == xs[i] && zs[j] == xs[j];
      } else if i >= |xs| {
        assert zs[i] == ys[i - |xs|] && zs[j] == ys[j - |xs|];
      } else {
        assert zs[i] == xs[i] && zs[j] == ys[j - |xs|];
      }
    }
  }

  /** Filtering preserves a strictly increasing order. */
  lemma {:induction false} FilterIncreasing<T>(xs: seq<T>, p: T -> bool, f: T -> int)
    requires IncreasingBy(xs, f)
    ensures IncreasingBy(Filter(xs, p), f)
    decreases |xs|
  {
    if |xs| > 0 {
      var init := xs[..|xs| - 1];
      var x := xs[|xs| - 1];
      assert xs == init + [x];
      assert IncreasingBy(init, f) by {
        forall i, j | 0 <= i < j < |init| ensures f(init[i]) < f(init[j]) {
          assert init[i] == xs[i] && init[j] == xs[j];
        }
      }
      FilterIncreasing(init, p, f);
      var r := Filter(init, p);
      if p(x) {
        assert Filter(xs, p) == r + [x];
        forall i, j | 0 <= i < |r| && 0 <= j < |[x]| ensures f(r[i]) < f([x][j]) {
          var k :| 0 <= k < |init| && init[k] == r[i];
          assert xs[k] == init[k];
        }
        IncreasingAppend(r, [x], f);
      } else {
        assert Filter(xs, p) == r;
      }
    }
  }
}
