/** Sequence operations whose Python counterparts the watchlist relies on:
    the insertion order of dictionary keys, `max(keys, key=...)` (the first
    maximal key wins) and the stable `sorted(..., reverse=True)`. */
module SeqUtil {
  import opened Wrappers
  import opened PyStr

  predicate Distinct<K(==)>(s: seq<K>) {
    forall i, j :: 0 <= i < j < |s| ==> s[i] != s[j]
  }

  /** The keys of `ks` in the order of their first appearance, as a dictionary
      filled from `ks` would list them. */
  function FirstSeen<K(==)>(ks: seq<K>): (r: seq<K>)
    ensures forall i :: 0 <= i < |r| ==> r[i] in ks
    ensures forall i :: 0 <= i < |ks| ==> ks[i] in r
    ensures Distinct(r)
    ensures |r| <= |ks|
  {
    if ks == [] then []
    else
      var init := ks[..|ks| - 1];
      var prev := FirstSeen(init);
      var k := ks[|ks| - 1];
      assert forall i :: 0 <= i < |init| ==> init[i] == ks[i];
      if k in prev then prev else prev + [k]
  }

  lemma FirstSeenMember<K>(ks: seq<K>, k: K)
    ensures k in FirstSeen(ks) <==> k in ks
  {
    var r := FirstSeen(ks);
    if k in r {
      var i :| 0 <= i < |r| && r[i] == k;
    }
    if k in ks {
      var i :| 0 <= i < |ks| && ks[i] == k;
    }
  }

  /** Index of the first occurrence of `k`. */
  function FirstIndex<K(==)>(ks: seq<K>, k: K): (i: nat)
    requires k in ks
    ensures i < |ks| && ks[i] == k
    ensures forall j :: 0 <= j < i ==> ks[j] != k
  {
    if ks[0] == k then 0 else 1 + FirstIndex(ks[1..], k)
  }

  lemma FirstIndexOfPrefix<K>(ks: seq<K>, k: K, n: nat)
    requires n <= |ks| && k in ks[..n]
    ensures FirstIndex(ks, k) == FirstIndex(ks[..n], k)
  {
    assert forall m :: 0 <= m < n ==> ks[..n][m] == ks[m];
  }

  /** Keys listed by `FirstSeen` appear in the input in that order. */
  lemma {:induction false} FirstSeenOrder<K>(ks: seq<K>)
    ensures forall i, j :: 0 <= i < j < |FirstSeen(ks)| ==>
      FirstIndex(ks, FirstSeen(ks)[i]) < FirstIndex(ks, FirstSeen(ks)[j])
  {
    if ks != [] {
      var n := |ks| - 1;
      var init := ks[..n];
      var prev := FirstSeen(init);
      var k := ks[n];
      FirstSeenOrder(init);
      var r := FirstSeen(ks);
      forall i, j | 0 <= i < j < |r| ensures FirstIndex(ks, r[i]) < FirstIndex(ks, r[j]) {
        assert r[i] == prev[i];
        assert r[i] in init;
        FirstIndexOfPrefix(ks, r[i], n);
        if j < |prev| {
          assert r[j] == prev[j] && r[j] in init;
          FirstIndexOfPrefix(ks, r[j], n);
        } else {
          assert r[j] == k && k !in init;
          assert forall m :: 0 <= m < n ==> init[m] == ks[m];
          assert FirstIndex(ks, k) == n;
        }
      }
    }
  }

  /** `counts.get(k, 0)`. */
  function CountOf<K>(counts: map<K, nat>, k: K): nat {
    if k in counts then counts[k] else 0
  }

  /** `max(order, key=counts.get)`: the position of the first key with the
      largest count. */
  function ArgMaxFirst<K>(order: seq<K>, counts: map<K, nat>): (j: nat)
    requires order != []
    ensures j < |order|
    ensures forall i :: 0 <= i < |order| ==> CountOf(counts, order[i]) <= CountOf(counts, order[j])
    ensures forall i :: 0 <= i < j ==> CountOf(counts, order[i]) < CountOf(counts, order[j])
  {
    if |order| == 1 then 0
    else
      var init := order[..|order| - 1];
      assert forall i :: 0 <= i < |init| ==> init[i] == order[i];
      var b := ArgMaxFirst(init, counts);
      if CountOf(counts, order[|order| - 1]) > CountOf(counts, order[b]) then |order| - 1 else b
  }

  /** Over the keys of `ks` in first-seen order, `ArgMaxFirst` picks a key of
      maximal count that no key first seen before it ties. */
  lemma ArgMaxFirstSeen<K>(ks: seq<K>, counts: map<K, nat>)
    requires ks != []
    ensures FirstSeen(ks) != []
    ensures var d := FirstSeen(ks)[ArgMaxFirst(FirstSeen(ks), counts)];
      && d in ks
      && (forall i :: 0 <= i < |ks| ==> CountOf(counts, ks[i]) <= CountOf(counts, d))
      && (forall i :: 0 <= i < FirstIndex(ks, d) ==> CountOf(counts, ks[i]) < CountOf(counts, d))
  {
    var order := FirstSeen(ks);
    assert ks[0] in order;
    var j := ArgMaxFirst(order, counts);
    var d := order[j];
    forall i | 0 <= i < |ks| ensures CountOf(counts, ks[i]) <= CountOf(counts, d) {
      var p :| 0 <= p < |order| && order[p] == ks[i];
    }
    forall i | 0 <= i < FirstIndex(ks, d) ensures CountOf(counts, ks[i]) < CountOf(counts, d) {
      var p :| 0 <= p < |order| && order[p] == ks[i];
      assert FirstIndex(ks, order[p]) <= i;
      FirstSeenBefore(ks, p, j);
    }
  }

  /** A key first seen earlier is listed earlier. */
  lemma FirstSeenBefore<K>(ks: seq<K>, p: nat, q: nat)
    requires p < |FirstSeen(ks)| && q < |FirstSeen(ks)|
    requires FirstIndex(ks, FirstSeen(ks)[p]) < FirstIndex(ks, FirstSeen(ks)[q])
    ensures p < q
  {
    FirstSeenOrder(ks);
  }

  // ---------------------------------------------------------------------------
  // Stable sort by a real key, largest first

  /** Places `x` in front of the first element whose key is not larger, so an
      element inserted ahead of equal ones stays ahead of them. */
  function Insert<T>(x: T, s: seq<T>, key: T -> real): (r: seq<T>)
    ensures |r| == |s| + 1
  {
    if s == [] || key(s[0]) <= key(x) then [x] + s else [s[0]] + Insert(x, s[1..], key)
  }

  /** `sorted(xs, key=key, reverse=True)`: descending and stable. */
  function SortDesc<T>(xs: seq<T>, key: T -> real): (r: seq<T>)
    ensures |r| == |xs|
  {
    if xs == [] then [] else Insert(xs[0], SortDesc(xs[1..], key), key)
  }

  predicate SortedDesc<T>(s: seq<T>, key: T -> real) {
    forall i, j :: 0 <= i < j < |s| ==> key(s[i]) >= key(s[j])
  }

  /** Every key of `Insert(x, s, key)` is bounded by a bound of `x` and of `s`. */
  lemma {:induction false} InsertBounded<T>(x: T, s: seq<T>, key: T -> real, b: real)
    requires key(x) <= b
    requires forall k :: 0 <= k < |s| ==> key(s[k]) <= b
    ensures forall k :: 0 <= k < |Insert(x, s, key)| ==> key(Insert(x, s, key)[k]) <= b
  {
    if s != [] && key(s[0]) > key(x) {
      var tail := s[1..];
      assert forall k :: 0 <= k < |tail| ==> tail[k] == s[k + 1];
      InsertBounded(x, tail, key, b);
    }
  }

  lemma {:induction false} InsertSorted<T>(x: T, s: seq<T>, key: T -> real)
    requires SortedDesc(s, key)
    ensures SortedDesc(Insert(x, s, key), key)
  {
    if s != [] && key(s[0]) > key(x) {
      var tail := s[1..];
      assert forall k :: 0 <= k < |tail| ==> tail[k] == s[k + 1];
      InsertSorted(x, tail, key);
      InsertBounded(x, tail, key, key(s[0]));
      var t := Insert(x, tail, key);
      var r := Insert(x, s, key);
      assert r == [s[0]] + t;
      assert forall k :: 0 < k < |r| ==> r[k] == t[k - 1];
    }
  }

  lemma {:induction false} InsertPermutes<T>(x: T, s: seq<T>, key: T -> real)
    ensures multiset(Insert(x, s, key)) == multiset(s) + multiset{x}
  {
    if s != [] && key(s[0]) > key(x) {
      InsertPermutes(x, s[1..], key);
      assert s == [s[0]] + s[1..];
    }
  }

  lemma {:induction false} SortDescSpec<T>(xs: seq<T>, key: T -> real)
    ensures SortedDesc(SortDesc(xs, key), key)
    ensures multiset(SortDesc(xs, key)) == multiset(xs)
  {
    if xs != [] {
      SortDescSpec(xs[1..], key);
      InsertSorted(xs[0], SortDesc(xs[1..], key), key);
      InsertPermutes(xs[0], SortDesc(xs[1..], key), key);
      assert xs == [xs[0]] + xs[1..];
    }
  }

  /** The elements of `s` whose key is `v`, in order. */
  function WithKey<T>(s: seq<T>, key: T -> real, v: real): seq<T> {
    if s == [] then [] else (if key(s[0]) == v then [s[0]] else []) + WithKey(s[1..], key, v)
  }

  lemma {:induction false} InsertStable<T>(x: T, s: seq<T>, key: T -> real, v: real)
    ensures WithKey(Insert(x, s, key), key, v) == (if key(x) == v then [x] else []) + WithKey(s, key, v)
  {
    var r := Insert(x, s, key);
    if s == [] || key(s[0]) <= key(x) {
      assert r == [x] + s;
      assert r[1..] == s;
    } else {
      var t := Insert(x, s[1..], key);
      InsertStable(x, s[1..], key, v);
      assert r == [s[0]] + t;
      assert r[1..] == t;
      assert WithKey(r, key, v) == (if key(s[0]) == v then [s[0]] else []) + WithKey(t, key, v);
      assert WithKey(s, key, v) == (if key(s[0]) == v then [s[0]] else []) + WithKey(s[1..], key, v);
    }
  }

  /** Stability: elements with equal keys keep their relative order. */
  lemma {:induction false} SortDescStable<T>(xs: seq<T>, key: T -> real, v: real)
    ensures WithKey(SortDesc(xs, key), key, v) == WithKey(xs, key, v)
  {
    if xs != [] {
      SortDescStable(xs[1..], key, v);
      InsertStable(xs[0], SortDesc(xs[1..], key), key, v);
    }
  }

  /** Position of the first element with the largest key. */
  function FirstMaxIndex<T>(xs: seq<T>, key: T -> real): (j: nat)
    requires xs != []
    ensures j < |xs|
    ensures forall i :: 0 <= i < |xs| ==> key(xs[i]) <= key(xs[j])
    ensures forall i :: 0 <= i < j ==> key(xs[i]) < key(xs[j])
  {
    if |xs| == 1 then 0
    else
      var m := FirstMaxIndex(xs[1..], key);
      if key(xs[0]) >= key(xs[1..][m]) then 0 else m + 1
  }

  /** The head of the stable descending sort is the first element with the
      largest key. */
  lemma {:induction false} SortDescHead<T>(xs: seq<T>, key: T -> real)
    requires xs != []
    ensures SortDesc(xs, key)[0] == xs[FirstMaxIndex(xs, key)]
  {
    if |xs| > 1 {
      SortDescHead(xs[1..], key);
      var rest := SortDesc(xs[1..], key);
      assert rest != [];
    }
  }

  // ---------------------------------------------------------------------------
  // Filtering and mapping in one pass

  /** The defined results of `f` over `xs`, in order. */
  function FilterMap<A, B>(xs: seq<A>, f: A -> Option<B>): (r: seq<B>)
    ensures |r| <= |xs|
  {
    if xs == [] then []
    else if f(xs[0]).Some? then [f(xs[0]).value] + FilterMap(xs[1..], f)
    else FilterMap(xs[1..], f)
  }

  lemma {:induction false} FilterMapAppend<A, B>(xs: seq<A>, ys: seq<A>, f: A -> Option<B>)
    ensures FilterMap(xs + ys, f) == FilterMap(xs, f) + FilterMap(ys, f)
  {
    if xs == [] {
      assert xs + ys == ys;
    } else {
      assert (xs + ys)[0] == xs[0] && (xs + ys)[1..] == xs[1..] + ys;
      FilterMapAppend(xs[1..], ys, f);
      if f(xs[0]).Some? {
        var y := f(xs[0]).value;
        assert [y] + (FilterMap(xs[1..], f) + FilterMap(ys, f)) == ([y] + FilterMap(xs[1..], f)) + FilterMap(ys, f);
      }
    }
  }

  lemma FilterMapSingle<A, B>(x: A, f: A -> Option<B>)
    ensures FilterMap([x], f) == if f(x).Some? then [f(x).value] else []
  {
    assert [x][1..] == [];
  }

  /** One more element of a prefix adds its image, if any. */
  lemma FilterMapPrefixStep<A, B>(xs: seq<A>, j: nat, f: A -> Option<B>, y: Option<B>)
    requires j < |xs| && y == f(xs[j])
    ensures FilterMap(xs[..j + 1], f) == FilterMap(xs[..j], f) + (if y.Some? then [y.value] else [])
  {
    assert xs[..j + 1] == xs[..j] + [xs[j]];
    FilterMapAppend(xs[..j], [xs[j]], f);
    FilterMapSingle(xs[j], f);
  }

  /** Functions that agree on the elements give the same result. */
  lemma {:induction false} FilterMapAgree<A, B>(xs: seq<A>, f: A -> Option<B>, g: A -> Option<B>)
    requires forall x :: x in xs ==> f(x) == g(x)
    ensures FilterMap(xs, f) == FilterMap(xs, g)
  {
    if xs != [] {
      FilterMapAgree(xs[1..], f, g);
    }
  }

  lemma {:induction false} FilterMapMember<A, B>(xs: seq<A>, f: A -> Option<B>, y: B)
    requires y in FilterMap(xs, f)
    ensures exists x :: x in xs && f(x) == Some(y)
  {
    if f(xs[0]).Some? && f(xs[0]).value == y {
      assert xs[0] in xs;
    } else {
      FilterMapMember(xs[1..], f, y);
      var x :| x in xs[1..] && f(x) == Some(y);
      assert x in xs;
    }
  }

  lemma {:induction false} FilterMapHas<A, B>(xs: seq<A>, f: A -> Option<B>, x: A)
    requires x in xs && f(x).Some?
    ensures f(x).value in FilterMap(xs, f)
  {
    if xs[0] != x {
      FilterMapHas(xs[1..], f, x);
    }
  }

  /** `[f(x) for x in xs]`. */
  function MapSeq<A, B>(xs: seq<A>, f: A -> B): (r: seq<B>)
    ensures |r| == |xs| && forall i :: 0 <= i < |xs| ==> r[i] == f(xs[i])
  {
    seq(|xs|, i requires 0 <= i < |xs| => f(xs[i]))
  }

  /** `a` is `b` with some elements left out, order kept. */
  ghost predicate IsSubsequence<T>(a: seq<T>, b: seq<T>)
    decreases |b|
  {
    if a == [] then true
    else if b == [] then false
    else (a[0] == b[0] && IsSubsequence(a[1..], b[1..])) || IsSubsequence(a, b[1..])
  }

  lemma {:induction false} SubsequenceMember<T>(a: seq<T>, b: seq<T>, k: nat)
    requires IsSubsequence(a, b) && k < |a|
    ensures a[k] in b
    decreases |b|
  {
    if a[0] == b[0] && IsSubsequence(a[1..], b[1..]) {
      if k > 0 {
        SubsequenceMember(a[1..], b[1..], k - 1);
      }
    } else {
      SubsequenceMember(a, b[1..], k);
    }
  }

  lemma {:induction false} SubsequenceDistinct<T>(a: seq<T>, b: seq<T>)
    requires IsSubsequence(a, b) && Distinct(b)
    ensures Distinct(a)
    decreases |b|
  {
    if a != [] {
      if a[0] == b[0] && IsSubsequence(a[1..], b[1..]) {
        SubsequenceDistinct(a[1..], b[1..]);
        forall k | 0 < k < |a| ensures a[k] != a[0] {
          SubsequenceMember(a[1..], b[1..], k - 1);
          assert a[1..][k - 1] == a[k];
        }
      } else {
        SubsequenceDistinct(a, b[1..]);
      }
    }
  }

  /** When `back` recovers the input from each output, the outputs of
      `FilterMap` lead back to a subsequence of the inputs. */
  lemma {:induction false} FilterMapSubsequence<A, B>(xs: seq<A>, f: A -> Option<B>, back: B -> A)
    requires forall x :: f(x).Some? ==> back(f(x).value) == x
    ensures IsSubsequence(MapSeq(FilterMap(xs, f), back), xs)
  {
    if xs != [] {
      FilterMapSubsequence(xs[1..], f, back);
      var rest := MapSeq(FilterMap(xs[1..], f), back);
      var a := MapSeq(FilterMap(xs, f), back);
      if f(xs[0]).Some? {
        assert a[0] == xs[0];
        assert a[1..] == rest;
      } else {
        assert a == rest;
      }
    }
  }

  /** Inserting an element whose projection is new keeps the projections distinct. */
  lemma {:induction false} InsertDistinct<T, K>(x: T, s: seq<T>, key: T -> real, proj: T -> K)
    requires Distinct(MapSeq(s, proj))
    requires forall i :: 0 <= i < |s| ==> proj(s[i]) != proj(x)
    ensures Distinct(MapSeq(Insert(x, s, key), proj))
  {
    var r := Insert(x, s, key);
    if s == [] || key(s[0]) <= key(x) {
      assert forall k :: 0 < k < |r| ==> r[k] == s[k - 1];
    } else {
      var tail := s[1..];
      var t := Insert(x, tail, key);
      assert Distinct(MapSeq(tail, proj)) by {
        assert forall k :: 0 <= k < |tail| ==> tail[k] == s[k + 1];
      }
      InsertDistinct(x, tail, key, proj);
      InsertPermutes(x, tail, key);
      forall k | 0 <= k < |t| ensures proj(t[k]) != proj(s[0]) {
        assert t[k] in multiset(t);
        if t[k] != x {
          assert t[k] in multiset(tail);
          var m :| 0 <= m < |tail| && tail[m] == t[k];
          assert s[m + 1] == t[k];
        }
      }
      assert r == [s[0]] + t;
      assert forall k :: 0 < k < |r| ==> r[k] == t[k - 1];
    }
  }

  /** Sorting keeps distinct projections distinct. */
  lemma {:induction false} SortDescDistinct<T, K>(xs: seq<T>, key: T -> real, proj: T -> K)
    requires Distinct(MapSeq(xs, proj))
    ensures Distinct(MapSeq(SortDesc(xs, key), proj))
  {
    if xs != [] {
      var tail := xs[1..];
      assert Distinct(MapSeq(tail, proj)) by {
        assert forall k :: 0 <= k < |tail| ==> tail[k] == xs[k + 1];
      }
      SortDescDistinct(tail, key, proj);
      SortDescSpec(tail, key);
      var s := SortDesc(tail, key);
      forall i | 0 <= i < |s| ensures proj(s[i]) != proj(xs[0]) {
        assert s[i] in multiset(s);
        assert s[i] in multiset(tail);
        var m :| 0 <= m < |tail| && tail[m] == s[i];
        assert xs[m + 1] == s[i];
      }
      InsertDistinct(xs[0], s, key, proj);
    }
  }

  /** The first `n` of a stable descending sort: sorted, a prefix of the
      sorted sequence, and a permutation of the input before the cut. */
  lemma {:induction false} TopSorted<T>(xs: seq<T>, key: T -> real, n: int)
    ensures var sorted := SortDesc(xs, key);
      var top := Take(sorted, n);
      && SortedDesc(top, key)
      && top == sorted[..|top|]
      && (n >= 0 ==> |top| == Min(n, |xs|))
      && multiset(sorted) == multiset(xs)
  {
    SortDescSpec(xs, key);
    var sorted := SortDesc(xs, key);
    var top := Take(sorted, n);
    assert |sorted| == |xs| by {
      assert |multiset(sorted)| == |multiset(xs)|;
    }
    assert forall i :: 0 <= i < |top| ==> top[i] == sorted[i];
  }

  /** The first `n` of a sort keep distinct projections distinct. */
  lemma {:induction false} TopDistinct<T, K>(xs: seq<T>, key: T -> real, n: int, proj: T -> K)
    requires Distinct(MapSeq(xs, proj))
    ensures Distinct(MapSeq(Take(SortDesc(xs, key), n), proj))
  {
    SortDescDistinct(xs, key, proj);
    var sorted := SortDesc(xs, key);
    var top := Take(sorted, n);
    var ms := MapSeq(sorted, proj);
    assert forall i :: 0 <= i < |top| ==> proj(top[i]) == ms[i];
  }

  // ---------------------------------------------------------------------------
  // Reordering

  /** `schedule` only reorders: it returns a permutation of its argument. The
      order in which a thread pool hands back finished work is such a schedule. */
  ghost predicate IsReordering<T(!new)>(schedule: seq<T> -> seq<T>) {
    forall s :: multiset(schedule(s)) == multiset(s)
  }

  lemma MapSeqAppend<A, B>(xs: seq<A>, ys: seq<A>, f: A -> B)
    ensures MapSeq(xs + ys, f) == MapSeq(xs, f) + MapSeq(ys, f)
  {
  }

  /** `b` splits around a position holding `a[0]` into a rest that is a
      permutation of `a[1..]`. */
  lemma RemoveFirst<T>(a: seq<T>, b: seq<T>) returns (j: nat)
    requires a != [] && multiset(a) == multiset(b)
    ensures j < |b| && b[j] == a[0]
    ensures b == b[..j] + [b[j]] + b[j + 1..]
    ensures multiset(a[1..]) == multiset(b[..j] + b[j + 1..])
  {
    assert a[0] in multiset(b);
    j :| 0 <= j < |b| && b[j] == a[0];
    var lo, hi := b[..j], b[j + 1..];
    assert b == lo + [b[j]] + hi;
    assert multiset(b) == multiset(lo) + multiset{a[0]} + multiset(hi);
    assert a == [a[0]] + a[1..];
    assert multiset(a) == multiset{a[0]} + multiset(a[1..]);
    assert multiset(lo + hi) == multiset(lo) + multiset(hi);
    forall y ensures multiset(a[1..])[y] == multiset(lo + hi)[y] {
      assert multiset(a)[y] == multiset{a[0]}[y] + multiset(a[1..])[y];
      assert multiset(b)[y] == multiset(lo)[y] + multiset{a[0]}[y] + multiset(hi)[y];
    }
  }

  /** Taking one element out of the middle takes its image out of the map. */
  lemma MapSeqSplice<A, B>(lo: seq<A>, x: A, hi: seq<A>, f: A -> B)
    ensures multiset(MapSeq(lo + [x] + hi, f)) == multiset(MapSeq(lo + hi, f)) + multiset{f(x)}
  {
    var mlo, mhi := MapSeq(lo, f), MapSeq(hi, f);
    MapSeqAppend(lo + [x], hi, f);
    MapSeqAppend(lo, [x], f);
    MapSeqAppend(lo, hi, f);
    assert MapSeq([x], f) == [f(x)];
    assert multiset(mlo + [f(x)] + mhi) == multiset(mlo + mhi) + multiset{f(x)};
  }

  lemma {:induction false} MapSeqPermutation<A, B>(a: seq<A>, b: seq<A>, f: A -> B)
    requires multiset(a) == multiset(b)
    ensures multiset(MapSeq(a, f)) == multiset(MapSeq(b, f))
    decreases |a|
  {
    if a == [] {
      assert |b| == |multiset(b)| == 0;
    } else {
      var j := RemoveFirst(a, b);
      var lo, hi := b[..j], b[j + 1..];
      MapSeqPermutation(a[1..], lo + hi, f);
      MapSeqSplice(lo, b[j], hi, f);
      MapSeqSplice([], a[0], a[1..], f);
      assert [] + [a[0]] + a[1..] == a;
      assert [] + a[1..] == a[1..];
    }
  }

  lemma {:induction false} FilterMapPermutation<A, B>(a: seq<A>, b: seq<A>, f: A -> Option<B>)
    requires multiset(a) == multiset(b)
    ensures multiset(FilterMap(a, f)) == multiset(FilterMap(b, f))
    decreases |a|
  {
    if a == [] {
      assert |b| == |multiset(b)| == 0;
    } else {
      var j := RemoveFirst(a, b);
      var lo, hi := b[..j], b[j + 1..];
      FilterMapPermutation(a[1..], lo + hi, f);
      var flo, fhi, mid := FilterMap(lo, f), FilterMap(hi, f), FilterMap([b[j]], f);
      assert FilterMap(b, f) == flo + mid + fhi by {
        FilterMapAppend(lo + [b[j]], hi, f);
        FilterMapAppend(lo, [b[j]], f);
      }
      assert FilterMap(lo + hi, f) == flo + fhi by {
        FilterMapAppend(lo, hi, f);
      }
      FilterMapSingle(b[j], f);
      assert multiset(flo + mid + fhi) == multiset(flo + fhi) + multiset(mid);
    }
  }
}
