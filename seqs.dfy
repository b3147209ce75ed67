/**
 * Sequence operations that stand in for the pandas calls of the pipeline:
 * boolean-mask filtering, `drop_duplicates` (first occurrence kept),
 * `value_counts` / `groupby(...).size()`, and `sort_values(ascending=False).head(n)`.
 */
module Seqs {
  import opened Wrappers

  /** `a` is `b` with some elements left out, the rest in the same order. */
  predicate IsSubseq<T(==)>(a: seq<T>, b: seq<T>) {
    if a == [] then true
    else if b == [] then false
    else if a[0] == b[0] then IsSubseq(a[1..], b[1..])
    else IsSubseq(a, b[1..])
  }

  /** A subsequence of `b` stays one when `b` is extended at the front. */
  lemma {:induction false} SubseqWeaken<T>(x: T, a: seq<T>, b: seq<T>)
    requires IsSubseq(a, b)
    ensures IsSubseq(a, [x] + b)
    decreases |b|, 1
  {
    assert ([x] + b)[1..] == b;
    if a != [] && a[0] == x {
      SubseqDropFirst(a, b);
    }
  }

  lemma {:induction false} SubseqDropFirst<T>(a: seq<T>, b: seq<T>)
    requires a != [] && IsSubseq(a, b)
    ensures IsSubseq(a[1..], b)
    decreases |b|, 0
  {
    assert b == [b[0]] + b[1..];
    if a[0] == b[0] {
      SubseqWeaken(b[0], a[1..], b[1..]);
    } else {
      SubseqDropFirst(a, b[1..]);
      SubseqWeaken(b[0], a[1..], b[1..]);
    }
  }

  lemma SubseqPrepend<T>(x: T, a: seq<T>, b: seq<T>)
    requires IsSubseq(a, b)
    ensures IsSubseq(a, [x] + b) && IsSubseq([x] + a, [x] + b)
  {
    SubseqWeaken(x, a, b);
    assert ([x] + b)[1..] == b;
    assert ([x] + a)[1..] == a;
  }

  /** A subset is no larger than its superset. */
  lemma {:induction false} SubsetCardinality<T>(a: set<T>, b: set<T>)
    requires a <= b
    ensures |a| <= |b|
  {
    if a != {} {
      var x :| x in a;
      SubsetCardinality(a - {x}, b - {x});
    }
  }

  /** A subsequence is no longer than the sequence it is drawn from. */
  lemma {:induction false} SubseqLength<T>(a: seq<T>, b: seq<T>)
    requires IsSubseq(a, b)
    ensures |a| <= |b|
  {
    if a != [] {
      if a[0] == b[0] {
        SubseqLength(a[1..], b[1..]);
      } else {
        SubseqLength(a, b[1..]);
      }
    }
  }

  /** Every sequence is a subsequence of itself. */
  lemma {:induction false} SubseqSelf<T>(s: seq<T>)
    ensures IsSubseq(s, s)
  {
    if s != [] {
      SubseqSelf(s[1..]);
    }
  }

  /** Indexing into a concatenation, for any element type. */
  lemma AppendAt<T>(a: seq<T>, b: seq<T>, k: nat)
    requires k < |a| + |b|
    ensures k < |a| ==> (a + b)[k] == a[k]
    ensures k >= |a| ==> (a + b)[k] == b[k - |a|]
  {
  }

  /** Indexing into a suffix, for any element type. */
  lemma DropAt<T>(s: seq<T>, n: nat, i: nat)
    requires n + i < |s|
    ensures s[n..][i] == s[n + i]
  {
  }

  /** The elements of `s` that satisfy `p`, in their order: `s[mask]`. */
  function Filter<T(==,!new)>(s: seq<T>, p: T -> bool): (r: seq<T>)
    ensures IsSubseq(r, s)
    ensures forall i :: 0 <= i < |r| ==> r[i] in s && p(r[i])
    ensures forall i :: 0 <= i < |s| && p(s[i]) ==> s[i] in r
    ensures forall x :: multiset(r)[x] == if p(x) then multiset(s)[x] else 0
  {
    if s == [] then []
    else
      var rest := Filter(s[1..], p);
      assert s == [s[0]] + s[1..];
      FilterStep(s[0], s[1..], rest, p);
      if p(s[0]) then [s[0]] + rest else rest
  }

  /** One more element in front: it joins the kept elements exactly when it satisfies `p`. */
  lemma FilterStep<T(!new)>(x: T, t: seq<T>, rest: seq<T>, p: T -> bool)
    requires IsSubseq(rest, t)
    requires forall i :: 0 <= i < |rest| ==> rest[i] in t && p(rest[i])
    requires forall i :: 0 <= i < |t| && p(t[i]) ==> t[i] in rest
    requires forall y :: multiset(rest)[y] == if p(y) then multiset(t)[y] else 0
    ensures var r := if p(x) then [x] + rest else rest;
      && IsSubseq(r, [x] + t)
      && (forall i :: 0 <= i < |r| ==> r[i] in [x] + t && p(r[i]))
      && (forall i :: 0 <= i < |[x] + t| && p(([x] + t)[i]) ==> ([x] + t)[i] in r)
      && (forall y :: multiset(r)[y] == if p(y) then multiset([x] + t)[y] else 0)
  {
    SubseqPrepend(x, rest, t);
    assert multiset([x] + t) == multiset{x} + multiset(t);
    if p(x) {
      assert multiset([x] + rest) == multiset{x} + multiset(rest);
    }
  }

  /** The keys of the elements of `s`. */
  function Keys<T, K>(s: seq<T>, key: T -> K): (keys: set<K>) {
    set i | 0 <= i < |s| :: key(s[i])
  }

  /** No two elements of `s` have the same key. */
  predicate DistinctKeys<T, K(==)>(s: seq<T>, key: T -> K) {
    forall i, j :: 0 <= i < j < |s| ==> key(s[i]) != key(s[j])
  }

  /** The scan behind `drop_duplicates`: skip any element whose key was already seen. */
  function DedupFrom<T(==), K(==)>(s: seq<T>, key: T -> K, seen: set<K>): (r: seq<T>)
    ensures IsSubseq(r, s)
    ensures DistinctKeys(r, key)
    ensures forall i :: 0 <= i < |r| ==> key(r[i]) !in seen
    ensures Keys(r, key) == Keys(s, key) - seen
  {
    if s == [] then []
    else
      KeysCons(s[0], s[1..], key);
      assert s == [s[0]] + s[1..];
      if key(s[0]) in seen then
        var r := DedupFrom(s[1..], key, seen);
        SubseqPrepend(s[0], r, s[1..]);
        r
      else
        var rest := DedupFrom(s[1..], key, seen + {key(s[0])});
        SubseqPrepend(s[0], rest, s[1..]);
        KeysCons(s[0], rest, key);
        ConsDistinctKeys(s[0], rest, key);
        [s[0]] + rest
  }

  lemma KeysCons<T, K>(x: T, s: seq<T>, key: T -> K)
    ensures Keys([x] + s, key) == {key(x)} + Keys(s, key)
  {
    var r := [x] + s;
    forall k | k in Keys(r, key) ensures k in {key(x)} + Keys(s, key) {
      var i :| 0 <= i < |r| && key(r[i]) == k;
      if i > 0 { assert key(s[i - 1]) == k; }
    }
    forall k | k in Keys(s, key) ensures k in Keys(r, key) {
      var i :| 0 <= i < |s| && key(s[i]) == k;
      assert key(r[i + 1]) == k;
    }
    assert key(r[0]) == key(x);
  }

  lemma ConsDistinctKeys<T, K>(x: T, s: seq<T>, key: T -> K)
    requires DistinctKeys(s, key)
    requires forall i :: 0 <= i < |s| ==> key(s[i]) != key(x)
    ensures DistinctKeys([x] + s, key)
  {
    var r := [x] + s;
    forall i, j | 0 <= i < j < |r| ensures key(r[i]) != key(r[j]) {
      assert r[j] == s[j - 1];
      if i > 0 { assert r[i] == s[i - 1]; }
    }
  }

  /**
   * `drop_duplicates(subset=[key], keep="first")`: at most one element per key,
   * every key of the input still present, the input order kept.
   */
  function Dedup<T(==), K(==)>(s: seq<T>, key: T -> K): (r: seq<T>)
    ensures IsSubseq(r, s)
    ensures DistinctKeys(r, key)
    ensures Keys(r, key) == Keys(s, key)
  {
    DedupFrom(s, key, {})
  }

  /** No element before position `i` has the key of `s[i]`. */
  predicate IsFirst<T, K(==)>(s: seq<T>, key: T -> K, i: nat)
    requires i < |s|
  {
    forall j :: 0 <= j < i ==> key(s[j]) != key(s[i])
  }

  /** Reference definition: the elements `s[i]`, `i >= k`, that are the first of their key. */
  function FirstsFrom<T, K(==)>(s: seq<T>, key: T -> K, k: nat): (firsts: seq<T>)
    requires k <= |s|
    decreases |s| - k
  {
    if k == |s| then []
    else (if IsFirst(s, key, k) then [s[k]] else []) + FirstsFrom(s, key, k + 1)
  }

  lemma {:induction false} DedupFromFirsts<T, K>(s: seq<T>, key: T -> K, k: nat)
    requires k <= |s|
    ensures DedupFrom(s[k..], key, Keys(s[..k], key)) == FirstsFrom(s, key, k)
    decreases |s| - k
  {
    if k < |s| {
      var seen := Keys(s[..k], key);
      var t := s[k..];
      assert t[0] == s[k] && t[1..] == s[k + 1..];
      assert key(s[k]) in seen <==> !IsFirst(s, key, k) by {
        if key(s[k]) in seen {
          var j :| 0 <= j < k && key(s[..k][j]) == key(s[k]);
          assert key(s[j]) == key(s[k]);
        }
        if !IsFirst(s, key, k) {
          var j :| 0 <= j < k && key(s[j]) == key(s[k]);
          assert key(s[..k][j]) == key(s[k]);
        }
      }
      var next := Keys(s[..k + 1], key);
      KeysPrefixStep(s, key, k);
      DedupFromFirsts(s, key, k + 1);
      if key(s[k]) in seen {
        assert next == seen;
      }
    }
  }

  /** One more element of the prefix adds its key to the keys seen. */
  lemma KeysPrefixStep<T, K>(s: seq<T>, key: T -> K, k: nat)
    requires k < |s|
    ensures Keys(s[..k + 1], key) == Keys(s[..k], key) + {key(s[k])}
  {
    var next := Keys(s[..k + 1], key);
    var seen := Keys(s[..k], key);
    forall x | x in next ensures x in seen + {key(s[k])} {
      var j :| 0 <= j < k + 1 && key(s[..k + 1][j]) == x;
      if j < k { assert key(s[..k][j]) == x; }
    }
    forall x | x in seen ensures x in next {
      var j :| 0 <= j < k && key(s[..k][j]) == x;
      assert key(s[..k + 1][j]) == x;
    }
    assert key(s[..k + 1][k]) == key(s[k]);
  }

  /** `Dedup` keeps exactly the first occurrence of each key, in input order. */
  lemma DedupKeepsFirsts<T, K>(s: seq<T>, key: T -> K)
    ensures Dedup(s, key) == FirstsFrom(s, key, 0)
  {
    assert s[0..] == s;
    assert Keys(s[..0], key) == {};
    DedupFromFirsts(s, key, 0);
  }

  /** The distinct values of `s`, each at its first occurrence. */
  function Distinct<T(==, !new)>(s: seq<T>): (d: seq<T>)
    ensures forall i, j :: 0 <= i < j < |d| ==> d[i] != d[j]
    ensures forall x :: x in d <==> x in s
  {
    var d := Dedup(s, (x: T) => x);
    assert forall x :: x in d <==> x in Keys(d, (x: T) => x);
    assert forall x :: x in s <==> x in Keys(s, (x: T) => x);
    d
  }

  /** Sum of the counts of a tally. */
  function SumCounts<T>(t: seq<(T, nat)>): (sum: nat) {
    if t == [] then 0 else t[0].1 + SumCounts(t[1..])
  }

  /** Sum of the multiplicities in `m` of the values listed in `d`. */
  function SumOver<T>(d: seq<T>, m: multiset<T>): (sum: nat) {
    if d == [] then 0 else m[d[0]] + SumOver(d[1..], m)
  }

  lemma {:induction false} SumOverAdd<T>(d: seq<T>, m: multiset<T>, a: T)
    requires forall i, j :: 0 <= i < j < |d| ==> d[i] != d[j]
    ensures SumOver(d, m + multiset{a}) == SumOver(d, m) + (if a in d then 1 else 0)
  {
    if d != [] {
      SumOverAdd(d[1..], m, a);
      assert a in d <==> a == d[0] || a in d[1..];
    }
  }

  /** Summing the multiplicities of a duplicate-free list covering `s` gives `|s|`. */
  lemma {:induction false} SumOverCovers<T>(d: seq<T>, s: seq<T>)
    requires forall i, j :: 0 <= i < j < |d| ==> d[i] != d[j]
    requires forall x :: x in s ==> x in d
    ensures SumOver(d, multiset(s)) == |s|
  {
    if s == [] {
      SumOverEmpty(d);
    } else {
      var init := s[..|s| - 1];
      assert s == init + [s[|s| - 1]];
      assert multiset(s) == multiset(init) + multiset{s[|s| - 1]};
      SumOverCovers(d, init);
      SumOverAdd(d, multiset(init), s[|s| - 1]);
    }
  }

  lemma {:induction false} SumOverEmpty<T>(d: seq<T>)
    ensures SumOver(d, multiset{}) == 0
  {
    if d != [] {
      SumOverEmpty(d[1..]);
    }
  }

  /**
   * `value_counts()` before sorting: one entry per distinct value of `s`, in
   * order of first occurrence, holding how often it occurs.
   */
  function Tally<T(==, !new)>(s: seq<T>): (t: seq<(T, nat)>)
    ensures forall i, j :: 0 <= i < j < |t| ==> t[i].0 != t[j].0
    ensures forall i :: 0 <= i < |t| ==> t[i].0 in s && t[i].1 == multiset(s)[t[i].0] && t[i].1 >= 1
    ensures forall x :: x in s ==> exists i :: 0 <= i < |t| && t[i].0 == x
    ensures SumCounts(t) == |s|
  {
    var d := Distinct(s);
    var t := CountsOf(d, multiset(s));
    TallySum(t, d, multiset(s));
    SumOverCovers(d, s);
    TallyCovers(s, d, t);
    t
  }

  /** Each value of `d` paired with its multiplicity in `m`. */
  function CountsOf<T>(d: seq<T>, m: multiset<T>): (t: seq<(T, nat)>)
    ensures |t| == |d|
    ensures forall i :: 0 <= i < |d| ==> t[i] == (d[i], m[d[i]])
  {
    seq(|d|, i requires 0 <= i < |d| => (d[i], m[d[i]]))
  }

  lemma TallyCovers<T>(s: seq<T>, d: seq<T>, t: seq<(T, nat)>)
    requires forall x :: x in d <==> x in s
    requires |t| == |d| && forall i :: 0 <= i < |d| ==> t[i] == (d[i], multiset(s)[d[i]])
    ensures forall i :: 0 <= i < |t| ==> t[i].0 in s && t[i].1 == multiset(s)[t[i].0] && t[i].1 >= 1
    ensures forall x :: x in s ==> exists i :: 0 <= i < |t| && t[i].0 == x
  {
    forall i | 0 <= i < |t| ensures t[i].0 in s && t[i].1 >= 1 {
      assert d[i] in d;
    }
    forall x | x in s ensures exists i :: 0 <= i < |t| && t[i].0 == x {
      assert x in d;
      var i :| 0 <= i < |d| && d[i] == x;
      assert t[i].0 == x;
    }
  }

  lemma {:induction false} TallySum<T>(t: seq<(T, nat)>, d: seq<T>, m: multiset<T>)
    requires |t| == |d|
    requires forall i :: 0 <= i < |d| ==> t[i] == (d[i], m[d[i]])
    ensures SumCounts(t) == SumOver(d, m)
  {
    if d != [] {
      TallySum(t[1..], d[1..], m);
    }
  }

  /** Taking out the entry at `k` takes its count out of the sum. */
  lemma SumCountsRemove<T>(b: seq<(T, nat)>, k: nat)
    requires k < |b|
    ensures SumCounts(b) == b[k].1 + SumCounts(b[..k] + b[k + 1..])
  {
    var pre, post := b[..k], b[k + 1..];
    var tail := [b[k]] + post;
    assert b == pre + tail;
    assert tail[0] == b[k] && tail[1..] == post;
    assert SumCounts(tail) == b[k].1 + SumCounts(post);
    SumCountsAppend(pre, tail);
    SumCountsAppend(pre, post);
  }

  /** A position of `x` in `b`, given that `x` is in a multiset equal to `b`'s. */
  lemma IndexIn<T>(b: seq<T>, x: T, m: multiset<T>) returns (k: nat)
    requires x in m && m == multiset(b)
    ensures k < |b| && b[k] == x
  {
    assert x in b;
    k :| 0 <= k < |b| && b[k] == x;
  }

  /** Taking the same element out of two equal multisets leaves equal multisets. */
  lemma RemoveBoth<T>(a: seq<T>, b: seq<T>, k: nat)
    requires a != [] && k < |b| && b[k] == a[0] && multiset(a) == multiset(b)
    ensures multiset(a[1..]) == multiset(b[..k] + b[k + 1..])
  {
    var x := a[0];
    assert a == [x] + a[1..];
    assert b == b[..k] + [x] + b[k + 1..];
    assert multiset(b) == multiset{x} + multiset(b[..k] + b[k + 1..]);
    assert multiset(a) == multiset{x} + multiset(a[1..]);
    var rest := b[..k] + b[k + 1..];
    forall y ensures multiset(a[1..])[y] == multiset(rest)[y] {
      assert multiset(a)[y] == multiset{x}[y] + multiset(a[1..])[y];
      assert multiset(b)[y] == multiset{x}[y] + multiset(rest)[y];
    }
  }

  /** Sums of counts do not depend on the order of the entries. */
  lemma {:induction false} SumCountsPermutation<T>(a: seq<(T, nat)>, b: seq<(T, nat)>)
    requires multiset(a) == multiset(b)
    ensures SumCounts(a) == SumCounts(b)
    decreases |a|
  {
    if a != [] {
      var k := IndexIn(b, a[0], multiset(a));
      var rest := b[..k] + b[k + 1..];
      SumCountsRemove(b, k);
      RemoveBoth(a, b, k);
      SumCountsPermutation(a[1..], rest);
    }
  }

  lemma {:induction false} SumCountsAppend<T>(a: seq<(T, nat)>, b: seq<(T, nat)>)
    ensures SumCounts(a + b) == SumCounts(a) + SumCounts(b)
  {
    if a == [] {
      assert a + b == b;
    } else {
      assert (a + b)[1..] == a[1..] + b;
      SumCountsAppend(a[1..], b);
    }
  }

  /** Descending order of `key`. */
  predicate SortedDesc<T>(s: seq<T>, key: T -> int) {
    forall i, j :: 0 <= i < j < |s| ==> key(s[i]) >= key(s[j])
  }

  /** A head no smaller than the first element keeps a sorted list sorted. */
  lemma ConsSorted<T>(h: T, rest: seq<T>, key: T -> int)
    requires SortedDesc(rest, key)
    requires rest != [] ==> key(rest[0]) <= key(h)
    ensures SortedDesc([h] + rest, key)
  {
    var r := [h] + rest;
    forall i, j | 0 <= i < j < |r| ensures key(r[i]) >= key(r[j]) {
      assert r[j] == rest[j - 1];
      if i > 0 {
        assert r[i] == rest[i - 1];
      }
    }
  }

  function InsertDesc<T>(x: T, s: seq<T>, key: T -> int): (r: seq<T>)
    requires SortedDesc(s, key)
    ensures SortedDesc(r, key)
    ensures multiset(r) == multiset(s) + multiset{x}
    ensures |r| == |s| + 1 && (r[0] == x || (s != [] && r[0] == s[0]))
  {
    if s == [] || key(x) >= key(s[0]) then
      ConsSorted(x, s, key);
      [x] + s
    else
      var rest := InsertDesc(x, s[1..], key);
      InsertBehind(x, s, rest, key);
      [s[0]] + rest
  }

  /** The step of `InsertDesc` that keeps the head and inserts behind it. */
  lemma InsertBehind<T>(x: T, s: seq<T>, rest: seq<T>, key: T -> int)
    requires SortedDesc(s, key) && s != [] && key(x) < key(s[0])
    requires SortedDesc(rest, key) && |rest| == |s|
    requires multiset(rest) == multiset(s[1..]) + multiset{x}
    requires rest[0] == x || (s[1..] != [] && rest[0] == s[1..][0])
    ensures SortedDesc([s[0]] + rest, key)
    ensures multiset([s[0]] + rest) == multiset(s) + multiset{x}
  {
    assert s == [s[0]] + s[1..];
    if rest[0] != x {
      assert key(rest[0]) == key(s[1]);
    }
    ConsSorted(s[0], rest, key);
  }

  /**
   * `sort_values(ascending=False)`: a descending permutation. Ties come out
   * in some order that the contract leaves open.
   */
  function SortDesc<T>(s: seq<T>, key: T -> int): (r: seq<T>)
    ensures SortedDesc(r, key)
    ensures multiset(r) == multiset(s)
    ensures |r| == |s|
  {
    if s == [] then []
    else
      assert s == [s[0]] + s[1..];
      InsertDesc(s[0], SortDesc(s[1..], key), key)
  }

  /**
   * `sort_values(ascending=False).head(n)`: the `min(n, |s|)` elements with the
   * largest keys, largest first; nothing left out has a larger key than
   * anything kept.
   */
  function Top<T>(s: seq<T>, key: T -> int, n: nat): (r: seq<T>)
    ensures |r| == Min(n, |s|)
    ensures SortedDesc(r, key)
    ensures multiset(r) <= multiset(s)
    ensures forall x, y :: x in multiset(s) - multiset(r) && y in r ==> key(x) <= key(y)
  {
    var t := SortDesc(s, key);
    var k := Min(n, |s|);
    SortedPrefix(t, k, key);
    t[..k]
  }

  /** A prefix of a sorted list is sorted and holds its largest elements. */
  lemma SortedPrefix<T>(t: seq<T>, k: nat, key: T -> int)
    requires SortedDesc(t, key) && k <= |t|
    ensures SortedDesc(t[..k], key)
    ensures multiset(t) - multiset(t[..k]) == multiset(t[k..])
    ensures forall x, y :: x in multiset(t[k..]) && y in t[..k] ==> key(x) <= key(y)
  {
    assert t == t[..k] + t[k..];
    forall x, y | x in multiset(t[k..]) && y in t[..k]
      ensures key(x) <= key(y)
    {
      var a :| 0 <= a < |t[k..]| && t[k..][a] == x;
      var b :| 0 <= b < k && t[..k][b] == y;
      assert t[b] == y && t[k + a] == x;
    }
  }


  /** In a sequence whose elements have distinct keys, each element occurs at most once. */
  lemma {:induction false} DistinctKeysOnce<T, K>(t: seq<T>, key: T -> K, x: T)
    requires DistinctKeys(t, key)
    ensures multiset(t)[x] <= 1
  {
    if t != [] {
      assert t == [t[0]] + t[1..];
      assert DistinctKeys(t[1..], key) by {
        forall i, j | 0 <= i < j < |t[1..]| ensures key(t[1..][i]) != key(t[1..][j]) {
          assert t[1..][i] == t[i + 1] && t[1..][j] == t[j + 1];
        }
      }
      DistinctKeysOnce(t[1..], key, x);
      if t[0] == x {
        assert x !in t[1..] by {
          forall i | 0 <= i < |t[1..]| ensures t[1..][i] != x {
            assert t[1..][i] == t[i + 1];
          }
        }
      }
    }
  }

  /** An element found at two positions occurs at least twice. */
  lemma TwiceInMultiset<T>(r: seq<T>, i: nat, j: nat)
    requires i < j < |r| && r[i] == r[j]
    ensures multiset(r)[r[i]] >= 2
  {
    var x := r[i];
    assert r == r[..i] + [x] + r[i + 1..j] + [x] + r[j + 1..];
    assert multiset(r) == multiset(r[..i]) + multiset{x} + multiset(r[i + 1..j]) + multiset{x} + multiset(r[j + 1..]);
  }

  /**
   * Reordering a sequence with distinct keys, or keeping only some of its
   * elements, leaves the keys distinct.
   */
  lemma DistinctKeysSubmultiset<T, K>(t: seq<T>, r: seq<T>, key: T -> K)
    requires DistinctKeys(t, key) && multiset(r) <= multiset(t)
    ensures DistinctKeys(r, key)
  {
    forall i, j | 0 <= i < j < |r| ensures key(r[i]) != key(r[j]) {
      assert r[i] in multiset(r) && r[j] in multiset(r);
      assert r[i] in multiset(t) && r[j] in multiset(t);
      var a :| 0 <= a < |t| && t[a] == r[i];
      var b :| 0 <= b < |t| && t[b] == r[j];
      if r[i] == r[j] {
        TwiceInMultiset(r, i, j);
        DistinctKeysOnce(t, key, r[i]);
      } else {
        assert a != b;
      }
    }
  }

  /**
   * `value_counts()` and `groupby(...).size()`: a tally of `s` put in
   * descending order of `order`. Each distinct value of `s` appears once,
   * with its number of occurrences, and the counts add up to `|s|`.
   */
  function SortedTally<T(==, !new)>(s: seq<T>, order: ((T, nat)) -> int): (t: seq<(T, nat)>)
    ensures SortedDesc(t, order)
    ensures forall i, j :: 0 <= i < j < |t| ==> t[i].0 != t[j].0
    ensures forall i :: 0 <= i < |t| ==> t[i].0 in s && t[i].1 == multiset(s)[t[i].0]
    ensures forall x :: x in s ==> exists i :: 0 <= i < |t| && t[i].0 == x
    ensures SumCounts(t) == |s|
  {
    var u := Tally(s);
    var t := SortDesc(u, order);
    DistinctKeysSubmultiset(u, t, (p: (T, nat)) => p.0);
    SumCountsPermutation(t, u);
    forall i | 0 <= i < |t| ensures t[i].0 in s && t[i].1 == multiset(s)[t[i].0] {
      assert t[i] in multiset(u);
    }
    forall x | x in s ensures exists i :: 0 <= i < |t| && t[i].0 == x {
      var j :| 0 <= j < |u| && u[j].0 == x;
      assert u[j] in multiset(t);
    }
    t
  }
}
