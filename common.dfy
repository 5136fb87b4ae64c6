/**
 * Sequence, set and map helpers shared by the modules of the model.
 *
 * Every list function here is defined by recursion on the LAST element, so
 * that a forward loop which appends (the way JavaScript code pushes onto an
 * array) matches the definition step by step.
 */
module Common {

  datatype Option<T> = None | Some(value: T)

  /** The value of an optional field, or a default (JavaScript `x ?? d`). */
  function GetOr<T>(o: Option<T>, d: T): T
  {
    if o.Some? then o.value else d
  }

  // ---------------------------------------------------------------------
  // Filter (`Array.prototype.filter`)
  // ---------------------------------------------------------------------

  function Filter<T>(s: seq<T>, p: T -> bool): (r: seq<T>)
    ensures |r| <= |s|
    ensures forall i :: 0 <= i < |r| ==> r[i] in s && p(r[i])
    ensures forall i :: 0 <= i < |s| && p(s[i]) ==> s[i] in r
  {
    if s == [] then []
    else Filter(s[..|s| - 1], p) + (if p(s[|s| - 1]) then [s[|s| - 1]] else [])
  }

  lemma {:induction false} FilterConcat<T>(a: seq<T>, b: seq<T>, p: T -> bool)
    ensures Filter(a + b, p) == Filter(a, p) + Filter(b, p)
    decreases |b|
  {
    if b == [] {
      assert a + b == a;
    } else {
      var b' := b[..|b| - 1];
      assert (a + b)[..|a + b| - 1] == a + b';
      assert (a + b)[|a + b| - 1] == b[|b| - 1];
      FilterConcat(a, b', p);
    }
  }

  lemma {:induction false} FilterNone<T>(s: seq<T>, p: T -> bool)
    requires forall i :: 0 <= i < |s| ==> !p(s[i])
    ensures Filter(s, p) == []
    decreases |s|
  {
    if s != [] { FilterNone(s[..|s| - 1], p); }
  }

  lemma FilterSingle<T>(x: T, p: T -> bool)
    ensures Filter([x], p) == if p(x) then [x] else []
  {
    assert [x][..0] == [];
  }

  lemma {:induction false} FilterAll<T>(s: seq<T>, p: T -> bool)
    requires forall x :: x in s ==> p(x)
    ensures Filter(s, p) == s
    decreases |s|
  {
    if s != [] {
      var init := s[..|s| - 1];
      forall x | x in init ensures p(x) {
        var k :| 0 <= k < |init| && init[k] == x;
        assert s[k] == x;
      }
      FilterAll(init, p);
      assert init + [s[|s| - 1]] == s;
    }
  }

  lemma FilterSnoc<T>(s: seq<T>, i: nat, p: T -> bool)
    requires i < |s|
    ensures Filter(s[..i + 1], p) == Filter(s[..i], p) + (if p(s[i]) then [s[i]] else [])
  {
    assert s[..i + 1][..i] == s[..i];
  }

  lemma FilterMembers<T>(s: seq<T>, p: T -> bool, x: T)
    ensures x in Filter(s, p) <==> x in s && p(x)
  {
    if x in Filter(s, p) {
      var k :| 0 <= k < |Filter(s, p)| && Filter(s, p)[k] == x;
    }
    if x in s {
      var k :| 0 <= k < |s| && s[k] == x;
    }
  }

  lemma {:induction false} FilterKeepsNoDups<T>(s: seq<T>, p: T -> bool)
    requires NoDups(s)
    ensures NoDups(Filter(s, p))
    decreases |s|
  {
    if s != [] {
      var s' := s[..|s| - 1];
      assert NoDups(s');
      FilterKeepsNoDups(s', p);
      var x := s[|s| - 1];
      if p(x) {
        assert x !in s';
        assert x !in Filter(s', p);
      }
    }
  }

  /** Filtering by `p` and then by `q` is filtering by their conjunction `r`. */
  lemma {:induction false} FilterRefine<T>(s: seq<T>, p: T -> bool, q: T -> bool, r: T -> bool)
    requires forall i :: 0 <= i < |s| ==> (p(s[i]) && q(s[i])) == r(s[i])
    ensures Filter(Filter(s, p), q) == Filter(s, r)
    decreases |s|
  {
    if s != [] {
      var s' := s[..|s| - 1];
      var x := s[|s| - 1];
      FilterRefine(s', p, q, r);
      FilterConcat(Filter(s', p), if p(x) then [x] else [], q);
      if p(x) { FilterSingle(x, q); } else { var e: seq<T> := []; assert Filter(e, q) == []; }
    }
  }

  /** Filtering keeps the relative order: the result is a subsequence. */
  lemma {:induction false} FilterOfFilter<T>(s: seq<T>, p: T -> bool, q: T -> bool)
    ensures Filter(Filter(s, p), q) == Filter(s, x => p(x) && q(x))
    decreases |s|
  {
    if s != [] {
      var s' := s[..|s| - 1];
      var x := s[|s| - 1];
      FilterOfFilter(s', p, q);
      FilterConcat(Filter(s', p), if p(x) then [x] else [], q);
      if p(x) { FilterSingle(x, q); } else { var e: seq<T> := []; assert Filter(e, q) == []; }
    }
  }

  /** Number of elements satisfying `p`, with multiplicity. */
  function Count<T>(s: seq<T>, p: T -> bool): (n: nat)
    ensures n <= |s|
    ensures n == 0 <==> forall x :: x in s ==> !p(x)
  {
    if s == [] then 0
    else Count(s[..|s| - 1], p) + (if p(s[|s| - 1]) then 1 else 0)
  }

  lemma {:induction false} CountIsFilterLength<T>(s: seq<T>, p: T -> bool)
    ensures Count(s, p) == |Filter(s, p)|
    decreases |s|
  {
    if s != [] { CountIsFilterLength(s[..|s| - 1], p); }
  }

  /** `s.slice(0, n)`: the first `n` elements, or all of them when there are fewer. */
  function Take<T>(s: seq<T>, n: nat): (r: seq<T>)
    ensures |r| == if |s| < n then |s| else n
    ensures r == s[..|r|]
  {
    if |s| <= n then s else s[..n]
  }

  // ---------------------------------------------------------------------
  // Map over a sequence (`Array.prototype.map`) and flattening (`flatMap`)
  // ---------------------------------------------------------------------

  function MapSeq<T, U>(s: seq<T>, f: T -> U): (r: seq<U>)
    ensures |r| == |s|
    ensures forall i :: 0 <= i < |s| ==> r[i] == f(s[i])
  {
    if s == [] then [] else MapSeq(s[..|s| - 1], f) + [f(s[|s| - 1])]
  }

  lemma MapSeqSnoc<T, U>(s: seq<T>, i: nat, f: T -> U)
    requires i < |s|
    ensures MapSeq(s[..i + 1], f) == MapSeq(s[..i], f) + [f(s[i])]
  {
    assert s[..i + 1][..i] == s[..i];
  }

  lemma MapSeqConcat<T, U>(a: seq<T>, b: seq<T>, f: T -> U)
    ensures MapSeq(a + b, f) == MapSeq(a, f) + MapSeq(b, f)
  {
  }

  /** What survives a filter after a map is the image of some input that passes the filter. */
  lemma FilterMapEntry<T, U>(s: seq<T>, f: T -> U, p: U -> bool, x: U)
    requires x in Filter(MapSeq(s, f), p)
    ensures p(x) && exists i :: 0 <= i < |s| && x == f(s[i])
  {
    FilterMembers(MapSeq(s, f), p, x);
    MapSeqEntry(s, f, x);
  }

  /** Every element of a map is the image of an input. */
  lemma MapSeqEntry<T, U>(s: seq<T>, f: T -> U, x: U)
    requires x in MapSeq(s, f)
    ensures exists i :: 0 <= i < |s| && x == f(s[i])
  {
    var ys := MapSeq(s, f);
    var i :| 0 <= i < |ys| && ys[i] == x;
    assert x == f(s[i]);
  }

  /** `s.map((x, i) => f(i, x))` */
  function MapIndexed<T, U>(s: seq<T>, f: (nat, T) -> U): (r: seq<U>)
    ensures |r| == |s|
    ensures forall i :: 0 <= i < |s| ==> r[i] == f(i, s[i])
  {
    if s == [] then [] else MapIndexed(s[..|s| - 1], f) + [f(|s| - 1, s[|s| - 1])]
  }

  /** `ss.flat()`; its members are described by `FlattenMembers`. */
  function Flatten<T>(ss: seq<seq<T>>): seq<T>
  {
    if ss == [] then [] else Flatten(ss[..|ss| - 1]) + ss[|ss| - 1]
  }

  /** `s.flatMap(f)` */
  function ConcatMap<T, U>(s: seq<T>, f: T -> seq<U>): seq<U>
  {
    if s == [] then [] else ConcatMap(s[..|s| - 1], f) + f(s[|s| - 1])
  }

  lemma {:induction false} ConcatMapMembers<T, U>(s: seq<T>, f: T -> seq<U>, x: U)
    ensures x in ConcatMap(s, f) <==> exists i :: 0 <= i < |s| && x in f(s[i])
    decreases |s|
  {
    if s != [] {
      var p := s[..|s| - 1];
      ConcatMapMembers(p, f, x);
      if x in ConcatMap(p, f) {
        var i :| 0 <= i < |p| && x in f(p[i]);
        assert s[i] == p[i];
      }
      if exists i :: 0 <= i < |s| && x in f(s[i]) {
        var i :| 0 <= i < |s| && x in f(s[i]);
        if i < |p| { assert p[i] == s[i]; }
      }
    }
  }

  // ---------------------------------------------------------------------
  // De-duplication in first-occurrence order (`Array.from(new Set(s))`)
  // ---------------------------------------------------------------------

  predicate NoDups<T(==)>(s: seq<T>)
  {
    forall i, j :: 0 <= i < j < |s| ==> s[i] != s[j]
  }

  function Dedup<T(==)>(s: seq<T>): (r: seq<T>)
    ensures forall k :: 0 <= k < |r| ==> r[k] in s
    ensures forall k :: 0 <= k < |s| ==> s[k] in r
    ensures NoDups(r)
    ensures |r| <= |s|
  {
    if s == [] then []
    else
      var p := Dedup(s[..|s| - 1]);
      var x := s[|s| - 1];
      if x in p then p else p + [x]
  }

  /** Adding each of `s`, in order, to an insertion-ordered set holding `prev` (`s.forEach(x => set.add(x))`). */
  function AddAll<T(==)>(prev: seq<T>, s: seq<T>): seq<T>
  {
    if s == [] then prev
    else
      var p := AddAll(prev, s[..|s| - 1]);
      if s[|s| - 1] in p then p else p + [s[|s| - 1]]
  }

  /** Nothing is removed and nothing reordered; duplicates never appear; exactly the old and the added members. */
  lemma {:induction false} AddAllProps<T>(prev: seq<T>, s: seq<T>)
    ensures |AddAll(prev, s)| >= |prev| && AddAll(prev, s)[..|prev|] == prev
    ensures NoDups(prev) ==> NoDups(AddAll(prev, s))
    ensures forall x :: x in AddAll(prev, s) <==> x in prev || x in s
    decreases |s|
  {
    if s != [] {
      var s' := s[..|s| - 1];
      AddAllProps(prev, s');
      var p := AddAll(prev, s');
      assert forall x :: x in s <==> x in s' || x == s[|s| - 1] by {
        assert s == s' + [s[|s| - 1]];
      }
      if s[|s| - 1] !in p {
        assert (p + [s[|s| - 1]])[..|prev|] == p[..|prev|];
      }
    }
  }

  lemma AddAllStep<T>(prev: seq<T>, s: seq<T>, i: nat)
    requires i < |s|
    ensures AddAll(prev, s[..i + 1]) == if s[i] in AddAll(prev, s[..i]) then AddAll(prev, s[..i]) else AddAll(prev, s[..i]) + [s[i]]
  {
    assert s[..i + 1][..i] == s[..i];
  }

  lemma DedupMembers<T>(s: seq<T>, x: T)
    ensures x in Dedup(s) <==> x in s
  {
    var r := Dedup(s);
    if x in r { var k :| 0 <= k < |r| && r[k] == x; }
    if x in s { var k :| 0 <= k < |s| && s[k] == x; }
  }

  lemma {:induction false} FlattenMembers<T>(ss: seq<seq<T>>, x: T)
    ensures x in Flatten(ss) <==> exists i :: 0 <= i < |ss| && x in ss[i]
    decreases |ss|
  {
    if ss != [] {
      var p := ss[..|ss| - 1];
      FlattenMembers(p, x);
      if x in Flatten(p) {
        var i :| 0 <= i < |p| && x in p[i];
        assert ss[i] == p[i];
      }
      if exists i :: 0 <= i < |ss| && x in ss[i] {
        var i :| 0 <= i < |ss| && x in ss[i];
        if i < |p| { assert p[i] == ss[i]; }
      }
    }
  }

  /** Index of the first occurrence of `x` in `s`. */
  function FirstIndex<T(==)>(s: seq<T>, x: T): (i: nat)
    requires x in s
    ensures i < |s| && s[i] == x
    ensures forall j :: 0 <= j < i ==> s[j] != x
  {
    if s[0] == x then 0 else 1 + FirstIndex(s[1..], x)
  }

  lemma FirstIndexInPrefix<T>(s: seq<T>, n: nat, x: T)
    requires n <= |s| && x in s[..n]
    ensures FirstIndex(s, x) == FirstIndex(s[..n], x)
  {
    var i := FirstIndex(s[..n], x);
    var k := FirstIndex(s, x);
    assert s[i] == x;
    assert forall j :: 0 <= j < i ==> s[j] != x by {
      forall j | 0 <= j < i ensures s[j] != x { assert s[..n][j] == s[j]; }
    }
  }

  lemma FirstIndexOfLast<T>(s: seq<T>, x: T)
    requires x !in s
    ensures FirstIndex(s + [x], x) == |s|
  {
    forall j | 0 <= j < |s| ensures (s + [x])[j] != x {
      assert (s + [x])[j] == s[j];
    }
  }

  /** `Dedup` lists the distinct elements in order of their first occurrence. */
  lemma {:induction false} DedupOrder<T>(s: seq<T>)
    ensures forall i, j :: 0 <= i < j < |Dedup(s)| ==>
      FirstIndex(s, Dedup(s)[i]) < FirstIndex(s, Dedup(s)[j])
    decreases |s|
  {
    if s != [] {
      var s' := s[..|s| - 1];
      var x := s[|s| - 1];
      var p := Dedup(s');
      DedupOrder(s');
      assert s' + [x] == s;
      forall y | y in p ensures FirstIndex(s, y) == FirstIndex(s', y) {
        assert s' == s[..|s| - 1];
        FirstIndexInPrefix(s, |s| - 1, y);
      }
      if x !in p {
        FirstIndexOfLast(s', x);
        forall y | y in p ensures FirstIndex(s, y) < FirstIndex(s, x) {
        }
      }
    }
  }

  lemma {:induction false} DedupNoDupsIdentity<T>(s: seq<T>)
    requires NoDups(s)
    ensures Dedup(s) == s
    decreases |s|
  {
    if s != [] {
      var s' := s[..|s| - 1];
      assert NoDups(s');
      DedupNoDupsIdentity(s');
      assert forall k :: 0 <= k < |s'| ==> s'[k] != s[|s| - 1] by {
        forall k | 0 <= k < |s'| ensures s'[k] != s[|s| - 1] { assert s'[k] == s[k]; }
      }
      assert s' + [s[|s| - 1]] == s;
    }
  }

  // ---------------------------------------------------------------------
  // Keyed dictionary built by a loop `d[key(x)] = x`: the last one wins
  // ---------------------------------------------------------------------

  function IndexBy<T>(s: seq<T>, key: T -> string): (m: map<string, T>)
    ensures forall i :: 0 <= i < |s| ==> key(s[i]) in m
    ensures forall k :: k in m ==> exists i :: 0 <= i < |s| && key(s[i]) == k
    ensures |s| > 0 ==> m[key(s[|s| - 1])] == s[|s| - 1]
  {
    if s == [] then map[]
    else
      var m := IndexBy(s[..|s| - 1], key)[key(s[|s| - 1]) := s[|s| - 1]];
      assert forall i :: 0 <= i < |s| - 1 ==> key(s[i]) in m by {
        forall i | 0 <= i < |s| - 1 ensures key(s[i]) in m { assert s[i] == s[..|s| - 1][i]; }
      }
      assert forall k :: k in m ==> exists i :: 0 <= i < |s| && key(s[i]) == k by {
        forall k | k in m ensures exists i :: 0 <= i < |s| && key(s[i]) == k {
          if k != key(s[|s| - 1]) {
            var i :| 0 <= i < |s| - 1 && key(s[..|s| - 1][i]) == k;
            assert key(s[i]) == k;
          }
        }
      }
      m
  }

  /** The entry for a key is the LAST element carrying that key. */
  lemma {:induction false} IndexByLastWins<T>(s: seq<T>, key: T -> string, i: nat)
    requires i < |s|
    requires forall j :: i < j < |s| ==> key(s[j]) != key(s[i])
    ensures IndexBy(s, key)[key(s[i])] == s[i]
    decreases |s|
  {
    if i < |s| - 1 {
      var s' := s[..|s| - 1];
      assert s'[i] == s[i];
      IndexByLastWins(s', key, i);
    }
  }

  // ---------------------------------------------------------------------
  // Stable sort (`Array.prototype.sort`, stable since ECMAScript 2019)
  // ---------------------------------------------------------------------

  /** Whether a key `a` may stay in front of `b`: not larger ascending, not smaller descending. */
  predicate InOrder(desc: bool, a: real, b: real)
  {
    if desc then a >= b else a <= b
  }

  /** `y` is inserted after every element of `t` that may stay in front of it. */
  function InsertBy<T>(t: seq<T>, y: T, key: T -> real, desc: bool): (r: seq<T>)
    ensures multiset(r) == multiset(t) + multiset{y}
    ensures |r| == |t| + 1
  {
    if t == [] then [y]
    else if InOrder(desc, key(t[|t| - 1]), key(y)) then t + [y]
    else
      var r := InsertBy(t[..|t| - 1], y, key, desc) + [t[|t| - 1]];
      assert t[..|t| - 1] + [t[|t| - 1]] == t;
      r
  }

  /**
   * The order `Array.prototype.sort` produces with the comparator
   * `(a, b) => key(a) - key(b)` (ascending) or `(a, b) => key(b) - key(a)`
   * (descending): ordered by key, and stable.
   */
  function SortBy<T>(s: seq<T>, key: T -> real, desc: bool): (r: seq<T>)
    ensures multiset(r) == multiset(s)
    ensures |r| == |s|
  {
    if s == [] then []
    else
      var r := InsertBy(SortBy(s[..|s| - 1], key, desc), s[|s| - 1], key, desc);
      assert s[..|s| - 1] + [s[|s| - 1]] == s;
      r
  }

  predicate SortedBy<T>(s: seq<T>, key: T -> real, desc: bool)
  {
    forall i, j :: 0 <= i < j < |s| ==> InOrder(desc, key(s[i]), key(s[j]))
  }

  lemma {:induction false} InsertSorted<T>(t: seq<T>, y: T, key: T -> real, desc: bool)
    requires SortedBy(t, key, desc)
    ensures SortedBy(InsertBy(t, y, key, desc), key, desc)
    decreases |t|
  {
    if t != [] && !InOrder(desc, key(t[|t| - 1]), key(y)) {
      var t' := t[..|t| - 1];
      var last := t[|t| - 1];
      assert forall i :: 0 <= i < |t'| ==> t'[i] == t[i];
      InsertSorted(t', y, key, desc);
      InsertBounded(t', y, key, desc, key(last));
      var u := InsertBy(t', y, key, desc);
      var r := u + [last];
      forall i, j | 0 <= i < j < |r| ensures InOrder(desc, key(r[i]), key(r[j])) {
        if j == |r| - 1 { assert r[i] in u; }
      }
    }
  }

  /** Inserting keeps a bound every key may stay in front of. */
  lemma InsertBounded<T>(t: seq<T>, y: T, key: T -> real, desc: bool, b: real)
    requires forall i :: 0 <= i < |t| ==> InOrder(desc, key(t[i]), b)
    requires InOrder(desc, key(y), b)
    ensures forall x :: x in InsertBy(t, y, key, desc) ==> InOrder(desc, key(x), b)
  {
    var u := InsertBy(t, y, key, desc);
    forall x | x in u ensures InOrder(desc, key(x), b) {
      assert x in multiset(u);
      if x != y {
        assert x in multiset(t);
        var k :| 0 <= k < |t| && t[k] == x;
      }
    }
  }

  lemma {:induction false} SortBySorted<T>(s: seq<T>, key: T -> real, desc: bool)
    ensures SortedBy(SortBy(s, key, desc), key, desc)
    decreases |s|
  {
    if s != [] {
      SortBySorted(s[..|s| - 1], key, desc);
      InsertSorted(SortBy(s[..|s| - 1], key, desc), s[|s| - 1], key, desc);
    }
  }

  /** A duplicate-free sequence holds at most one copy of each value. */
  lemma {:induction false} NoDupsAtMostOnce<T>(s: seq<T>, x: T)
    requires NoDups(s)
    ensures multiset(s)[x] <= 1
    decreases |s|
  {
    if s != [] {
      var s' := s[1..];
      assert s == [s[0]] + s';
      assert forall k :: 0 <= k < |s'| ==> s'[k] == s[k + 1];
      NoDupsAtMostOnce(s', x);
      assert s[0] !in s';
    }
  }

  /** A permutation of a duplicate-free sequence is duplicate-free. */
  lemma PermutationNoDups<T>(s: seq<T>, t: seq<T>)
    requires NoDups(s) && multiset(s) == multiset(t)
    ensures NoDups(t)
  {
    forall i, j | 0 <= i < j < |t| ensures t[i] != t[j] {
      NoDupsAtMostOnce(s, t[i]);
      assert t == t[..j] + t[j..];
      assert t[i] in t[..j];
      assert t[j..][0] == t[j];
    }
  }

  /** The predicate "has key `k`". */
  function KeyIs<T>(key: T -> real, k: real): T -> bool
  {
    x => key(x) == k
  }

  lemma {:induction false} InsertStable<T>(t: seq<T>, y: T, key: T -> real, desc: bool, k: real)
    ensures Filter(InsertBy(t, y, key, desc), KeyIs(key, k))
         == Filter(t, KeyIs(key, k)) + Filter([y], KeyIs(key, k))
    decreases |t|
  {
    var p := KeyIs(key, k);
    if t == [] {
      assert [] + [y] == [y];
    } else if InOrder(desc, key(t[|t| - 1]), key(y)) {
      FilterConcat(t, [y], p);
    } else {
      var t' := t[..|t| - 1];
      var last := t[|t| - 1];
      var u := InsertBy(t', y, key, desc);
      assert InsertBy(t, y, key, desc) == u + [last];
      InsertStable(t', y, key, desc, k);
      FilterConcat(u, [last], p);
      SplitLast(t);
      FilterConcat(t', [last], p);
      FilterSingle(y, p);
      FilterSingle(last, p);
      var a, fy, fl := Filter(t', p), Filter([y], p), Filter([last], p);
      assert fy == [] || fl == [];
      SwapWithEmpty(a, fy, fl);
      assert Filter(InsertBy(t, y, key, desc), p) == Filter(u + [last], p);
      assert Filter(u + [last], p) == (a + fy) + fl;
      assert Filter(t, p) == a + fl;
      calc {
        Filter(InsertBy(t, y, key, desc), p);
        (a + fy) + fl;
        (a + fl) + fy;
        Filter(t, p) + Filter([y], p);
      }
    }
  }

  lemma SplitLast<T>(t: seq<T>)
    requires t != []
    ensures t[..|t| - 1] + [t[|t| - 1]] == t
  {
  }

  lemma SwapWithEmpty<T>(a: seq<T>, b: seq<T>, c: seq<T>)
    requires b == [] || c == []
    ensures (a + b) + c == (a + c) + b
  {
  }

  /** Stability: the elements sharing any one key keep their input order. */
  lemma {:induction false} SortByStable<T>(s: seq<T>, key: T -> real, desc: bool, k: real)
    ensures Filter(SortBy(s, key, desc), KeyIs(key, k)) == Filter(s, KeyIs(key, k))
    decreases |s|
  {
    var p := KeyIs(key, k);
    if s != [] {
      var s' := s[..|s| - 1];
      SortByStable(s', key, desc, k);
      InsertStable(SortBy(s', key, desc), s[|s| - 1], key, desc, k);
      FilterSingle(s[|s| - 1], p);
    }
  }

  /**
   * The head of the sorted list is the FIRST input element whose key may
   * stay in front of every other key.
   */
  lemma {:induction false} SortByHead<T>(s: seq<T>, key: T -> real, desc: bool)
    requires |s| > 0
    ensures exists i :: (0 <= i < |s| && SortBy(s, key, desc)[0] == s[i]
      && (forall j :: 0 <= j < |s| ==> InOrder(desc, key(s[i]), key(s[j])))
      && (forall j :: 0 <= j < i ==> key(s[j]) != key(s[i])))
  {
    var h := SortBy(s, key, desc)[0];
    HeadIsInput(s, key, desc);
    var i := FirstMatch(s, KeyIs(key, key(h)));
    HeadIsFirstOfKey(s, key, desc, i);
    SortedHeadIsExtreme(s, key, desc);
    assert forall j :: 0 <= j < i ==> key(s[j]) != key(s[i]);
  }

  /** The head of the sorted list is an input element. */
  lemma {:induction false} HeadIsInput<T>(s: seq<T>, key: T -> real, desc: bool)
    requires |s| > 0
    ensures SortBy(s, key, desc)[0] in s
  {
    var r := SortBy(s, key, desc);
    assert r[0] in multiset(r);
  }

  /** The head of the sorted list is the first input element with the head's key. */
  lemma {:induction false} HeadIsFirstOfKey<T>(s: seq<T>, key: T -> real, desc: bool, i: nat)
    requires |s| > 0 && i < |s|
    requires key(s[i]) == key(SortBy(s, key, desc)[0])
    requires forall j :: 0 <= j < i ==> key(s[j]) != key(SortBy(s, key, desc)[0])
    ensures SortBy(s, key, desc)[0] == s[i]
  {
    var r := SortBy(s, key, desc);
    var p := KeyIs(key, key(r[0]));
    FilterHead(r, p, 0);
    FilterHead(s, p, i);
    SortByStable(s, key, desc, key(r[0]));
  }

  lemma {:induction false} SortedHeadIsExtreme<T>(s: seq<T>, key: T -> real, desc: bool)
    requires |s| > 0
    ensures forall j :: 0 <= j < |s| ==> InOrder(desc, key(SortBy(s, key, desc)[0]), key(s[j]))
  {
    var r := SortBy(s, key, desc);
    SortBySorted(s, key, desc);
    forall j | 0 <= j < |s| ensures InOrder(desc, key(r[0]), key(s[j])) {
      assert s[j] in multiset(r);
      var m :| 0 <= m < |r| && r[m] == s[j];
    }
  }

  // ---------------------------------------------------------------------
  // Ascending stable sort (`sort((a, b) => key(a) - key(b))`)
  // ---------------------------------------------------------------------

  function SortByKey<T>(s: seq<T>, key: T -> real): (r: seq<T>)
    ensures multiset(r) == multiset(s)
    ensures |r| == |s|
  {
    SortBy(s, key, false)
  }

  predicate SortedByKey<T>(s: seq<T>, key: T -> real)
  {
    forall i, j :: 0 <= i < j < |s| ==> key(s[i]) <= key(s[j])
  }

  lemma {:induction false} SortByKeySorted<T>(s: seq<T>, key: T -> real)
    ensures SortedByKey(SortByKey(s, key), key)
  {
    SortBySorted(s, key, false);
  }

  /** The head of a sort by key is an input element with the least key. */
  lemma {:induction false} SortByKeyFirstIsMin<T>(s: seq<T>, key: T -> real, x: T)
    requires x in s
    ensures |SortByKey(s, key)| > 0 && SortByKey(s, key)[0] in s && key(SortByKey(s, key)[0]) <= key(x)
  {
    HeadIsInput(s, key, false);
    SortedHeadIsExtreme(s, key, false);
  }

  /** If `s[i]` is the first element satisfying `p`, it heads `Filter(s, p)`. */
  lemma FilterHead<T>(s: seq<T>, p: T -> bool, i: nat)
    requires i < |s| && p(s[i])
    requires forall j :: 0 <= j < i ==> !p(s[j])
    ensures |Filter(s, p)| > 0 && Filter(s, p)[0] == s[i]
  {
    var pre, tail := s[..i], s[i + 1..];
    var mid := [s[i]] + tail;
    FilterPrefixFree(s, p, i);
    assert pre + mid == s;
    FilterConcat(pre, mid, p);
    FilterConcat([s[i]], tail, p);
    FilterSingle(s[i], p);
    calc {
      Filter(s, p);
      Filter(pre + mid, p);
      Filter(pre, p) + Filter(mid, p);
      [] + Filter(mid, p);
      Filter(mid, p);
      Filter([s[i]], p) + Filter(tail, p);
      [s[i]] + Filter(tail, p);
    }
  }

  /** Index of the first element satisfying `p`. */
  function FirstMatch<T>(s: seq<T>, p: T -> bool): (i: nat)
    requires exists x :: x in s && p(x)
    ensures i < |s| && p(s[i])
    ensures forall j :: 0 <= j < i ==> !p(s[j])
  {
    if p(s[0]) then 0
    else
      assert exists x :: x in s[1..] && p(x) by {
        var x :| x in s && p(x);
        var m :| 0 <= m < |s| && s[m] == x;
        assert s[1..][m - 1] == x;
      }
      1 + FirstMatch(s[1..], p)
  }

  lemma {:induction false} FilterPrefixFree<T>(s: seq<T>, p: T -> bool, i: nat)
    requires i <= |s|
    requires forall j :: 0 <= j < i ==> !p(s[j])
    ensures Filter(s[..i], p) == []
    decreases i
  {
    if i > 0 {
      assert s[..i][..i - 1] == s[..i - 1];
      FilterPrefixFree(s, p, i - 1);
    }
  }

  /** Filtering with two predicates that agree on the elements gives the same list. */
  lemma {:induction false} FilterExt<T>(s: seq<T>, p: T -> bool, q: T -> bool)
    requires forall i :: 0 <= i < |s| ==> p(s[i]) == q(s[i])
    ensures Filter(s, p) == Filter(s, q)
    decreases |s|
  {
    if s != [] {
      FilterExt(s[..|s| - 1], p, q);
    }
  }

  // ---------------------------------------------------------------------
  // Toggling membership (`prev.includes(id) ? prev.filter(x => x !== id) : [...prev, id]`)
  // ---------------------------------------------------------------------

  function Other<T(==)>(id: T): T -> bool
  {
    x => x != id
  }

  /** Selecting or deselecting `id`: deleted when present, otherwise added at the end. */
  function Toggle<T(==)>(sel: seq<T>, id: T): seq<T>
  {
    if id in sel then Filter(sel, Other(id)) else sel + [id]
  }

  /** Only `id` changes membership. */
  lemma ToggleMembers<T>(sel: seq<T>, id: T, x: T)
    ensures x in Toggle(sel, id) <==> (if x == id then id !in sel else x in sel)
  {
    if id in sel {
      FilterMembers(sel, Other(id), x);
    }
  }

  /** Every other id keeps its place relative to the others. */
  lemma ToggleKeepsOthers<T>(sel: seq<T>, id: T)
    ensures Filter(Toggle(sel, id), Other(id)) == Filter(sel, Other(id))
  {
    if id in sel {
      FilterRefine(sel, Other(id), Other(id), Other(id));
    } else {
      FilterConcat(sel, [id], Other(id));
      FilterSingle(id, Other(id));
    }
  }

  /** A duplicate-free selection stays duplicate-free. */
  lemma ToggleKeepsNoDups<T>(sel: seq<T>, id: T)
    requires NoDups(sel)
    ensures NoDups(Toggle(sel, id))
  {
    if id in sel {
      FilterKeepsNoDups(sel, Other(id));
    }
  }

  /** Toggling twice gives the same members back (a removed id comes back at the end). */
  lemma ToggleTwice<T>(sel: seq<T>, id: T)
    ensures forall x :: x in Toggle(Toggle(sel, id), id) <==> x in sel
    ensures id !in sel ==> Toggle(Toggle(sel, id), id) == sel
  {
    forall x ensures x in Toggle(Toggle(sel, id), id) <==> x in sel {
      ToggleMembers(sel, id, x);
      ToggleMembers(Toggle(sel, id), id, x);
      ToggleMembers(sel, id, id);
    }
    if id !in sel {
      FilterConcat(sel, [id], Other(id));
      FilterSingle(id, Other(id));
      FilterAll(sel, Other(id));
    }
  }

  // ---------------------------------------------------------------------
  // Descending stable sort (`sort((a, b) => score(b) - score(a))`)
  // ---------------------------------------------------------------------

  function SortDesc<T>(s: seq<T>, score: T -> real): (r: seq<T>)
    ensures multiset(r) == multiset(s)
    ensures |r| == |s|
  {
    SortBy(s, score, true)
  }

  lemma {:induction false} SortDescSorted<T>(s: seq<T>, score: T -> real)
    ensures forall i, j :: 0 <= i < j < |SortDesc(s, score)| ==>
      score(SortDesc(s, score)[i]) >= score(SortDesc(s, score)[j])
  {
    SortBySorted(s, score, true);
  }

  /** Equal scores keep their input order. */
  lemma {:induction false} SortDescStable<T>(s: seq<T>, score: T -> real, k: real)
    ensures Filter(SortDesc(s, score), KeyIs(score, k)) == Filter(s, KeyIs(score, k))
  {
    SortByStable(s, score, true, k);
  }

  /** The head of the descending order is the first input element of maximal score. */
  lemma {:induction false} SortDescHead<T>(s: seq<T>, score: T -> real)
    requires |s| > 0
    ensures exists i :: (0 <= i < |s| && SortDesc(s, score)[0] == s[i]
      && (forall j :: 0 <= j < |s| ==> score(s[i]) >= score(s[j]))
      && (forall j :: 0 <= j < i ==> score(s[j]) != score(s[i])))
  {
    SortByHead(s, score, true);
  }

  // ---------------------------------------------------------------------
  // Arithmetic
  // ---------------------------------------------------------------------

  lemma MulSucc(c: nat, f: nat)
    ensures (c + 1) * f == c * f + f
  {
  }
}
