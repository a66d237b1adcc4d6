/** Generic facts about list comprehensions `[x for x in s if p(x)]` and
    about `sorted(s, key=k)`. */
module Sequences {

  /** `a` is `b` with some elements left out, the rest in their order. */
  ghost predicate IsSubseq<T>(a: seq<T>, b: seq<T>)
    decreases |b|
  {
    a == [] || (b != [] && ((a[0] == b[0] && IsSubseq(a[1..], b[1..])) || IsSubseq(a, b[1..])))
  }

  lemma {:induction false} IsSubseqRefl<T>(a: seq<T>)
    ensures IsSubseq(a, a)
    decreases |a|
  {
    if a != [] {
      IsSubseqRefl(a[1..]);
    }
  }

  /** Leaving elements out twice leaves elements out once. */
  lemma {:induction false} IsSubseqTrans<T>(a: seq<T>, b: seq<T>, c: seq<T>)
    requires IsSubseq(a, b) && IsSubseq(b, c)
    ensures IsSubseq(a, c)
    decreases |c|
  {
    if a != [] {
      if IsSubseq(b, c[1..]) {
        IsSubseqTrans(a, b, c[1..]);
      } else if IsSubseq(a, b[1..]) {
        IsSubseqTrans(a, b[1..], c[1..]);
      } else {
        IsSubseqTrans(a[1..], b[1..], c[1..]);
      }
    }
  }

  lemma {:induction false} IsSubseqMembers<T>(a: seq<T>, b: seq<T>)
    requires IsSubseq(a, b)
    ensures forall k :: 0 <= k < |a| ==> a[k] in b
    decreases |b|
  {
    if a != [] {
      if IsSubseq(a, b[1..]) {
        IsSubseqMembers(a, b[1..]);
      } else {
        IsSubseqMembers(a[1..], b[1..]);
        assert forall k :: 1 <= k < |a| ==> a[k] == a[1..][k - 1];
      }
    }
  }

  lemma {:induction false} IsSubseqLength<T>(a: seq<T>, b: seq<T>)
    requires IsSubseq(a, b)
    ensures |a| <= |b|
    decreases |b|
  {
    if a != [] {
      if IsSubseq(a, b[1..]) {
        IsSubseqLength(a, b[1..]);
      } else {
        IsSubseqLength(a[1..], b[1..]);
      }
    }
  }

  /** `[x for x in s if p(x)]`. */
  function Filter<T(==)>(s: seq<T>, p: T -> bool): (r: seq<T>)
    ensures |r| <= |s|
    ensures forall k :: 0 <= k < |r| ==> p(r[k]) && r[k] in s
    ensures forall k :: 0 <= k < |s| && p(s[k]) ==> s[k] in r
    decreases |s|
  {
    if s == [] then []
    else if p(s[0]) then [s[0]] + Filter(s[1..], p)
    else Filter(s[1..], p)
  }

  /** A comprehension keeps every copy of an element that passes the test
      and no copy of one that fails it. */
  lemma {:induction false} FilterCount<T>(s: seq<T>, p: T -> bool, x: T)
    ensures multiset(Filter(s, p))[x] == if p(x) then multiset(s)[x] else 0
    decreases |s|
  {
    if s != [] {
      FilterCount(s[1..], p, x);
      assert s == [s[0]] + s[1..];
      assert multiset(s) == multiset{s[0]} + multiset(s[1..]);
      if p(s[0]) {
        assert multiset(Filter(s, p)) == multiset{s[0]} + multiset(Filter(s[1..], p));
      }
    }
  }

  /** `r` holds every copy of each element of `s` that passes `p`, and no
      copy of one that fails it: a comprehension over `s`, counted with
      repeats. */
  predicate KeepsCopiesOf<T(==)>(r: seq<T>, s: seq<T>, p: T -> bool) {
    forall k :: 0 <= k < |s| ==> multiset(r)[s[k]] == if p(s[k]) then multiset(s)[s[k]] else 0
  }

  lemma FilterCounts<T>(s: seq<T>, p: T -> bool)
    ensures KeepsCopiesOf(Filter(s, p), s, p)
  {
    forall k | 0 <= k < |s|
      ensures multiset(Filter(s, p))[s[k]] == if p(s[k]) then multiset(s)[s[k]] else 0
    {
      FilterCount(s, p, s[k]);
    }
  }

  /** The test passed by what passes both `p` and `q`. */
  function Both<T>(p: T -> bool, q: T -> bool): T -> bool {
    x => p(x) && q(x)
  }

  /** Keeping copies survives a rearrangement of the result. */
  lemma KeepsCopiesPermuted<T>(r: seq<T>, r': seq<T>, s: seq<T>, p: T -> bool)
    requires KeepsCopiesOf(r, s, p) && multiset(r') == multiset(r)
    ensures KeepsCopiesOf(r', s, p)
  {
  }

  /** A rearrangement has the same length and the same members. */
  lemma PermutationMembers<T>(a: seq<T>, b: seq<T>)
    requires multiset(a) == multiset(b)
    ensures |a| == |b|
    ensures forall k :: 0 <= k < |a| ==> a[k] in b
  {
    assert |a| == |multiset(a)| == |multiset(b)| == |b|;
    forall k | 0 <= k < |a| ensures a[k] in b {
      assert a[k] in multiset(a);
    }
  }

  lemma HeadTail<T>(s: seq<T>)
    requires s != []
    ensures s == [s[0]] + s[1..]
  {
  }

  lemma AppendAssoc<T>(a: seq<T>, b: seq<T>, c: seq<T>)
    ensures (a + b) + c == a + (b + c)
  {
  }

  lemma FilterCons<T>(h: T, rest: seq<T>, p: T -> bool)
    ensures Filter([h] + rest, p) == (if p(h) then [h] else []) + Filter(rest, p)
  {
    assert ([h] + rest)[1..] == rest;
  }

  /** A comprehension returns a subsequence of its input. */
  lemma {:induction false} FilterIsSubseq<T>(s: seq<T>, p: T -> bool)
    ensures IsSubseq(Filter(s, p), s)
    decreases |s|
  {
    if s != [] {
      FilterIsSubseq(s[1..], p);
    }
  }

  /** Two comprehensions in a row are one with both conditions. */
  lemma {:induction false} FilterFilter<T>(s: seq<T>, p: T -> bool, q: T -> bool, both: T -> bool)
    requires forall x :: both(x) == (p(x) && q(x))
    ensures Filter(Filter(s, p), q) == Filter(s, both)
    decreases |s|
  {
    if s != [] {
      FilterFilter(s[1..], p, q, both);
    }
  }

  /** Filtering depends only on which elements pass. */
  lemma {:induction false} FilterSame<T>(s: seq<T>, p: T -> bool, q: T -> bool)
    requires forall x :: p(x) == q(x)
    ensures Filter(s, p) == Filter(s, q)
    decreases |s|
  {
    if s != [] {
      FilterSame(s[1..], p, q);
    }
  }

  /** Filtering with a condition every element meets changes nothing. */
  lemma {:induction false} FilterAll<T>(s: seq<T>, p: T -> bool)
    requires forall k :: 0 <= k < |s| ==> p(s[k])
    ensures Filter(s, p) == s
    decreases |s|
  {
    if s != [] {
      FilterAll(s[1..], p);
    }
  }

  lemma {:induction false} FilterAppend<T>(a: seq<T>, b: seq<T>, p: T -> bool)
    ensures Filter(a + b, p) == Filter(a, p) + Filter(b, p)
    decreases |a|
  {
    if a == [] {
      assert a + b == b;
    } else {
      var h := [a[0]];
      var keep := if p(a[0]) then h else [];
      FilterAppend(a[1..], b, p);
      HeadTail(a);
      AppendAssoc(h, a[1..], b);
      FilterCons(a[0], a[1..] + b, p);
      FilterCons(a[0], a[1..], p);
      AppendAssoc(keep, Filter(a[1..], p), Filter(b, p));
    }
  }

  lemma {:induction false} FilterNone<T>(s: seq<T>, p: T -> bool)
    requires forall k :: 0 <= k < |s| ==> !p(s[k])
    ensures Filter(s, p) == []
    decreases |s|
  {
    if s != [] {
      FilterNone(s[1..], p);
    }
  }

  // ---------------------------------------------------------------------------
  // Stable sorting by a real-valued key
  // ---------------------------------------------------------------------------

  /** Ordered by `key`, ascending or descending. */
  predicate SortedBy<T>(s: seq<T>, key: T -> real, descending: bool) {
    forall i, j :: 0 <= i < j < |s| ==> InOrder(s[i], s[j], key, descending)
  }

  /** `x` must come after `y`: strictly later in the requested order. */
  predicate Precedes<T>(y: T, x: T, key: T -> real, descending: bool) {
    if descending then key(y) > key(x) else key(y) < key(x)
  }

  /** `a` orders no later than `b`. */
  predicate InOrder<T>(a: T, b: T, key: T -> real, descending: bool) {
    if descending then key(a) >= key(b) else key(a) <= key(b)
  }

  /** Inserts `x` after every element whose key does not order after it, so
      that elements with equal keys stay in arrival order. */
  function InsertBy<T(==)>(s: seq<T>, x: T, key: T -> real, descending: bool): (r: seq<T>)
    requires SortedBy(s, key, descending)
    ensures SortedBy(r, key, descending)
    ensures multiset(r) == multiset(s) + multiset{x}
    ensures |r| == |s| + 1
    ensures forall k :: 0 <= k < |r| ==> r[k] == x || r[k] in s
    decreases |s|
  {
    if s == [] then [x]
    else if Precedes(x, s[0], key, descending) then
      InsertFront(s, x, key, descending);
      [x] + s
    else
      var rest := InsertBy(s[1..], x, key, descending);
      InsertBehind(s, x, rest, key, descending);
      [s[0]] + rest
  }

  /** An element ordered strictly before the head may go in front. */
  lemma InsertFront<T>(s: seq<T>, x: T, key: T -> real, descending: bool)
    requires SortedBy(s, key, descending) && s != []
    requires Precedes(x, s[0], key, descending)
    ensures SortedBy([x] + s, key, descending)
  {
    assert forall k :: 0 <= k < |s| ==> InOrder(x, s[k], key, descending) by {
      assert forall k :: 0 <= k < |s| ==> InOrder(s[0], s[k], key, descending);
    }
    ConsSorted(x, s, key, descending);
  }

  /** The head stays in front of the tail with `x` inserted into it. */
  lemma InsertBehind<T>(s: seq<T>, x: T, rest: seq<T>, key: T -> real, descending: bool)
    requires SortedBy(s, key, descending) && s != []
    requires !Precedes(x, s[0], key, descending)
    requires SortedBy(rest, key, descending)
    requires multiset(rest) == multiset(s[1..]) + multiset{x}
    requires forall k :: 0 <= k < |rest| ==> rest[k] == x || rest[k] in s[1..]
    ensures SortedBy([s[0]] + rest, key, descending)
    ensures multiset([s[0]] + rest) == multiset(s) + multiset{x}
    ensures forall k :: 0 <= k < |[s[0]] + rest| ==> ([s[0]] + rest)[k] == x || ([s[0]] + rest)[k] in s
  {
    HeadTail(s);
    forall k | 0 <= k < |rest| ensures InOrder(s[0], rest[k], key, descending) {
      if rest[k] != x {
        var j :| 0 <= j < |s[1..]| && s[1..][j] == rest[k];
        assert s[1..][j] == s[j + 1];
      }
    }
    ConsSorted(s[0], rest, key, descending);
  }

  /** A head that orders no later than anything after it keeps a list sorted. */
  lemma ConsSorted<T>(h: T, rest: seq<T>, key: T -> real, descending: bool)
    requires SortedBy(rest, key, descending)
    requires forall k :: 0 <= k < |rest| ==> InOrder(h, rest[k], key, descending)
    ensures SortedBy([h] + rest, key, descending)
  {
    var r := [h] + rest;
    assert forall i :: 0 < i < |r| ==> r[i] == rest[i - 1];
  }

  /** `sorted(s, key=key, reverse=descending)`: insertion sort, stable. */
  function SortBy<T(==)>(s: seq<T>, key: T -> real, descending: bool): (r: seq<T>)
    ensures SortedBy(r, key, descending)
    ensures multiset(r) == multiset(s)
    ensures |r| == |s|
    decreases |s|
  {
    if s == [] then []
    else
      var init := s[..|s| - 1];
      assert s == init + [s[|s| - 1]];
      var r := InsertBy(SortBy(init, key, descending), s[|s| - 1], key, descending);
      assert |r| == |multiset(r)|;
      r
  }

  /** The elements whose key is `c`. */
  function HasKey<T>(key: T -> real, c: real): T -> bool {
    y => key(y) == c
  }

  /** Inserting in front happens only ahead of elements with other keys. */
  lemma InsertFrontStable<T>(s: seq<T>, x: T, key: T -> real, descending: bool, c: real)
    requires SortedBy(s, key, descending) && s != [] && Precedes(x, s[0], key, descending)
    ensures Filter([x] + s, HasKey(key, c)) == Filter(s, HasKey(key, c)) + (if key(x) == c then [x] else [])
  {
    var p := HasKey(key, c);
    var r := [x] + s;
    assert r[1..] == s;
    if key(x) == c {
      assert forall k :: 0 <= k < |s| ==> InOrder(s[0], s[k], key, descending);
      FilterNone(s, p);
      assert Filter(r, p) == [x] + Filter(s, p);
    } else {
      assert Filter(r, p) == Filter(s, p);
    }
  }

  lemma {:induction false} InsertByStable<T>(s: seq<T>, x: T, key: T -> real, descending: bool, c: real)
    requires SortedBy(s, key, descending)
    ensures Filter(InsertBy(s, x, key, descending), HasKey(key, c))
         == Filter(s, HasKey(key, c)) + (if key(x) == c then [x] else [])
    decreases |s|
  {
    var p := HasKey(key, c);
    if s == [] {
      assert InsertBy(s, x, key, descending) == [x] + s;
      FilterCons(x, s, p);
    } else if Precedes(x, s[0], key, descending) {
      assert InsertBy(s, x, key, descending) == [x] + s;
      InsertFrontStable(s, x, key, descending, c);
    } else {
      var rest := InsertBy(s[1..], x, key, descending);
      var head := if p(s[0]) then [s[0]] else [];
      var tail := if key(x) == c then [x] else [];
      assert InsertBy(s, x, key, descending) == [s[0]] + rest;
      InsertByStable(s[1..], x, key, descending, c);
      FilterCons(s[0], rest, p);
      assert Filter(InsertBy(s, x, key, descending), p) == head + (Filter(s[1..], p) + tail);
      HeadTail(s);
      FilterCons(s[0], s[1..], p);
      assert Filter(s, p) == head + Filter(s[1..], p);
      AppendAssoc(head, Filter(s[1..], p), tail);
    }
  }

  /** The sort is stable: the elements sharing any one key come out in the
      order they went in. */
  lemma {:induction false} SortByStable<T>(s: seq<T>, key: T -> real, descending: bool, c: real)
    ensures Filter(SortBy(s, key, descending), HasKey(key, c)) == Filter(s, HasKey(key, c))
    decreases |s|
  {
    if s != [] {
      var init := s[..|s| - 1];
      var last := s[|s| - 1];
      var p := HasKey(key, c);
      assert s == init + [last];
      assert SortBy(s, key, descending) == InsertBy(SortBy(init, key, descending), last, key, descending);
      FilterCons(last, [], p);
      assert [last] + [] == [last];
      SortByStable(init, key, descending, c);
      InsertByStable(SortBy(init, key, descending), last, key, descending, c);
      FilterAppend(init, [last], HasKey(key, c));
    }
  }
}
