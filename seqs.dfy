/**
 * Sequence helpers that mirror the JavaScript list idioms the system uses:
 * `Array.prototype.filter`, `Array.prototype.find`, `filter(...).length`,
 * and `[...new Set(xs)]`.
 */
module Seqs {
  import opened Wrappers

  /** `Array.prototype.find`: the first element meeting `p`, if any. */
  function FindFirst<T>(p: T -> bool, s: seq<T>): (r: Option<T>)
    ensures r.None? <==> forall k :: 0 <= k < |s| ==> !p(s[k])
    ensures r.Some? ==> p(r.value)
    ensures r.Some? ==> exists k :: 0 <= k < |s| && s[k] == r.value && (forall j :: 0 <= j < k ==> !p(s[j]))
    decreases |s|
  {
    if s == [] then None
    else if p(s[0]) then Some(s[0])
    else
      var r := FindFirst(p, s[1..]);
      assert forall k :: 0 <= k < |s| - 1 ==> s[1..][k] == s[k + 1];
      r
  }

  /** `xs` is obtained from `ys` by deleting elements and keeping the order of the rest. */
  predicate IsSubseq<T(==)>(xs: seq<T>, ys: seq<T>)
    decreases |ys|
  {
    xs == [] ||
    (ys != [] &&
     ((xs[0] == ys[0] && IsSubseq(xs[1..], ys[1..])) || IsSubseq(xs, ys[1..])))
  }

  lemma {:induction false} SubseqRefl<T>(s: seq<T>)
    ensures IsSubseq(s, s)
    decreases |s|
  {
    if s != [] {
      SubseqRefl(s[1..]);
    }
  }

  lemma {:induction false} SubseqSnoc<T>(xs: seq<T>, ys: seq<T>, x: T)
    requires IsSubseq(xs, ys)
    ensures IsSubseq(xs, ys + [x])
    decreases |ys|
  {
    if xs != [] {
      assert (ys + [x])[1..] == ys[1..] + [x];
      if xs[0] == ys[0] && IsSubseq(xs[1..], ys[1..]) {
        SubseqSnoc(xs[1..], ys[1..], x);
      } else {
        SubseqSnoc(xs, ys[1..], x);
      }
    }
  }

  lemma {:induction false} SubseqLast<T>(ys: seq<T>, x: T)
    ensures IsSubseq([x], ys + [x])
    decreases |ys|
  {
    if ys == [] {
      assert ([x] + [])[1..] == [];
    } else {
      assert (ys + [x])[1..] == ys[1..] + [x];
      SubseqLast(ys[1..], x);
    }
  }

  lemma {:induction false} SubseqSnocBoth<T>(xs: seq<T>, ys: seq<T>, x: T)
    requires IsSubseq(xs, ys)
    ensures IsSubseq(xs + [x], ys + [x])
    decreases |ys|
  {
    if xs == [] {
      SubseqLast(ys, x);
      assert xs + [x] == [x];
    } else {
      assert (ys + [x])[1..] == ys[1..] + [x];
      assert (xs + [x])[1..] == xs[1..] + [x];
      if xs[0] == ys[0] && IsSubseq(xs[1..], ys[1..]) {
        SubseqSnocBoth(xs[1..], ys[1..], x);
      } else {
        SubseqSnocBoth(xs, ys[1..], x);
      }
    }
  }

  /** `s.filter(p)`: the elements satisfying `p`, in their original order. */
  function Filter<T>(p: T -> bool, s: seq<T>): (r: seq<T>)
    ensures |r| <= |s|
    ensures forall i :: 0 <= i < |r| ==> r[i] in s && p(r[i])
    ensures forall i :: 0 <= i < |s| && p(s[i]) ==> s[i] in r
  {
    if s == [] then []
    else if p(s[0]) then [s[0]] + Filter(p, s[1..])
    else Filter(p, s[1..])
  }

  lemma {:induction false} FilterIsSubseq<T>(p: T -> bool, s: seq<T>)
    ensures IsSubseq(Filter(p, s), s)
    decreases |s|
  {
    if s != [] {
      FilterIsSubseq(p, s[1..]);
      if p(s[0]) {
        assert Filter(p, s)[1..] == Filter(p, s[1..]);
      }
    }
  }

  /** Keeping everything leaves the sequence as it is. */
  lemma {:induction false} FilterKeepsAll<T>(p: T -> bool, s: seq<T>)
    requires forall x :: x in s ==> p(x)
    ensures Filter(p, s) == s
    decreases |s|
  {
    if s != [] {
      FilterKeepsAll(p, s[1..]);
      assert [s[0]] + s[1..] == s;
    }
  }

  /** Keeping nothing leaves nothing. */
  lemma {:induction false} FilterKeepsNone<T>(p: T -> bool, s: seq<T>)
    requires forall x :: x in s ==> !p(x)
    ensures Filter(p, s) == []
    decreases |s|
  {
    if s != [] {
      assert s[0] in s;
      FilterKeepsNone(p, s[1..]);
    }
  }

  /** Two filters in a row are one filter on the conjunction. */
  lemma {:induction false} FilterFusion<T>(p: T -> bool, q: T -> bool, r: T -> bool, s: seq<T>)
    requires forall x :: x in s ==> r(x) == (q(x) && p(x))
    ensures Filter(p, Filter(q, s)) == Filter(r, s)
    decreases |s|
  {
    if s != [] {
      FilterFusion(p, q, r, s[1..]);
    }
  }

  /** Filters that agree on every element give the same result. */
  lemma {:induction false} FilterExt<T>(p: T -> bool, q: T -> bool, s: seq<T>)
    requires forall x :: x in s ==> p(x) == q(x)
    ensures Filter(p, s) == Filter(q, s)
    decreases |s|
  {
    if s != [] {
      FilterExt(p, q, s[1..]);
    }
  }

  /** Filtering a longer list: the new last element is kept iff it passes. */
  lemma {:induction false} FilterSnoc<T>(p: T -> bool, s: seq<T>, x: T)
    ensures Filter(p, s + [x]) == Filter(p, s) + (if p(x) then [x] else [])
    decreases |s|
  {
    if s == [] {
      assert [] + [x] == [x];
    } else {
      assert (s + [x])[1..] == s[1..] + [x];
      FilterSnoc(p, s[1..], x);
    }
  }

  /** `if (active) arr = arr.filter(p)`: a filter applied only when its input is set. */
  function FilterIf<T>(active: bool, p: T -> bool, s: seq<T>): (r: seq<T>)
    ensures !active ==> r == s
    ensures active ==> r == Filter(p, s)
  {
    if active then Filter(p, s) else s
  }

  /** A conditional filter after a filter is one filter on the conjunction. */
  lemma FilterIfFusion<T>(active: bool, p: T -> bool, q: T -> bool, r: T -> bool, s: seq<T>)
    requires forall x :: x in s ==> r(x) == (q(x) && (!active || p(x)))
    ensures FilterIf(active, p, Filter(q, s)) == Filter(r, s)
  {
    if active {
      FilterFusion(p, q, r, s);
    } else {
      FilterExt(q, r, s);
    }
  }

  /** What a filter keeps, a filter on a weaker predicate keeps too, in the same order. */
  lemma {:induction false} FilterMonoSubseq<T>(p: T -> bool, q: T -> bool, s: seq<T>)
    requires forall x :: x in s ==> p(x) ==> q(x)
    ensures IsSubseq(Filter(p, s), Filter(q, s))
    decreases |s|
  {
    if s != [] {
      FilterMonoSubseq(p, q, s[1..]);
      if p(s[0]) {
        assert Filter(p, s)[1..] == Filter(p, s[1..]);
        assert Filter(q, s)[1..] == Filter(q, s[1..]);
      } else if q(s[0]) {
        assert Filter(q, s)[1..] == Filter(q, s[1..]);
        if Filter(p, s[1..]) != [] {
          assert Filter(q, s) != [];
        }
      }
    }
  }

  /** A filter on a weaker predicate keeps at least as many elements. */
  lemma {:induction false} CountMono<T>(p: T -> bool, q: T -> bool, s: seq<T>)
    requires forall x :: x in s ==> p(x) ==> q(x)
    ensures |Filter(p, s)| <= |Filter(q, s)|
    decreases |s|
  {
    if s != [] {
      CountMono(p, q, s[1..]);
    }
  }

  /** Counting two disjoint predicates counts their disjunction. */
  lemma {:induction false} CountSplit<T>(p: T -> bool, q: T -> bool, r: T -> bool, s: seq<T>)
    requires forall x :: x in s ==> !(p(x) && q(x)) && r(x) == (p(x) || q(x))
    ensures |Filter(p, s)| + |Filter(q, s)| == |Filter(r, s)|
    decreases |s|
  {
    if s != [] {
      CountSplit(p, q, r, s[1..]);
    }
  }

  /** Two disjoint predicates never count more elements than there are. */
  lemma CountDisjoint2<T>(p: T -> bool, q: T -> bool, s: seq<T>)
    requires forall x :: x in s ==> !(p(x) && q(x))
    ensures |Filter(p, s)| + |Filter(q, s)| <= |s|
  {
    CountSplit(p, q, x => p(x) || q(x), s);
  }

  /** Three pairwise disjoint predicates never count more elements than there are. */
  lemma CountDisjoint3<T>(p: T -> bool, q: T -> bool, r: T -> bool, s: seq<T>)
    requires forall x :: x in s ==> !(p(x) && q(x)) && !(p(x) && r(x)) && !(q(x) && r(x))
    ensures |Filter(p, s)| + |Filter(q, s)| + |Filter(r, s)| <= |s|
  {
    var pq := x => p(x) || q(x);
    CountSplit(p, q, pq, s);
    CountDisjoint2(pq, r, s);
  }

  /** No element occurs twice. */
  predicate NoDup<T(==)>(s: seq<T>) {
    forall i, j :: 0 <= i < j < |s| ==> s[i] != s[j]
  }

  /** The position of the first occurrence of `x` in `s`. */
  function FirstIndex<T(==)>(s: seq<T>, x: T): (k: nat)
    requires x in s
    ensures k < |s| && s[k] == x && x !in s[..k]
  {
    if s[0] == x then 0
    else
      var k := 1 + FirstIndex(s[1..], x);
      assert s[..k] == [s[0]] + s[1..][..k - 1];
      k
  }

  lemma FirstIndexSnoc<T>(s: seq<T>, x: T, y: T)
    requires y in s
    ensures FirstIndex(s + [x], y) == FirstIndex(s, y)
  {
    var k, k' := FirstIndex(s, y), FirstIndex(s + [x], y);
    assert (s + [x])[..k] == s[..k];
    assert k <= k' by {
      assert (s + [x])[k'] == y;
    }
    assert k' <= k by {
      assert (s + [x])[k] == y;
    }
  }

  /**
   * `[...new Set(s)]`: the distinct elements in the order a JavaScript Set
   * keeps them, that of their first insertion.
   */
  function Dedup<T(==)>(s: seq<T>): (r: seq<T>)
    ensures |r| <= |s|
    ensures forall i :: 0 <= i < |r| ==> r[i] in s
    ensures forall i :: 0 <= i < |s| ==> s[i] in r
    ensures NoDup(r)
    decreases |s|
  {
    if s == [] then []
    else
      var init, last := s[..|s| - 1], s[|s| - 1];
      assert s == init + [last];
      var d := Dedup(init);
      if last in init then d else d + [last]
  }

  /** The de-duplication keeps the elements in the order of their first occurrence. */
  lemma {:induction false} DedupFirstOccurrenceOrder<T>(s: seq<T>)
    ensures forall i, j :: 0 <= i < j < |Dedup(s)| ==> FirstIndex(s, Dedup(s)[i]) < FirstIndex(s, Dedup(s)[j])
    decreases |s|
  {
    if s != [] {
      var init, last := s[..|s| - 1], s[|s| - 1];
      assert s == init + [last];
      var d := Dedup(init);
      DedupFirstOccurrenceOrder(init);
      if last !in init {
        assert FirstIndex(s, last) == |init| by {
          assert s[..|init|] == init;
        }
      }
      forall i, j | 0 <= i < j < |Dedup(s)| ensures FirstIndex(s, Dedup(s)[i]) < FirstIndex(s, Dedup(s)[j]) {
        assert Dedup(s)[i] == d[i];
        FirstIndexSnoc(init, last, d[i]);
        if j < |d| {
          assert Dedup(s)[j] == d[j];
          FirstIndexSnoc(init, last, d[j]);
        }
      }
    }
  }

  lemma {:induction false} DedupIsSubseq<T>(s: seq<T>)
    ensures IsSubseq(Dedup(s), s)
    decreases |s|
  {
    if s != [] {
      var init, last := s[..|s| - 1], s[|s| - 1];
      assert s == init + [last];
      DedupIsSubseq(init);
      if last in init {
        SubseqSnoc(Dedup(init), init, last);
      } else {
        SubseqSnocBoth(Dedup(init), init, last);
      }
    }
  }

  /** A sequence without repetitions is its own de-duplication. */
  lemma {:induction false} DedupOfNoDup<T>(s: seq<T>)
    requires NoDup(s)
    ensures Dedup(s) == s
    decreases |s|
  {
    if s != [] {
      var init, last := s[..|s| - 1], s[|s| - 1];
      assert s == init + [last];
      DedupOfNoDup(init);
    }
  }

  /** Every element of a subsequence is an element of the whole. */
  lemma {:induction false} SubseqMembers<T>(xs: seq<T>, ys: seq<T>)
    requires IsSubseq(xs, ys)
    ensures forall x :: x in xs ==> x in ys
    decreases |ys|
  {
    if xs != [] {
      if xs[0] == ys[0] && IsSubseq(xs[1..], ys[1..]) {
        SubseqMembers(xs[1..], ys[1..]);
        assert forall x :: x in xs ==> x == xs[0] || x in xs[1..];
      } else {
        SubseqMembers(xs, ys[1..]);
      }
    }
  }

  /** Filtering a sequence without repetitions leaves none. */
  lemma {:induction false} FilterNoDup<T>(p: T -> bool, s: seq<T>)
    requires NoDup(s)
    ensures NoDup(Filter(p, s))
    decreases |s|
  {
    if s != [] {
      assert NoDup(s[1..]) by {
        assert forall i :: 0 <= i < |s| - 1 ==> s[1..][i] == s[i + 1];
      }
      FilterNoDup(p, s[1..]);
      if p(s[0]) {
        var t := Filter(p, s[1..]);
        assert s[0] !in s[1..] by {
          assert forall i :: 0 <= i < |s| - 1 ==> s[1..][i] == s[i + 1];
        }
        assert forall i :: 0 <= i < |t| ==> t[i] != s[0];
        assert forall i :: 0 <= i < |t| ==> ([s[0]] + t)[i + 1] == t[i];
      }
    }
  }

  /** Membership in `xs`, as a predicate to filter by. */
  function In<T(==)>(xs: seq<T>): T -> bool {
    x => x in xs
  }

  /**
   * Keeping the elements of a repetition-free `ys` that occur in one of its
   * subsequences gives back that subsequence.
   */
  lemma {:induction false} FilterInSubseq<T>(xs: seq<T>, ys: seq<T>)
    requires NoDup(ys)
    requires IsSubseq(xs, ys)
    ensures Filter(In(xs), ys) == xs
    decreases |ys|
  {
    if xs == [] {
      FilterKeepsNone(In(xs), ys);
    } else {
      assert NoDup(ys[1..]) by {
        assert forall i :: 0 <= i < |ys| - 1 ==> ys[1..][i] == ys[i + 1];
      }
      assert ys[0] !in ys[1..] by {
        assert forall i :: 0 <= i < |ys| - 1 ==> ys[1..][i] == ys[i + 1];
      }
      if xs[0] == ys[0] && IsSubseq(xs[1..], ys[1..]) {
        FilterInSubseq(xs[1..], ys[1..]);
        forall y | y in ys[1..] ensures In(xs)(y) == In(xs[1..])(y) {
          assert xs == [xs[0]] + xs[1..];
        }
        FilterExt(In(xs), In(xs[1..]), ys[1..]);
        assert xs == [xs[0]] + xs[1..];
      } else {
        FilterInSubseq(xs, ys[1..]);
        SubseqMembers(xs, ys[1..]);
      }
    }
  }
}
