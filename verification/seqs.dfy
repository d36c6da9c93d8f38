/**
 Sequence helpers that stand for the JavaScript array methods the source uses:
 `filter`, `flatMap`, `join`, and `slice`, with the facts about them that the
 rest of the model relies on.
 */
module Seqs {

  /** `s.filter(p)`: the elements satisfying `p`, in their original order. */
  function Filter<T>(p: T -> bool, s: seq<T>): (r: seq<T>)
    ensures |r| <= |s|
    ensures forall i :: 0 <= i < |r| ==> p(r[i]) && r[i] in s
    ensures forall i :: 0 <= i < |s| && p(s[i]) ==> s[i] in r
  {
    if |s| == 0 then []
    else (if p(s[0]) then [s[0]] else []) + Filter(p, s[1..])
  }

  /**
   A filter keeps everything exactly when every element passes, and keeps
   nothing exactly when no element passes.
   */
  lemma {:induction false} FilterLengthExtremes<T>(p: T -> bool, s: seq<T>)
    ensures |Filter(p, s)| == |s| <==> forall i :: 0 <= i < |s| ==> p(s[i])
    ensures |Filter(p, s)| == 0 <==> forall i :: 0 <= i < |s| ==> !p(s[i])
  {
    if |s| > 0 {
      FilterLengthExtremes(p, s[1..]);
      assert forall i :: 1 <= i < |s| ==> s[i] == s[1..][i - 1];
      if p(s[0]) {
        assert s[0] in Filter(p, s);
      }
    }
  }

  /** When exactly one position passes, the filter keeps exactly one element. */
  lemma {:induction false} FilterSingle<T>(p: T -> bool, s: seq<T>, k: nat)
    requires k < |s| && p(s[k])
    requires forall i :: 0 <= i < |s| && i != k ==> !p(s[i])
    ensures |Filter(p, s)| == 1
  {
    assert forall i :: 1 <= i < |s| ==> s[i] == s[1..][i - 1];
    if k == 0 {
      FilterLengthExtremes(p, s[1..]);
    } else {
      FilterSingle(p, s[1..], k - 1);
    }
  }

  /** `a` can be obtained from `b` by deleting elements (order is kept). */
  ghost predicate IsSubsequence<T>(a: seq<T>, b: seq<T>)
    decreases |b|
  {
    |a| == 0 || (|b| > 0 && if a[0] == b[0] then IsSubsequence(a[1..], b[1..]) else IsSubsequence(a, b[1..]))
  }

  /** Filtering keeps the relative order of the elements it keeps. */
  lemma {:induction false} FilterIsSubsequence<T>(p: T -> bool, s: seq<T>)
    ensures IsSubsequence(Filter(p, s), s)
  {
    if |s| > 0 {
      FilterIsSubsequence(p, s[1..]);
      if p(s[0]) {
        assert Filter(p, s) == [s[0]] + Filter(p, s[1..]);
        assert Filter(p, s)[1..] == Filter(p, s[1..]);
      } else {
        assert Filter(p, s) == Filter(p, s[1..]);
        SubsequenceSkip(Filter(p, s), s);
      }
    }
  }

  /** A subsequence of the tail of `b` is a subsequence of `b`. */
  lemma {:induction false} SubsequenceSkip<T>(a: seq<T>, b: seq<T>)
    requires |b| > 0
    requires IsSubsequence(a, b[1..])
    ensures IsSubsequence(a, b)
    decreases |a| + |b|
  {
    if |a| > 0 && a[0] == b[0] {
      // Matching `a[0]` against `b[0]` leaves `a[1..]` to match inside `b[1..]`.
      SubsequenceTail(a, b[1..]);
    }
  }

  /** Dropping the head of a non-empty subsequence keeps it a subsequence. */
  lemma {:induction false} SubsequenceTail<T>(a: seq<T>, b: seq<T>)
    requires |a| > 0
    requires IsSubsequence(a, b)
    ensures IsSubsequence(a[1..], b)
    decreases |a| + |b|
  {
    if a[0] == b[0] {
      if |a[1..]| > 0 {
        SubsequenceSkip(a[1..], b);
      }
    } else {
      SubsequenceTail(a, b[1..]);
      if |a[1..]| > 0 {
        SubsequenceSkip(a[1..], b);
      }
    }
  }

  /**
   Two filters with complementary predicates split a sequence: every element
   lands in exactly one of them.
   */
  lemma {:induction false} FilterPartition<T>(p: T -> bool, q: T -> bool, s: seq<T>)
    requires forall x :: q(x) == !p(x)
    ensures multiset(Filter(p, s)) + multiset(Filter(q, s)) == multiset(s)
    ensures |Filter(p, s)| + |Filter(q, s)| == |s|
  {
    if |s| > 0 {
      FilterPartition(p, q, s[1..]);
      assert s == [s[0]] + s[1..];
    }
  }

  /**
   Counting the elements satisfying `c` in each half of a split gives the
   count over the whole sequence.
   */
  lemma {:induction false} FilterCountSplit<T>(c: T -> bool, p: T -> bool, q: T -> bool, s: seq<T>)
    requires forall x :: q(x) == !p(x)
    ensures |Filter(c, Filter(p, s))| + |Filter(c, Filter(q, s))| == |Filter(c, s)|
  {
    if |s| > 0 {
      FilterCountSplit(c, p, q, s[1..]);
      FilterAppend(c, if p(s[0]) then [s[0]] else [], Filter(p, s[1..]));
      FilterAppend(c, if q(s[0]) then [s[0]] else [], Filter(q, s[1..]));
    }
  }

  /** Filtering distributes over concatenation. */
  lemma {:induction false} FilterAppend<T>(p: T -> bool, a: seq<T>, b: seq<T>)
    ensures Filter(p, a + b) == Filter(p, a) + Filter(p, b)
  {
    if |a| == 0 {
      assert a + b == b;
    } else {
      FilterAppend(p, a[1..], b);
      assert (a + b)[0] == a[0];
      assert (a + b)[1..] == a[1..] + b;
      calc {
        Filter(p, a + b);
        (if p(a[0]) then [a[0]] else []) + Filter(p, a[1..] + b);
        (if p(a[0]) then [a[0]] else []) + (Filter(p, a[1..]) + Filter(p, b));
      }
    }
  }

  /** `array.flatMap(page => page)`: the pages' elements, page by page. */
  function Flatten<T>(pages: seq<seq<T>>): seq<T>
  {
    if |pages| == 0 then [] else pages[0] + Flatten(pages[1..])
  }

  /** Flattening a sequence extended by one page appends that page's elements. */
  lemma {:induction false} FlattenSnoc<T>(pages: seq<seq<T>>, last: seq<T>)
    ensures Flatten(pages + [last]) == Flatten(pages) + last
  {
    if |pages| > 0 {
      FlattenSnoc(pages[1..], last);
      assert (pages + [last])[1..] == pages[1..] + [last];
    } else {
      assert Flatten([last]) == last + Flatten([]);
    }
  }

  /** `parts.join(sep)`. */
  function Join(parts: seq<string>, sep: string): string
  {
    if |parts| == 0 then ""
    else if |parts| == 1 then parts[0]
    else parts[0] + sep + Join(parts[1..], sep)
  }

  /** `s.slice(start, end)` for non-negative bounds: both ends are clamped to the length. */
  function Slice<T>(s: seq<T>, start: nat, end: nat): (r: seq<T>)
    ensures |r| == if start >= |s| || end <= start then 0 else Min(end, |s|) - start
    ensures forall i :: 0 <= i < |r| ==> r[i] == s[start + i]
  {
    if start >= |s| || end <= start then [] else s[start..Min(end, |s|)]
  }

  /** `s.indexOf(x)`, except that a missing element gives `|s|` rather than -1. */
  function IndexOf<T(==)>(s: seq<T>, x: T): (i: nat)
    ensures i <= |s| && x !in s[..i]
    ensures i < |s| ==> s[i] == x
  {
    if |s| == 0 || s[0] == x then 0
    else
      var j := IndexOf(s[1..], x);
      assert s[..j + 1] == [s[0]] + s[1..][..j];
      j + 1
  }

  /** In `a + [x] + b`, where `a` does not hold `x`, the first `x` is the one after `a`. */
  lemma {:induction false} IndexOfAfter<T>(a: seq<T>, x: T, b: seq<T>)
    requires x !in a
    ensures IndexOf(a + [x] + b, x) == |a|
  {
    if |a| > 0 {
      assert (a + [x] + b)[1..] == a[1..] + [x] + b;
      IndexOfAfter(a[1..], x, b);
    }
  }

  function Min(a: int, b: int): int {
    if a <= b then a else b
  }
}
