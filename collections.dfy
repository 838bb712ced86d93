/** Enumerable.Distinct over sequences: the first occurrence of every element,
    in the order of first occurrence. */
module Collections {

  predicate NoDuplicates<T(==)>(s: seq<T>) {
    forall i, j :: 0 <= i < j < |s| ==> s[i] != s[j]
  }

  /** The position of the first occurrence of x in s. */
  function FirstIndex<T(==)>(s: seq<T>, x: T): (k: nat)
    requires x in s
    ensures k < |s| && s[k] == x
    ensures forall i :: 0 <= i < k ==> s[i] != x
  {
    if s[0] == x then 0 else FirstIndex(s[1..], x) + 1
  }

  function DistinctFrom<T(==)>(s: seq<T>, seen: set<T>): (r: seq<T>)
    ensures forall x :: x in r ==> x in s && x !in seen
    ensures forall x :: x in s && x !in seen ==> x in r
    ensures NoDuplicates(r)
    ensures |r| <= |s|
  {
    if s == [] then []
    else if s[0] in seen then DistinctFrom(s[1..], seen)
    else [s[0]] + DistinctFrom(s[1..], seen + {s[0]})
  }

  /** s.Distinct(). */
  function Distinct<T(==)>(s: seq<T>): (r: seq<T>)
    ensures forall x :: x in r ==> x in s
    ensures forall x :: x in s ==> x in r
    ensures NoDuplicates(r)
    ensures |r| <= |s|
  {
    DistinctFrom(s, {})
  }

  /** The elements kept by DistinctFrom appear in the order of their first
      occurrence in the input. */
  lemma {:induction false} DistinctFromOrder<T>(s: seq<T>, seen: set<T>, i: nat, j: nat)
    requires i < j < |DistinctFrom(s, seen)|
    ensures FirstIndex(s, DistinctFrom(s, seen)[i]) < FirstIndex(s, DistinctFrom(s, seen)[j])
    decreases |s|, 2
  {
    if s[0] in seen {
      SkipHeadOrder(s, seen, i, j);
    } else {
      KeepHeadOrder(s, seen, i, j);
    }
  }

  lemma {:induction false} SkipHeadOrder<T>(s: seq<T>, seen: set<T>, i: nat, j: nat)
    requires |s| > 0 && s[0] in seen
    requires i < j < |DistinctFrom(s, seen)|
    ensures FirstIndex(s, DistinctFrom(s, seen)[i]) < FirstIndex(s, DistinctFrom(s, seen)[j])
    decreases |s|, 0
  {
    var r' := DistinctFrom(s[1..], seen);
    assert DistinctFrom(s, seen) == r';
    DistinctFromOrder(s[1..], seen, i, j);
    TailElement(s, seen, r'[i]);
    TailElement(s, seen, r'[j]);
  }

  lemma {:induction false} KeepHeadOrder<T>(s: seq<T>, seen: set<T>, i: nat, j: nat)
    requires |s| > 0 && s[0] !in seen
    requires i < j < |DistinctFrom(s, seen)|
    ensures FirstIndex(s, DistinctFrom(s, seen)[i]) < FirstIndex(s, DistinctFrom(s, seen)[j])
    decreases |s|, 1
  {
    if i == 0 {
      KeptHead(s, seen, 0);
      KeptHead(s, seen, j);
      TailElement(s, seen + {s[0]}, DistinctFrom(s[1..], seen + {s[0]})[j - 1]);
    } else {
      KeepHeadLater(s, seen, i, j);
    }
  }

  lemma {:induction false} KeepHeadLater<T>(s: seq<T>, seen: set<T>, i: nat, j: nat)
    requires |s| > 0 && s[0] !in seen
    requires 0 < i < j < |DistinctFrom(s, seen)|
    ensures FirstIndex(s, DistinctFrom(s, seen)[i]) < FirstIndex(s, DistinctFrom(s, seen)[j])
    decreases |s|, 0
  {
    var seen' := seen + {s[0]};
    KeptHead(s, seen, i);
    KeptHead(s, seen, j);
    DistinctFromOrder(s[1..], seen', i - 1, j - 1);
    OrderFromTail(s, DistinctFrom(s, seen), DistinctFrom(s[1..], seen'), i, j);
  }

  /** Two elements of d that sit one place later than in r', found in that
      order after the head of s, are found in the same order in s. */
  lemma OrderFromTail<T>(s: seq<T>, d: seq<T>, r': seq<T>, i: nat, j: nat)
    requires |s| > 0 && 0 < i < j < |d| && j - 1 < |r'|
    requires d[i] == r'[i - 1] && d[j] == r'[j - 1]
    requires r'[i - 1] in s[1..] && r'[j - 1] in s[1..] && r'[i - 1] != s[0] && r'[j - 1] != s[0]
    requires FirstIndex(s[1..], r'[i - 1]) < FirstIndex(s[1..], r'[j - 1])
    ensures FirstIndex(s, d[i]) < FirstIndex(s, d[j])
  {
    ShiftOrder(s, d[i], d[j]);
  }

  /** Two elements found after the head keep their order when the head is put
      back. */
  lemma ShiftOrder<T>(s: seq<T>, x: T, y: T)
    requires |s| > 0 && x in s[1..] && y in s[1..] && x != s[0] && y != s[0]
    requires FirstIndex(s[1..], x) < FirstIndex(s[1..], y)
    ensures FirstIndex(s, x) < FirstIndex(s, y)
  {
    FirstIndexOfTail(s, x);
    FirstIndexOfTail(s, y);
  }

  /** When the head is kept, DistinctFrom is the head followed by the tail's
      elements. */
  lemma KeptHead<T>(s: seq<T>, seen: set<T>, k: nat)
    requires |s| > 0 && s[0] !in seen && k < |DistinctFrom(s, seen)|
    ensures k == 0 ==> DistinctFrom(s, seen)[k] == s[0]
    ensures k > 0 ==>
      var r' := DistinctFrom(s[1..], seen + {s[0]});
      k - 1 < |r'| && DistinctFrom(s, seen)[k] == r'[k - 1] && r'[k - 1] in s[1..] && r'[k - 1] !in seen + {s[0]}
  {
    assert DistinctFrom(s, seen) == [s[0]] + DistinctFrom(s[1..], seen + {s[0]});
  }

  /** An element kept from the tail, away from the head, is found one later in s. */
  lemma TailElement<T>(s: seq<T>, seen: set<T>, x: T)
    requires |s| > 0 && s[0] in seen && x in s[1..] && x !in seen
    ensures FirstIndex(s, x) == FirstIndex(s[1..], x) + 1
  {
    FirstIndexOfTail(s, x);
  }

  lemma FirstIndexOfTail<T>(s: seq<T>, x: T)
    requires |s| > 0 && x in s[1..] && x != s[0]
    ensures FirstIndex(s, x) == FirstIndex(s[1..], x) + 1
  {
  }

  /** s.Distinct() keeps first occurrences in order: of two kept elements, the one
      listed first occurs first in s. Together with the two membership
      postconditions of Distinct this fixes its result completely. */
  lemma DistinctOrder<T>(s: seq<T>, i: nat, j: nat)
    requires i < j < |Distinct(s)|
    ensures FirstIndex(s, Distinct(s)[i]) < FirstIndex(s, Distinct(s)[j])
  {
    DistinctFromOrder(s, {}, i, j);
  }

  /** A sequence without duplicates is its own Distinct. */
  lemma {:induction false} DistinctOfUnique<T>(s: seq<T>, seen: set<T>)
    requires NoDuplicates(s)
    requires forall x :: x in s ==> x !in seen
    ensures DistinctFrom(s, seen) == s
  {
    if s != [] {
      assert forall x :: x in s[1..] ==> x !in seen + {s[0]};
      DistinctOfUnique(s[1..], seen + {s[0]});
    }
  }

  /** f applied to every element, in order. */
  function MapSeq<A, B>(s: seq<A>, f: A -> B): (r: seq<B>)
    ensures |r| == |s|
    ensures forall i :: 0 <= i < |s| ==> r[i] == f(s[i])
  {
    if s == [] then []
    else MapSeq(s[..|s| - 1], f) + [f(s[|s| - 1])]
  }

  /** List<T>.Remove(x): the first occurrence of x is taken out, if there is
      one. */
  function RemoveFirst<T(==)>(s: seq<T>, x: T): seq<T> {
    if s == [] then []
    else if s[0] == x then s[1..]
    else [s[0]] + RemoveFirst(s[1..], x)
  }

  /** One occurrence of x goes, if there is one, and nothing else. */
  lemma {:induction false} RemoveFirstCounts<T>(s: seq<T>, x: T)
    ensures x in s ==> multiset(RemoveFirst(s, x)) == multiset(s) - multiset{x}
    ensures x !in s ==> RemoveFirst(s, x) == s
  {
    if s != [] {
      assert s == [s[0]] + s[1..];
      if s[0] != x {
        RemoveFirstCounts(s[1..], x);
      }
    }
  }

  /** Remove takes out the element at the first position holding x. */
  lemma {:induction false} RemoveFirstAt<T>(s: seq<T>, x: T)
    requires x in s
    ensures RemoveFirst(s, x) == s[..FirstIndex(s, x)] + s[FirstIndex(s, x) + 1..]
  {
    if s[0] != x {
      var t := s[1..];
      RemoveFirstAt(t, x);
      var k := FirstIndex(t, x);
      assert FirstIndex(s, x) == k + 1;
      assert s[..k + 1] == [s[0]] + t[..k];
      assert s[k + 2..] == t[k + 1..];
    }
  }
}
