/**
 Sequence and finite-set facts shared by the ring, the quorum proofs and the object layer.
 */
module Sequences {

  function Min(a: int, b: int): (m: int)
    ensures m <= a && m <= b && (m == a || m == b)
  {
    if a <= b then a else b
  }

  function Max(a: nat, b: nat): (m: nat)
    ensures m >= a && m >= b && (m == a || m == b)
  {
    if a >= b then a else b
  }

  /** The elements of `s` that satisfy `f`, in order. */
  function Keep<T>(f: T -> bool, s: seq<T>): (r: seq<T>)
  {
    if s == [] then []
    else
      var last := s[|s| - 1];
      Keep(f, s[..|s| - 1]) + (if f(last) then [last] else [])
  }

  lemma KeepLast<T>(f: T -> bool, s: seq<T>)
    requires s != []
    ensures Keep(f, s) == if f(s[|s| - 1]) then Keep(f, s[..|s| - 1]) + [s[|s| - 1]] else Keep(f, s[..|s| - 1])
  {
  }

  lemma {:induction false} KeepMember<T>(f: T -> bool, s: seq<T>, x: T)
    ensures x in Keep(f, s) <==> x in s && f(x)
  {
    if s != [] {
      KeepMember(f, s[..|s| - 1], x);
      assert s == s[..|s| - 1] + [s[|s| - 1]];
    }
  }

  lemma {:induction false} KeepAppend<T>(f: T -> bool, a: seq<T>, b: seq<T>)
    ensures Keep(f, a + b) == Keep(f, a) + Keep(f, b)
  {
    if b == [] {
      assert a + b == a;
    } else {
      var n := |b| - 1;
      assert (a + b)[..|a + b| - 1] == a + b[..n];
      KeepAppend(f, a, b[..n]);
    }
  }

  lemma {:induction false} KeepCommutes<T>(f: T -> bool, g: T -> bool, s: seq<T>)
    ensures Keep(f, Keep(g, s)) == Keep(g, Keep(f, s))
  {
    if s != [] {
      var n := |s| - 1;
      KeepCommutes(f, g, s[..n]);
      KeepAppend(f, Keep(g, s[..n]), if g(s[n]) then [s[n]] else []);
      KeepAppend(g, Keep(f, s[..n]), if f(s[n]) then [s[n]] else []);
    }
  }

  lemma {:induction false} KeepAll<T>(f: T -> bool, s: seq<T>)
    requires forall i :: 0 <= i < |s| ==> f(s[i])
    ensures Keep(f, s) == s
  {
    if s != [] {
      KeepAll(f, s[..|s| - 1]);
    }
  }

  lemma {:induction false} KeepNone<T>(f: T -> bool, s: seq<T>)
    requires forall i :: 0 <= i < |s| ==> !f(s[i])
    ensures Keep(f, s) == []
  {
    if s != [] {
      KeepNone(f, s[..|s| - 1]);
    }
  }

  lemma {:induction false} KeepCount<T>(f: T -> bool, s: seq<T>, x: T)
    ensures multiset(Keep(f, s))[x] == if f(x) then multiset(s)[x] else 0
  {
    if s != [] {
      KeepCount(f, s[..|s| - 1], x);
      assert s == s[..|s| - 1] + [s[|s| - 1]];
    }
  }

  predicate Distinct<T(==)>(s: seq<T>) {
    forall i, j :: 0 <= i < j < |s| ==> s[i] != s[j]
  }

  function Elements<T>(s: seq<T>): set<T> {
    set x | x in s
  }

  lemma {:induction false} DistinctSize<T>(s: seq<T>)
    requires Distinct(s)
    ensures |Elements(s)| == |s|
  {
    if s == [] {
      assert Elements(s) == {};
    } else {
      var n := |s| - 1;
      DistinctSize(s[..n]);
      assert Elements(s) == Elements(s[..n]) + {s[n]};
    }
  }

  lemma {:induction false} SubsetSize<T>(a: set<T>, b: set<T>)
    requires a <= b
    ensures |a| <= |b|
    ensures |a| == |b| ==> a == b
  {
    assert b == a + (b - a);
    assert |b| == |a| + |b - a|;
  }

  /** Two subsets of a set whose sizes add up to more than the set have a common element. */
  lemma QuorumsMeet<T>(a: set<T>, b: set<T>, all: set<T>)
    requires a <= all && b <= all
    requires |a| + |b| > |all|
    ensures exists x :: x in a && x in b
  {
    if a * b == {} {
      assert |a + b| == |a| + |b|;
      SubsetSize(a + b, all);
      assert false;
    }
    var x :| x in a * b;
    assert x in a && x in b;
  }

  /** First occurrences of the elements of `s`, in order: what a walk collecting unseen elements yields. */
  function FirstOccurrences<T(==)>(s: seq<T>): (r: seq<T>)
    ensures Distinct(r)
  {
    if s == [] then []
    else
      var last := s[|s| - 1];
      var r := FirstOccurrences(s[..|s| - 1]);
      if last in r then r else r + [last]
  }

  lemma {:induction false} FirstOccurrencesMember<T>(s: seq<T>, x: T)
    ensures x in FirstOccurrences(s) <==> x in s
  {
    if s != [] {
      FirstOccurrencesMember(s[..|s| - 1], x);
      assert s == s[..|s| - 1] + [s[|s| - 1]];
    }
  }

  lemma {:induction false} FirstOccurrencesKeep<T>(f: T -> bool, s: seq<T>)
    ensures FirstOccurrences(Keep(f, s)) == Keep(f, FirstOccurrences(s))
  {
    if s != [] {
      var n := |s| - 1;
      var r := FirstOccurrences(s[..n]);
      FirstOccurrencesKeep(f, s[..n]);
      KeepMember(f, r, s[n]);
      if f(s[n]) {
        assert Keep(f, s)[..|Keep(f, s)| - 1] == Keep(f, s[..n]);
      } else {
        assert Keep(f, s) == Keep(f, s[..n]);
      }
      if s[n] !in r {
        KeepAppend(f, r, [s[n]]);
        assert Keep(f, [s[n]]) == if f(s[n]) then [s[n]] else [];
      }
    }
  }

  /** A longer walk only extends what a shorter one collected. */
  lemma {:induction false} FirstOccurrencesPrefix<T>(s: seq<T>, t: nat)
    requires t <= |s|
    ensures FirstOccurrences(s[..t]) <= FirstOccurrences(s)
    decreases |s|
  {
    if t < |s| {
      FirstOccurrencesPrefix(s[..|s| - 1], t);
      assert s[..|s| - 1][..t] == s[..t];
    } else {
      assert s[..t] == s;
    }
  }
}
