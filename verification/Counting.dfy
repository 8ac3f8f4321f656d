/// Counting in finite sets.

module Counting {

  lemma {:induction false} RangeSize(n: nat) returns (s: set<nat>)
    ensures |s| == n && forall i: nat :: i in s <==> i < n
  {
    if n == 0 {
      s := {};
    } else {
      s := RangeSize(n - 1);
      s := s + {n - 1};
    }
  }

  lemma {:induction false} SubsetSize(a: set<nat>, b: set<nat>)
    requires a <= b
    ensures |a| <= |b|
  {
    if a != {} {
      var x :| x in a;
      SubsetSize(a - {x}, b - {x});
    }
  }

  lemma {:induction false} ElementsSize(s: seq<nat>) returns (e: set<nat>)
    ensures |e| <= |s| && forall x :: x in s ==> x in e
  {
    if s == [] {
      e := {};
    } else {
      e := ElementsSize(s[1..]);
      assert forall x :: x in s ==> x == s[0] || x in s[1..];
      e := e + {s[0]};
    }
  }

  /** Fewer than `n` occupied buckets leave one free. */
  lemma FreeBucket(occupied: seq<nat>, n: nat) returns (b: nat)
    requires |occupied| < n
    ensures b < n && b !in occupied
  {
    var range := RangeSize(n);
    var taken := ElementsSize(occupied);
    if range <= taken {
      SubsetSize(range, taken);
    }
    b :| b in range && b !in taken;
  }

  /** Sets of numbers below `n` have at most `n` elements. */
  lemma AtMost(a: set<nat>, n: nat)
    requires forall x :: x in a ==> x < n
    ensures |a| <= n
  {
    var range := RangeSize(n);
    SubsetSize(a, range);
  }

  /** ... and all `n` numbers, if they have `n` elements. */
  lemma AllOf(a: set<nat>, n: nat, x: nat)
    requires (forall y :: y in a ==> y < n) && |a| >= n && x < n
    ensures x in a
  {
    if x !in a {
      assert |a + {x}| == |a| + 1;
      AtMost(a + {x}, n);
    }
  }

  /** Two majorities have an element in common. */
  lemma Overlap(a: set<nat>, b: set<nat>, n: nat) returns (x: nat)
    requires (forall y :: y in a ==> y < n) && (forall y :: y in b ==> y < n)
    requires |a| + |b| > n
    ensures x in a && x in b
  {
    AtMost(a + b, n);
    assert |a + b| + |a * b| == |a| + |b|;
    x :| x in a * b;
  }
}
