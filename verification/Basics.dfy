/** Small shared definitions: optional values and the code-point order on strings. */
module Basics {

  datatype Option<+T> = None | Some(value: T)

  function Last<T>(s: seq<T>): T
    requires s != []
  {
    s[|s| - 1]
  }

  function Init<T>(s: seq<T>): seq<T>
    requires s != []
  {
    s[..|s| - 1]
  }

  predicate Distinct<T(==)>(s: seq<T>) {
    forall i, j :: 0 <= i < j < |s| ==> s[i] != s[j]
  }

  lemma Regroup<T>(a: seq<T>, b: seq<T>, c: seq<T>)
    ensures a + (b + c) == (a + b) + c
  {
  }

  lemma SubsetSize<T>(a: set<T>, b: set<T>)
    requires a <= b
    ensures |a| <= |b|
  {
    if x :| x in a {
      SubsetSize(a - {x}, b - {x});
    }
  }

  /** A number past all those taken. */
  lemma {:induction false} Unused(taken: set<nat>) returns (n: nat)
    ensures n !in taken && forall v :: v in taken ==> v < n
  {
    if taken == {} {
      n := 0;
    } else {
      var v :| v in taken;
      var u := Unused(taken - {v});
      assert forall x :: x in taken ==> x == v || x in taken - {v};
      n := if v < u then u else v + 1;
    }
  }

  /** `a` sorts strictly before `b`, by code point. */
  predicate Before(a: string, b: string) {
    if b == [] then false
    else if a == [] then true
    else a[0] < b[0] || (a[0] == b[0] && Before(a[1..], b[1..]))
  }

  lemma {:induction false} BeforeTotal(a: string, b: string)
    ensures Before(a, b) || Before(b, a) || a == b
  {
    if a != [] && b != [] && a[0] == b[0] {
      BeforeTotal(a[1..], b[1..]);
      assert a == [a[0]] + a[1..] && b == [b[0]] + b[1..];
    }
  }

  lemma {:induction false} BeforeTransitive(a: string, b: string, c: string)
    requires Before(a, b) && Before(b, c)
    ensures Before(a, c)
  {
    if a != [] && a[0] == b[0] == c[0] {
      BeforeTransitive(a[1..], b[1..], c[1..]);
    }
  }

  lemma {:induction false} BeforeIrreflexive(a: string)
    ensures !Before(a, a)
  {
    if a != [] {
      BeforeIrreflexive(a[1..]);
    }
  }

  /** A proper extension sorts after its prefix. */
  lemma {:induction false} PrefixFirst(p: string, s: string)
    requires p <= s && p != s
    ensures Before(p, s)
  {
    if p != [] {
      PrefixFirst(p[1..], s[1..]);
    }
  }
}
