/**
 * The order in which Swift's `sorted()` lists strings, taken here as the
 * lexicographic order on characters, and the sorted listing of a set of strings.
 */
module Ordering {

  /** `a` sorts strictly before `b`: a proper prefix, or smaller at the first differing character. */
  predicate Below(a: string, b: string) {
    if a == [] then b != []
    else if b == [] then false
    else a[0] < b[0] || (a[0] == b[0] && Below(a[1..], b[1..]))
  }

  lemma {:induction false} BelowIrreflexive(a: string)
    ensures !Below(a, a)
  {
    if a != [] {
      BelowIrreflexive(a[1..]);
    }
  }

  lemma {:induction false} BelowTransitive(a: string, b: string, c: string)
    requires Below(a, b) && Below(b, c)
    ensures Below(a, c)
  {
    if a != [] && a[0] == b[0] && b[0] == c[0] {
      BelowTransitive(a[1..], b[1..], c[1..]);
    }
  }

  lemma {:induction false} BelowAsymmetric(a: string, b: string)
    requires Below(a, b)
    ensures !Below(b, a)
  {
    if a != [] && a[0] == b[0] {
      BelowAsymmetric(a[1..], b[1..]);
    }
  }

  /** Any two different strings are ordered one way or the other. */
  lemma {:induction false} BelowTotal(a: string, b: string)
    requires a != b
    ensures Below(a, b) || Below(b, a)
  {
    if a != [] && b != [] && a[0] == b[0] {
      assert a == [a[0]] + a[1..] && b == [b[0]] + b[1..];
      BelowTotal(a[1..], b[1..]);
    }
  }

  /** Every element after position `i` sorts after the one at `i`; so no string occurs twice. */
  predicate StrictlyIncreasing(r: seq<string>) {
    forall i, j | 0 <= i < j < |r| :: Below(r[i], r[j])
  }

  lemma NoRepeats(r: seq<string>, i: int, j: int)
    requires StrictlyIncreasing(r)
    requires 0 <= i < |r| && 0 <= j < |r| && i != j
    ensures r[i] != r[j]
  {
    if i < j {
      BelowIrreflexive(r[i]);
    } else {
      BelowIrreflexive(r[j]);
    }
  }

  /** `m` is the first of `s` in sort order. */
  predicate IsLeast(m: string, s: set<string>) {
    m in s && forall x | x in s :: x == m || Below(m, x)
  }

  lemma {:induction false} LeastExists(s: set<string>)
    requires s != {}
    ensures exists m :: IsLeast(m, s)
    decreases |s|
  {
    var x :| x in s;
    if s - {x} == {} {
      forall y | y in s
        ensures y == x
      {
        assert y !in s - {x};
      }
      assert IsLeast(x, s);
    } else {
      LeastExists(s - {x});
      var m :| IsLeast(m, s - {x});
      BelowTotal(x, m);
      if Below(x, m) {
        forall y | y in s && y != x
          ensures Below(x, y)
        {
          if y != m {
            BelowTransitive(x, m, y);
          }
        }
        assert IsLeast(x, s);
      } else {
        assert IsLeast(m, s);
      }
    }
  }

  lemma LeastUnique(m: string, n: string, s: set<string>)
    requires IsLeast(m, s) && IsLeast(n, s)
    ensures m == n
  {
    if m != n {
      BelowAsymmetric(m, n);
    }
  }

  /** The elements of `s` in sort order: what `Array(s).sorted()` gives. */
  ghost function Sorted(s: set<string>): seq<string>
    decreases |s|
  {
    if s == {} then []
    else
      LeastExists(s);
      var m :| IsLeast(m, s);
      [m] + Sorted(s - {m})
  }

  /** `Sorted(s)` lists every element of `s` and nothing else, once each, in increasing order. */
  lemma {:induction false} SortedListsSet(s: set<string>)
    ensures |Sorted(s)| == |s|
    ensures forall x :: x in Sorted(s) <==> x in s
    ensures StrictlyIncreasing(Sorted(s))
    decreases |s|
  {
    if s != {} {
      LeastExists(s);
      var m :| IsLeast(m, s) && Sorted(s) == [m] + Sorted(s - {m});
      SortedListsSet(s - {m});
      PrependLeast(m, s, Sorted(s - {m}));
    }
  }

  lemma PrependLeast(m: string, s: set<string>, rest: seq<string>)
    requires IsLeast(m, s)
    requires forall x :: x in rest <==> x in s - {m}
    requires StrictlyIncreasing(rest)
    ensures StrictlyIncreasing([m] + rest)
  {
    forall i, j | 0 <= i < j < |[m] + rest|
      ensures Below(([m] + rest)[i], ([m] + rest)[j])
    {
      if i == 0 {
        assert rest[j - 1] in rest;
      } else {
        assert ([m] + rest)[i] == rest[i - 1];
      }
    }
  }

  /** Listing a set starts with its least element. */
  lemma SortedFirst(s: set<string>, m: string)
    requires IsLeast(m, s)
    ensures Sorted(s) == [m] + Sorted(s - {m})
  {
    LeastExists(s);
    var n :| IsLeast(n, s) && Sorted(s) == [n] + Sorted(s - {n});
    LeastUnique(m, n, s);
  }

  /** Scans `s` once for its least element. */
  method Least(s: set<string>) returns (m: string)
    requires s != {}
    ensures IsLeast(m, s)
  {
    m :| m in s;
    var rest := s - {m};
    while rest != {}
      invariant rest <= s && m in s && m !in rest
      invariant forall x | x in s && x !in rest :: x == m || Below(m, x)
      decreases |rest|
    {
      var x :| x in rest;
      if Below(x, m) {
        forall y | y in s && y !in rest && y != m
          ensures Below(x, y)
        {
          BelowTransitive(x, m, y);
        }
        m := x;
      } else if x != m {
        BelowTotal(x, m);
      }
      rest := rest - {x};
    }
  }

  /** Sorts a set of strings by taking out its least element until none is left. */
  method SortedKeys(s: set<string>) returns (r: seq<string>)
    ensures r == Sorted(s)
  {
    r := [];
    var rest := s;
    while rest != {}
      invariant r + Sorted(rest) == Sorted(s)
      decreases |rest|
    {
      var m := Least(rest);
      SortedFirst(rest, m);
      var tail := Sorted(rest - {m});
      assert r + ([m] + tail) == (r + [m]) + tail;
      r := r + [m];
      rest := rest - {m};
    }
    assert Sorted(rest) == [];
    assert r + [] == r;
  }
}
