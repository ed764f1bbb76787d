/** Text helpers over `string` (= `seq<char>`) standing for the Foundation string operations the app uses. */
module Strings {

  /** `s.hasPrefix(p)` */
  predicate StartsWith(s: string, p: string) {
    |p| <= |s| && s[..|p|] == p
  }

  /** `s.hasSuffix(p)` */
  predicate EndsWith(s: string, p: string) {
    |p| <= |s| && s[|s| - |p|..] == p
  }

  /** `p` occurs in `s` starting at index `i`. */
  predicate OccursAt(s: string, p: string, i: nat) {
    i + |p| <= |s| && s[i..i + |p|] == p
  }

  /** `s.contains(p)` for a substring `p`: `p` occurs at some index. */
  predicate Contains(s: string, p: string) {
    ContainsFrom(s, p, 0)
  }

  /** `p` occurs in `s` at index `i` or later. */
  predicate ContainsFrom(s: string, p: string, i: nat)
    decreases |s| - i
  {
    i + |p| <= |s| && (OccursAt(s, p, i) || ContainsFrom(s, p, i + 1))
  }

  /** An occurrence at a given index is a witness for `Contains`. */
  lemma ContainsAt(s: string, p: string, i: nat)
    requires OccursAt(s, p, i)
    ensures Contains(s, p)
  {
    ContainsFromBelow(s, p, 0, i);
  }

  lemma {:induction false} ContainsFromBelow(s: string, p: string, k: nat, i: nat)
    requires k <= i && OccursAt(s, p, i)
    ensures ContainsFrom(s, p, k)
    decreases i - k
  {
    if k < i {
      ContainsFromBelow(s, p, k + 1, i);
    }
  }

  /** `Contains` holds exactly when there is an index of occurrence. */
  lemma {:induction false} ContainsIndex(s: string, p: string, k: nat)
    requires ContainsFrom(s, p, k)
    ensures exists i: nat :: k <= i && OccursAt(s, p, i)
    decreases |s| - k
  {
    if !OccursAt(s, p, k) {
      ContainsIndex(s, p, k + 1);
    }
  }

  /** Lower-casing of one character; the prompts and keywords of the app are ASCII. */
  function LowerChar(c: char): (d: char)
    ensures 'A' <= c <= 'Z' ==> 'a' <= d <= 'z'
    ensures !('A' <= c <= 'Z') ==> d == c
  {
    if 'A' <= c <= 'Z' then (c as int - 'A' as int + 'a' as int) as char else c
  }

  /** `s.lowercased()`, character by character. */
  function Lower(s: string): (r: string)
    ensures |r| == |s|
    ensures forall i :: 0 <= i < |s| ==> r[i] == LowerChar(s[i])
  {
    seq(|s|, i requires 0 <= i < |s| => LowerChar(s[i]))
  }

  /** Lower-casing commutes with taking a slice. */
  lemma LowerSlice(s: string, i: nat, j: nat)
    requires i <= j <= |s|
    ensures Lower(s)[i..j] == Lower(s[i..j])
  {
  }

  /**
   * `s.replacingOccurrences(of: p, with: "")`: scans left to right and drops every
   * non-overlapping occurrence of `p`.
   */
  function RemoveAll(s: string, p: string): (r: string)
    requires p != []
    decreases |s|
  {
    if s == [] then []
    else if StartsWith(s, p) then RemoveAll(s[|p|..], p)
    else [s[0]] + RemoveAll(s[1..], p)
  }

  /** Removal never lengthens a string, and removes at least one character from a string holding `p`. */
  lemma {:induction false} RemoveAllShrinks(s: string, p: string)
    requires p != []
    ensures |RemoveAll(s, p)| <= |s|
    ensures Contains(s, p) ==> |RemoveAll(s, p)| < |s|
    decreases |s|
  {
    if s == [] {
    } else if StartsWith(s, p) {
      RemoveAllShrinks(s[|p|..], p);
    } else {
      RemoveAllShrinks(s[1..], p);
      if Contains(s, p) {
        ContainsIndex(s, p, 0);
        var i: nat :| OccursAt(s, p, i);
        assert i != 0;
        assert OccursAt(s[1..], p, i - 1) by {
          assert s[1..][i - 1..i - 1 + |p|] == s[i..i + |p|];
        }
        ContainsAt(s[1..], p, i - 1);
      }
    }
  }

  /** A string without any occurrence of `p` is left as it is. */
  lemma {:induction false} RemoveAllAbsent(s: string, p: string)
    requires p != []
    requires !Contains(s, p)
    ensures RemoveAll(s, p) == s
    decreases |s|
  {
    if s != [] {
      assert !StartsWith(s, p);
      assert !Contains(s[1..], p) by {
        if Contains(s[1..], p) {
          ContainsIndex(s[1..], p, 0);
          var i: nat :| OccursAt(s[1..], p, i);
          assert s[1..][i..i + |p|] == s[i + 1..i + 1 + |p|];
          assert OccursAt(s, p, i + 1);
          ContainsAt(s, p, i + 1);
        }
      }
      RemoveAllAbsent(s[1..], p);
      assert [s[0]] + s[1..] == s;
    }
  }

  /** `Contains` is transitive: what occurs in an infix of `s` occurs in `s`. */
  lemma ContainsTransitive(s: string, x: string, p: string)
    requires Contains(s, x) && Contains(x, p)
    ensures Contains(s, p)
  {
    ContainsIndex(s, x, 0);
    ContainsIndex(x, p, 0);
    var i: nat :| OccursAt(s, x, i);
    var j: nat :| OccursAt(x, p, j);
    assert forall m :: 0 <= m < |p| ==> s[i + j + m] == x[j + m] == p[m];
    assert s[i + j..i + j + |p|] == p;
    ContainsAt(s, p, i + j);
  }

  /** A string occurs in any string built around it. */
  lemma ContainsInfix(a: string, x: string, b: string)
    ensures Contains(a + x + b, x)
  {
    assert (a + x + b)[|a|..|a| + |x|] == x;
    ContainsAt(a + x + b, x, |a|);
  }

  /** Lower-casing preserves occurrences. */
  lemma LowerContains(s: string, p: string)
    requires Contains(s, p)
    ensures Contains(Lower(s), Lower(p))
  {
    ContainsIndex(s, p, 0);
    var i: nat :| OccursAt(s, p, i);
    LowerSlice(s, i, i + |p|);
    ContainsAt(Lower(s), Lower(p), i);
  }

  /**
   * `s.split(separator: sep)` as Swift does it: the maximal runs of characters other than
   * `sep`, left to right; empty pieces (from leading, trailing or doubled separators) are dropped.
   */
  function Split(s: string, sep: char): (r: seq<string>)
    ensures forall k :: 0 <= k < |r| ==> r[k] != [] && sep !in r[k]
  {
    SplitFrom(s, sep, [])
  }

  /** `Split` of `s` when `piece` has already been read since the last separator. */
  function SplitFrom(s: string, sep: char, piece: string): (r: seq<string>)
    requires sep !in piece
    ensures forall k :: 0 <= k < |r| ==> r[k] != [] && sep !in r[k]
    decreases |s|
  {
    if s == [] then
      (if piece == [] then [] else [piece])
    else if s[0] == sep then
      (if piece == [] then [] else [piece]) + SplitFrom(s[1..], sep, [])
    else
      SplitFrom(s[1..], sep, piece + [s[0]])
  }

  /** The pieces joined back with `sep` between them (`joined(separator:)`). */
  function Join(ws: seq<string>, sep: char): string
  {
    if |ws| == 0 then []
    else if |ws| == 1 then ws[0]
    else ws[0] + [sep] + Join(ws[1..], sep)
  }

  /** Joining pieces the first of which is non-empty gives a non-empty string. */
  lemma JoinNonEmpty(ws: seq<string>, sep: char)
    requires ws != [] && ws[0] != []
    ensures Join(ws, sep) != []
  {
  }

  /** A non-empty middle framed by `opening` and `closing`. */
  lemma Framed(opening: string, middle: string, closing: string)
    requires middle != []
    ensures StartsWith(opening + middle + closing, opening)
    ensures EndsWith(opening + middle + closing, closing)
    ensures |opening + middle + closing| > |opening| + |closing|
  {
    var s := opening + middle + closing;
    assert s[..|opening|] == opening;
    assert s[|s| - |closing|..] == closing;
  }

  /** The pieces `Split` can produce: non-empty and free of the separator. */
  predicate Pieces(ws: seq<string>, sep: char) {
    forall k :: 0 <= k < |ws| ==> ws[k] != [] && sep !in ws[k]
  }

  /** Reading a run of non-separators only extends the current piece. */
  lemma {:induction false} SplitFromRun(w: string, t: string, sep: char, piece: string)
    requires sep !in piece && sep !in w
    ensures SplitFrom(w + t, sep, piece) == SplitFrom(t, sep, piece + w)
    decreases |w|
  {
    if w != [] {
      assert (w + t)[0] == w[0] != sep;
      assert (w + t)[1..] == w[1..] + t;
      assert SplitFrom(w + t, sep, piece) == SplitFrom(w[1..] + t, sep, piece + [w[0]]);
      SplitFromRun(w[1..], t, sep, piece + [w[0]]);
      assert piece + [w[0]] + w[1..] == piece + w;
    } else {
      assert w + t == t && piece + w == piece;
    }
  }

  /** A separator ends the pieces read so far: splitting distributes over it. */
  lemma {:induction false} SplitFromAround(s: string, t: string, sep: char, piece: string)
    requires sep !in piece
    ensures SplitFrom(s + [sep] + t, sep, piece) == SplitFrom(s, sep, piece) + SplitFrom(t, sep, [])
    decreases |s|
  {
    if s == [] {
      assert s + [sep] + t == [sep] + t;
      assert ([sep] + t)[1..] == t;
    } else {
      assert (s + [sep] + t)[1..] == s[1..] + [sep] + t;
      if s[0] == sep {
        SplitFromAround(s[1..], t, sep, []);
      } else {
        SplitFromAround(s[1..], t, sep, piece + [s[0]]);
      }
    }
  }

  /** Joining well-formed pieces and splitting the result gives the pieces back. */
  lemma {:induction false} SplitJoin(ws: seq<string>, sep: char)
    requires Pieces(ws, sep)
    ensures Split(Join(ws, sep), sep) == ws
    decreases |ws|
  {
    if |ws| == 1 {
      SplitFromRun(ws[0], [], sep, []);
      assert ws[0] + [] == ws[0] && [] + ws[0] == ws[0];
    } else if |ws| > 1 {
      assert Join(ws, sep) == ws[0] + [sep] + Join(ws[1..], sep);
      SplitFromAround(ws[0], Join(ws[1..], sep), sep, []);
      SplitFromRun(ws[0], [], sep, []);
      assert ws[0] + [] == ws[0] && [] + ws[0] == ws[0];
      assert SplitFrom(ws[0], sep, []) == [ws[0]];
      SplitJoin(ws[1..], sep);
      assert ws == [ws[0]] + ws[1..];
    }
  }

  /** Joining is injective on well-formed pieces. */
  lemma JoinInjective(ws: seq<string>, vs: seq<string>, sep: char)
    requires Pieces(ws, sep) && Pieces(vs, sep)
    requires Join(ws, sep) == Join(vs, sep)
    ensures ws == vs
  {
    SplitJoin(ws, sep);
    SplitJoin(vs, sep);
  }

  /** Every piece occurs in the joined string. */
  lemma {:induction false} JoinContainsPiece(ws: seq<string>, sep: char, k: nat)
    requires k < |ws|
    ensures Contains(Join(ws, sep), ws[k])
    decreases |ws|
  {
    if |ws| == 1 {
      ContainsInfix([], ws[0], []);
      assert [] + ws[0] + [] == ws[0];
    } else if k == 0 {
      ContainsInfix([], ws[0], [sep] + Join(ws[1..], sep));
      assert [] + ws[0] + ([sep] + Join(ws[1..], sep)) == Join(ws, sep);
    } else {
      JoinContainsPiece(ws[1..], sep, k - 1);
      ContainsInfix(ws[0] + [sep], Join(ws[1..], sep), []);
      assert ws[0] + [sep] + Join(ws[1..], sep) + [] == Join(ws, sep);
      ContainsTransitive(Join(ws, sep), Join(ws[1..], sep), ws[k]);
    }
  }

  /** Two neighbouring pieces occur in the joined string with the separator between them. */
  lemma {:induction false} JoinContainsPair(ws: seq<string>, sep: char, k: nat)
    requires k + 1 < |ws|
    ensures Contains(Join(ws, sep), ws[k] + [sep] + ws[k + 1])
    decreases |ws|
  {
    var pair := ws[k] + [sep] + ws[k + 1];
    if k == 0 {
      if |ws| == 2 {
        ContainsInfix([], pair, []);
        assert [] + pair + [] == Join(ws, sep);
      } else {
        var rest := Join(ws[2..], sep);
        assert Join(ws[1..], sep) == ws[1] + [sep] + rest;
        ContainsInfix([], pair, [sep] + rest);
        assert [] + pair + ([sep] + rest) == Join(ws, sep);
      }
    } else {
      JoinContainsPair(ws[1..], sep, k - 1);
      ContainsInfix(ws[0] + [sep], Join(ws[1..], sep), []);
      assert ws[0] + [sep] + Join(ws[1..], sep) + [] == Join(ws, sep);
      ContainsTransitive(Join(ws, sep), Join(ws[1..], sep), pair);
    }
  }
}
