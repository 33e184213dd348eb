/** Cutting strings at separators: String.split with a negative limit, and the same cut respecting
    double quotes. */
module Splitting {

  /** Whether a quotation is open once c has been read; without quoting it never is. */
  predicate OpenNext(c: char, quoting: bool, open: bool) {
    quoting && (if c == '"' then !open else open)
  }

  predicate OpenAfter(s: string, quoting: bool, open: bool) {
    if s == "" then open else OpenAfter(s[1..], quoting, OpenNext(s[0], quoting, open))
  }

  /** The first piece begins with one more character. */
  function Longer(c: char, ps: seq<string>): (r: seq<string>)
    requires |ps| >= 1
    ensures |r| == |ps|
  {
    [[c] + ps[0]] + ps[1..]
  }

  /** The pieces of s between the separators outside quotations. */
  function Pieces(s: string, sep: char, quoting: bool, open: bool): (ps: seq<string>)
    ensures |ps| >= 1
  {
    if s == "" then [""]
    else if s[0] == sep && !open then [""] + Pieces(s[1..], sep, quoting, false)
    else Longer(s[0], Pieces(s[1..], sep, quoting, OpenNext(s[0], quoting, open)))
  }

  function Split(s: string, sep: char): (ps: seq<string>)
    ensures |ps| >= 1
  {
    Pieces(s, sep, false, false)
  }

  function Join(ps: seq<string>, sep: string): string {
    if ps == [] then ""
    else if |ps| == 1 then ps[0]
    else ps[0] + sep + Join(ps[1..], sep)
  }

  /** No separator of s stands outside a quotation. */
  predicate Uncut(s: string, sep: char, quoting: bool, open: bool) {
    s == "" || (!(s[0] == sep && !open) && Uncut(s[1..], sep, quoting, OpenNext(s[0], quoting, open)))
  }

  /** A piece that can be told apart again after joining. */
  predicate Whole(s: string, sep: char, quoting: bool) {
    Uncut(s, sep, quoting, false) && !OpenAfter(s, quoting, false)
  }

  ghost function Quotes(s: string): nat {
    if s == "" then 0 else (if s[0] == '"' then 1 else 0) + Quotes(s[1..])
  }

  // ---------------------------------------------------------------- reading on

  lemma {:induction false} OpenIsOddQuotes(s: string, open: bool)
    ensures OpenAfter(s, true, open) == (open != (Quotes(s) % 2 == 1))
  {
    if s != "" {
      OpenIsOddQuotes(s[1..], OpenNext(s[0], true, open));
    }
  }

  lemma {:induction false} NeverOpen(s: string)
    ensures !OpenAfter(s, false, false)
  {
    if s != "" {
      NeverOpen(s[1..]);
    }
  }

  lemma {:induction false} OpenAfterBoth(a: string, b: string, quoting: bool, open: bool)
    ensures OpenAfter(a + b, quoting, open) == OpenAfter(b, quoting, OpenAfter(a, quoting, open))
  {
    if a == "" {
      assert a + b == b;
    } else {
      assert (a + b)[1..] == a[1..] + b;
      OpenAfterBoth(a[1..], b, quoting, OpenNext(a[0], quoting, open));
    }
  }

  lemma {:induction false} UncutBoth(a: string, b: string, sep: char, quoting: bool, open: bool)
    ensures Uncut(a + b, sep, quoting, open) <==>
              Uncut(a, sep, quoting, open) && Uncut(b, sep, quoting, OpenAfter(a, quoting, open))
  {
    if a == "" {
      assert a + b == b;
    } else {
      assert (a + b)[1..] == a[1..] + b;
      UncutBoth(a[1..], b, sep, quoting, OpenNext(a[0], quoting, open));
    }
  }

  // ---------------------------------------------------------------- pieces and joins are inverse

  /** Joining the pieces gives the string back. */
  lemma {:induction false} JoinOfPieces(s: string, sep: char, quoting: bool, open: bool)
    ensures Join(Pieces(s, sep, quoting, open), [sep]) == s
  {
    if s != "" {
      assert s == [s[0]] + s[1..];
      if s[0] == sep && !open {
        JoinOfPieces(s[1..], sep, quoting, false);
        assert Pieces(s, sep, quoting, open)[1..] == Pieces(s[1..], sep, quoting, false);
      } else {
        var next := OpenNext(s[0], quoting, open);
        JoinOfPieces(s[1..], sep, quoting, next);
        JoinOfLonger(s[0], Pieces(s[1..], sep, quoting, next), sep);
      }
    }
  }

  lemma JoinUnfolds(ps: seq<string>, sep: string)
    requires |ps| >= 1
    ensures Join(ps, sep) == if |ps| == 1 then ps[0] else ps[0] + sep + Join(ps[1..], sep)
  {
  }

  lemma LongerParts(c: char, ps: seq<string>)
    requires |ps| >= 1
    ensures Longer(c, ps)[0] == [c] + ps[0] && Longer(c, ps)[1..] == ps[1..]
  {
  }

  lemma Regrouped(c: string, a: string, sep: string, rest: string)
    ensures c + a + sep + rest == c + (a + sep + rest)
  {
  }

  lemma JoinOfLonger(c: char, ps: seq<string>, sep: char)
    requires |ps| >= 1
    ensures Join(Longer(c, ps), [sep]) == [c] + Join(ps, [sep])
  {
    hide Join, Longer;
    LongerParts(c, ps);
    JoinUnfolds(ps, [sep]);
    JoinUnfolds(Longer(c, ps), [sep]);
    if |ps| > 1 {
      Regrouped([c], ps[0], [sep], Join(ps[1..], [sep]));
    }
  }

  lemma {:induction false} UncutIsOnePiece(s: string, sep: char, quoting: bool, open: bool)
    ensures Uncut(s, sep, quoting, open) <==> Pieces(s, sep, quoting, open) == [s]
  {
    if s != "" && !(s[0] == sep && !open) {
      var next := OpenNext(s[0], quoting, open);
      UncutIsOnePiece(s[1..], sep, quoting, next);
      var rest := Pieces(s[1..], sep, quoting, next);
      assert s == [s[0]] + s[1..];
      assert Longer(s[0], rest)[0][1..] == rest[0];
      assert |rest| == 1 ==> rest == [rest[0]];
    }
  }

  lemma {:induction false} NoSeparatorIsUncut(s: string, sep: char)
    requires sep !in s
    ensures Uncut(s, sep, false, false)
  {
    if s != "" {
      assert s[0] in s && forall c <- s[1..] :: c in s;
      NoSeparatorIsUncut(s[1..], sep);
    }
  }

  /** A separator outside quotations splits the work in two. */
  lemma {:induction false} PiecesOfBoth(a: string, b: string, sep: char, quoting: bool, open: bool)
    requires sep != '"' && !OpenAfter(a, quoting, open)
    ensures Pieces(a + [sep] + b, sep, quoting, open) == Pieces(a, sep, quoting, open) + Pieces(b, sep, quoting, false)
  {
    var s := a + [sep] + b;
    if a == "" {
      assert s[1..] == b;
    } else {
      assert s[1..] == a[1..] + [sep] + b;
      var next := OpenNext(a[0], quoting, open);
      PiecesOfBoth(a[1..], b, sep, quoting, next);
      LongerOfBoth(a[0], Pieces(a[1..], sep, quoting, next), Pieces(b, sep, quoting, false));
      hide Longer;
    }
  }

  lemma LongerOfBoth(c: char, ps: seq<string>, qs: seq<string>)
    requires |ps| >= 1
    ensures Longer(c, ps + qs) == Longer(c, ps) + qs
  {
  }

  /** Pieces that are whole survive joining and cutting. */
  lemma {:induction false} PiecesOfJoin(ps: seq<string>, sep: char, quoting: bool)
    requires sep != '"' && |ps| >= 1 && forall p <- ps :: Whole(p, sep, quoting)
    ensures Pieces(Join(ps, [sep]), sep, quoting, false) == ps
  {
    assert Whole(ps[0], sep, quoting);
    UncutIsOnePiece(ps[0], sep, quoting, false);
    if |ps| > 1 {
      PiecesOfBoth(ps[0], Join(ps[1..], [sep]), sep, quoting, false);
      PiecesOfJoin(ps[1..], sep, quoting);
    } else {
      assert ps == [ps[0]];
    }
  }

  /** When every quotation is closed, every piece is whole: with the two lemmas above, the pieces are
      the only whole strings that join to s. */
  lemma {:induction false} PiecesAreWhole(s: string, sep: char, quoting: bool, open: bool)
    requires sep != '"' && !OpenAfter(s, quoting, open)
    ensures var ps := Pieces(s, sep, quoting, open);
            && Uncut(ps[0], sep, quoting, open) && !OpenAfter(ps[0], quoting, open)
            && forall p <- ps[1..] :: Whole(p, sep, quoting)
  {
    if s != "" {
      var next := OpenNext(s[0], quoting, open);
      var rest := Pieces(s[1..], sep, quoting, next);
      PiecesAreWhole(s[1..], sep, quoting, next);
      if s[0] == sep && !open {
        assert rest == [rest[0]] + rest[1..];
      } else {
        assert ([s[0]] + rest[0])[1..] == rest[0];
      }
    }
  }

  // ---------------------------------------------------------------- where the cuts are

  /** Position i of s holds a separator outside quotations. */
  predicate Cut(s: string, i: int, sep: char, quoting: bool, open: bool) {
    0 <= i < |s| && s[i] == sep && !OpenAfter(s[..i], quoting, open)
  }

  /** Position i lies between two consecutive pieces. */
  predicate Boundary(ps: seq<string>, i: int) {
    |ps| > 1 && (i == |ps[0]| || Boundary(ps[1..], i - |ps[0]| - 1))
  }

  lemma BoundaryOfLonger(c: char, ps: seq<string>, i: int)
    requires |ps| >= 1
    ensures Boundary(Longer(c, ps), i + 1) <==> Boundary(ps, i)
  {
  }

  lemma {:induction false} BoundariesAreInside(ps: seq<string>, i: int)
    ensures Boundary(ps, i) ==> i >= 0
  {
    if |ps| > 1 {
      BoundariesAreInside(ps[1..], i - |ps[0]| - 1);
    }
  }

  /** The string is cut exactly at its separators outside quotations. */
  lemma {:induction false} CutsAreBoundaries(s: string, i: int, sep: char, quoting: bool, open: bool)
    requires sep != '"'
    ensures Cut(s, i, sep, quoting, open) <==> Boundary(Pieces(s, sep, quoting, open), i)
  {
    var ps := Pieces(s, sep, quoting, open);
    if i < 0 {
      BoundariesAreInside(ps, i);
    } else if s != "" {
      var next := OpenNext(s[0], quoting, open);
      CutsAreBoundaries(s[1..], i - 1, sep, quoting, next);
      var rest := Pieces(s[1..], sep, quoting, next);
      if 0 < i < |s| {
        assert s[..i][1..] == s[1..][..i - 1];
      }
      if s[0] == sep && !open {
        assert ps[1..] == rest;
      } else {
        BoundaryOfLonger(s[0], rest, i - 1);
      }
    }
  }

  /** How many cuts there are before position k. */
  function CutsBelow(s: string, k: nat, sep: char, quoting: bool, open: bool): nat {
    if k == 0 then 0
    else CutsBelow(s, k - 1, sep, quoting, open) + (if Cut(s, k - 1, sep, quoting, open) then 1 else 0)
  }

  lemma {:induction false} CutsShift(s: string, k: nat, sep: char, quoting: bool, open: bool)
    requires k < |s|
    ensures CutsBelow(s, k + 1, sep, quoting, open)
              == (if s[0] == sep && !open then 1 else 0)
                 + CutsBelow(s[1..], k, sep, quoting, OpenNext(s[0], quoting, open))
  {
    if k > 0 {
      CutsShift(s, k - 1, sep, quoting, open);
      assert s[..k][1..] == s[1..][..k - 1];
    }
  }

  /** There is one piece more than there are cuts. */
  lemma {:induction false} PiecesAreCounted(s: string, sep: char, quoting: bool, open: bool)
    requires sep != '"'
    ensures |Pieces(s, sep, quoting, open)| == 1 + CutsBelow(s, |s|, sep, quoting, open)
  {
    if s != "" {
      PiecesAreCounted(s[1..], sep, quoting, OpenNext(s[0], quoting, open));
      CutsShift(s, |s| - 1, sep, quoting, open);
    }
  }
}
