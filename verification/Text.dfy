/** The fragments of java.lang.String that the sources rely on. */
module Text {

  predicate AsciiDigit(c: char) { '0' <= c <= '9' }

  /** String.trim: strips every character up to and including U+0020 at both ends. */
  function Trim(s: string): string {
    TrimRight(TrimLeft(s))
  }

  function TrimLeft(s: string): string {
    if s != [] && s[0] <= ' ' then TrimLeft(s[1..]) else s
  }

  function TrimRight(s: string): string {
    if s != [] && s[|s| - 1] <= ' ' then TrimRight(s[..|s| - 1]) else s
  }

  ghost predicate Padding(s: string) {
    forall i :: 0 <= i < |s| ==> s[i] <= ' '
  }

  /** No character that trim would remove stands at either end. */
  ghost predicate Trimmed(s: string) {
    s != [] ==> s[0] > ' ' && s[|s| - 1] > ' '
  }

  lemma {:induction false} TrimLeftPadding(a: string, s: string)
    requires Padding(a)
    ensures TrimLeft(a + s) == TrimLeft(s)
  {
    if a == [] {
      assert a + s == s;
    } else {
      assert (a + s)[1..] == a[1..] + s;
      TrimLeftPadding(a[1..], s);
    }
  }

  lemma {:induction false} TrimRightPadding(s: string, b: string)
    requires Padding(b)
    ensures TrimRight(s + b) == TrimRight(s)
  {
    if b == [] {
      assert s + b == s;
    } else {
      assert (s + b)[..|s + b| - 1] == s + b[..|b| - 1];
      TrimRightPadding(s, b[..|b| - 1]);
    }
  }

  /** Trimming takes away exactly the padding around a trimmed core. */
  lemma TrimUnpads(a: string, s: string, b: string)
    requires Padding(a) && Padding(b) && Trimmed(s)
    ensures Trim(a + s + b) == s
  {
    assert a + s + b == a + (s + b);
    TrimLeftPadding(a, s + b);
    if s == [] {
      assert s + b == b;
      TrimLeftPadding(b, []);
      assert b + [] == b;
    } else {
      TrimRightPadding(s, b);
    }
  }

  /** toUpperCase(Locale.ROOT) on the ASCII range. */
  function UpperChar(c: char): char {
    if 'a' <= c <= 'z' then (c as int - 32) as char else c
  }

  function Upper(s: string): (r: string)
    ensures |r| == |s|
    ensures forall i :: 0 <= i < |s| ==> r[i] == UpperChar(s[i])
  {
    seq(|s|, i requires 0 <= i < |s| => UpperChar(s[i]))
  }

  /** A small letter and its capital: ASCII keeps them 32 places apart. */
  predicate SmallAndCapital(small: char, capital: char) {
    'a' <= small <= 'z' && 'A' <= capital <= 'Z' && small as int == capital as int + 32
  }

  predicate SameLetter(a: char, b: char) { a == b || SmallAndCapital(a, b) || SmallAndCapital(b, a) }

  /** The same text up to the case of its letters. */
  predicate SameLetters(a: string, b: string) {
    |a| == |b| && forall i :: 0 <= i < |a| ==> SameLetter(a[i], b[i])
  }

  /** Upper-casing forgets the case of letters and nothing else. */
  lemma UpperTellsLetters(a: string, b: string)
    ensures Upper(a) == Upper(b) <==> SameLetters(a, b)
    ensures SameLetters(Upper(a), a)
    ensures (forall i :: 0 <= i < |a| ==> !('a' <= a[i] <= 'z')) ==> Upper(a) == a
  {
    if Upper(a) == Upper(b) {
      forall i | 0 <= i < |a| ensures SameLetter(a[i], b[i]) {
        assert Upper(a)[i] == Upper(b)[i];
      }
    }
  }
}
