/** Numeric client addresses. */
module ClientIp {
  import opened Wrappers
  import opened Text
  import opened Numerals
  import opened Splitting

  /** The parts of the Java runtime the addresses depend on: how a character reads as a digit, and
      how InetAddress.getByName reads a literal that contains a colon. */
  datatype Jdk = Jdk(digit: char -> Option<nat>, ipv6: string -> Option<seq<bv8>>)

  ghost predicate Sound(jdk: Jdk) {
    && ReadsDigits(jdk.digit)
    && (forall s :: jdk.ipv6(s).Some? ==> |jdk.ipv6(s).value| == 4 || |jdk.ipv6(s).value| == 16)
  }

  /** Two addresses are equal exactly when their bytes are. */
  datatype Address = Address(bytes: seq<bv8>)

  // ---------------------------------------------------------------- characters

  /** Character.isWhitespace. */
  predicate WhiteSpace(c: char) {
    || 9 as char <= c <= 13 as char || 28 as char <= c <= 32 as char
    || c == '\U{1680}' || '\U{2000}' <= c <= '\U{2006}' || '\U{2008}' <= c <= '\U{200A}'
    || c == '\U{2028}' || c == '\U{2029}' || c == '\U{205F}' || c == '\U{3000}'
  }

  /** Space, line and paragraph separators without the three that do not break, and nine controls. */
  lemma WhiteSpaceByNumber(c: char)
    ensures WhiteSpace(c) <==>
              c as int in {9, 10, 11, 12, 13, 28, 29, 30, 31, 32, 0x1680, 0x2000, 0x2001, 0x2002, 0x2003, 0x2004,
                           0x2005, 0x2006, 0x2008, 0x2009, 0x200a, 0x2028, 0x2029, 0x205f, 0x3000}
  {
  }

  /** String.isBlank. */
  predicate Blank(s: string) {
    forall i :: 0 <= i < |s| ==> WhiteSpace(s[i])
  }

  predicate Ipv6Char(c: char) {
    AsciiDigit(c) || 'a' <= c <= 'f' || 'A' <= c <= 'F' || c == ':' || c == '.'
  }

  // ---------------------------------------------------------------- IPv4 literals

  /** One group of the pattern: 0 or [1-9]\d{0,2}. */
  predicate OctetFormat(s: string) { Canonical(s) && |s| <= 3 }

  predicate OctetInRange(s: string, jdk: Jdk) {
    ParseInt(s, jdk.digit).Some? && ParseInt(s, jdk.digit).value <= 255
  }

  /** Four dotted groups of the pattern, each at most 255. The pattern has no dot inside a group, so
      matching it is cutting at the dots. */
  predicate Ipv4Literal(s: string, jdk: Jdk) {
    var parts := Split(s, '.');
    && |parts| == 4
    && (forall p <- parts :: OctetFormat(p))
    && (forall p <- parts :: OctetInRange(p, jdk))
  }

  function Octet(s: string, jdk: Jdk): bv8 {
    match ParseInt(s, jdk.digit)
    case Some(n) => if 0 <= n <= 255 then n as bv8 else 0
    case None => 0
  }

  function Ipv4Bytes(s: string, jdk: Jdk): seq<bv8> {
    var parts := Split(s, '.');
    seq(|parts|, i requires 0 <= i < |parts| => Octet(parts[i], jdk))
  }

  /** The canonical text of an IPv4 address. */
  function Dotted(b: seq<bv8>): string {
    Join(seq(|b|, i requires 0 <= i < |b| => Decimal(b[i] as nat)), ".")
  }

  // ---------------------------------------------------------------- literals

  predicate Ipv6Literal(s: string) {
    ':' in s && forall i :: 0 <= i < |s| ==> Ipv6Char(s[i])
  }

  /** toLowerCase on the ASCII range. */
  function Lower(s: string): string {
    seq(|s|, i requires 0 <= i < |s| => if 'A' <= s[i] <= 'Z' then (s[i] as int + 32) as char else s[i])
  }

  /** Lower-casing forgets the case of letters and nothing else. */
  lemma LowerTellsLetters(a: string, b: string)
    ensures Lower(a) == Lower(b) <==> SameLetters(a, b)
    ensures (forall i :: 0 <= i < |a| ==> !('A' <= a[i] <= 'Z')) ==> Lower(a) == a
  {
    if Lower(a) == Lower(b) {
      forall i | 0 <= i < |a| ensures SameLetter(a[i], b[i]) {
        assert Lower(a)[i] == Lower(b)[i];
      }
    }
  }

  const MAPPED_PREFIX := "::ffff:"

  /** parseLiteral. A four-byte answer is acceptable for an IPv6 literal only in mapped notation. */
  function ParseLiteral(literal: Option<string>, jdk: Jdk): Result<Address> {
    match literal
    case None => Failure
    case Some(s) =>
      if Blank(s) || '%' in s then Failure
      else if Ipv4Literal(s, jdk) then Success(Address(Ipv4Bytes(s, jdk)))
      else if !Ipv6Literal(s) then Failure
      else
        match jdk.ipv6(s)
        case None => Failure
        case Some(b) =>
          if |b| == 16 || MAPPED_PREFIX <= Lower(s) then Success(Address(b)) else Failure
  }

  // ---------------------------------------------------------------- IPv4 literals are the prints of four octets

  lemma OctetIsDecimal(s: string, jdk: Jdk)
    requires ReadsDigits(jdk.digit) && OctetFormat(s) && OctetInRange(s, jdk)
    ensures s == Decimal(Octet(s, jdk) as nat)
  {
    ParseIntOfCanonical(s, jdk.digit);
    ByteOfInt(ParseInt(s, jdk.digit).value);
  }

  lemma ByteOfInt(n: nat)
    requires n < 256
    ensures (n as bv8) as nat == n
  {
    var k := n as int;
    assert 0 <= k < 256;
    assert k % 256 == k;
  }

  lemma DecimalIsOctet(b: bv8, jdk: Jdk)
    requires ReadsDigits(jdk.digit)
    ensures var s := Decimal(b as nat); OctetFormat(s) && OctetInRange(s, jdk) && Octet(s, jdk) == b
  {
    DecimalIsCanonical(b as nat);
    DecimalLength(b as nat);
    ParseIntOfDecimal(b as nat, jdk.digit);
  }

  lemma {:induction false} CanonicalIsWhole(s: string, sep: char, quoting: bool)
    requires (forall i :: 0 <= i < |s| ==> AsciiDigit(s[i])) && !AsciiDigit(sep)
    ensures Whole(s, sep, quoting)
  {
    if s != "" {
      assert AsciiDigit(s[0]);
      CanonicalIsWhole(s[1..], sep, quoting);
    }
  }

  /** The accepted IPv4 literals are exactly the printed forms of four octets. */
  lemma Ipv4LiteralsAreDotted(s: string, b: seq<bv8>, jdk: Jdk)
    requires ReadsDigits(jdk.digit)
    ensures Ipv4Literal(s, jdk) && Ipv4Bytes(s, jdk) == b <==> |b| == 4 && s == Dotted(b)
  {
    var texts := seq(|b|, i requires 0 <= i < |b| => Decimal(b[i] as nat));
    if Ipv4Literal(s, jdk) && Ipv4Bytes(s, jdk) == b {
      var parts := Split(s, '.');
      forall i | 0 <= i < 4 ensures parts[i] == texts[i] {
        OctetIsDecimal(parts[i], jdk);
      }
      assert parts == texts;
      JoinOfPieces(s, '.', false, false);
    }
    if |b| == 4 && s == Dotted(b) {
      DottedIsLiteral(b, jdk);
    }
  }

  lemma DottedIsLiteral(b: seq<bv8>, jdk: Jdk)
    requires ReadsDigits(jdk.digit) && |b| == 4
    ensures Ipv4Literal(Dotted(b), jdk) && Ipv4Bytes(Dotted(b), jdk) == b
  {
    var texts := seq(|b|, i requires 0 <= i < |b| => Decimal(b[i] as nat));
    forall i | 0 <= i < 4 ensures OctetFormat(texts[i]) && OctetInRange(texts[i], jdk) && Octet(texts[i], jdk) == b[i] {
      DecimalIsOctet(b[i], jdk);
    }
    forall p | p in texts ensures Whole(p, '.', false) {
      CanonicalIsWhole(p, '.', false);
    }
    PiecesOfJoin(texts, '.', false);
    assert Split(Dotted(b), '.') == texts;
  }

  lemma {:induction false} JoinedDigits(ps: seq<string>)
    requires forall p <- ps :: Canonical(p)
    ensures var s := Join(ps, "."); forall i :: 0 <= i < |s| ==> AsciiDigit(s[i]) || s[i] == '.'
    ensures |ps| > 0 ==> Join(ps, ".") != "" && AsciiDigit(Join(ps, ".")[0])
  {
    if |ps| > 1 {
      JoinedDigits(ps[1..]);
      assert Canonical(ps[0]);
    } else if |ps| == 1 {
      assert Canonical(ps[0]);
    }
  }

  lemma DottedHasNoColon(b: seq<bv8>)
    requires |b| > 0
    ensures var s := Dotted(b); ':' !in s && '%' !in s && '/' !in s && !Blank(s)
  {
    var texts := seq(|b|, i requires 0 <= i < |b| => Decimal(b[i] as nat));
    forall p | p in texts ensures Canonical(p) {
      var i :| 0 <= i < |b| && p == Decimal(b[i] as nat);
      DecimalIsCanonical(b[i] as nat);
    }
    JoinedDigits(texts);
    assert !WhiteSpace(Dotted(b)[0]);
  }

  /** Without a colon, the literals accepted are exactly the canonical texts of IPv4 addresses, and
      each is read as the address it prints; no host name and no other notation gets through. */
  lemma Ipv4RoundTrip(s: string, b: seq<bv8>, jdk: Jdk)
    requires ReadsDigits(jdk.digit) && ':' !in s
    ensures ParseLiteral(Some(s), jdk) == Success(Address(b)) <==> |b| == 4 && s == Dotted(b)
  {
    if |b| == 4 && s == Dotted(b) {
      DottedHasNoColon(b);
      DottedIsLiteral(b, jdk);
    } else if Ipv4Literal(s, jdk) {
      Ipv4LiteralsAreDotted(s, b, jdk);
    }
  }

  /** A text with a colon is an address exactly when it is written with hexadecimal digits, colons and
      dots and the runtime reads it: as sixteen bytes, or as the four of an IPv4-mapped address in the
      one notation that names it. */
  lemma ColonTextsAreIpv6(s: string, b: seq<bv8>, jdk: Jdk)
    requires ReadsDigits(jdk.digit) && ':' in s
    ensures ParseLiteral(Some(s), jdk) == Success(Address(b)) <==>
              && (forall c <- s :: '0' <= c <= '9' || 'a' <= c <= 'f' || 'A' <= c <= 'F' || c == ':' || c == '.')
              && jdk.ipv6(s) == Some(b) && (|b| == 16 || (|s| >= 7 && SameLetters(s[..7], "::ffff:")))
  {
    var i :| 0 <= i < |s| && s[i] == ':';
    assert !WhiteSpace(s[i]);
    NoColonInIpv4(s, jdk);
    MappedNotation(s);
    hide Ipv4Literal, Lower, SameLetters;
    assert (forall j :: 0 <= j < |s| ==> Ipv6Char(s[j])) <==> forall c <- s :: Ipv6Char(c);
  }

  lemma NoColonInIpv4(s: string, jdk: Jdk)
    requires ReadsDigits(jdk.digit) && ':' in s
    ensures !Ipv4Literal(s, jdk)
  {
    if Ipv4Literal(s, jdk) {
      var b := Ipv4Bytes(s, jdk);
      Ipv4LiteralsAreDotted(s, b, jdk);
      DottedHasNoColon(b);
    }
  }

  lemma MappedNotation(s: string)
    ensures MAPPED_PREFIX <= Lower(s) <==> |s| >= 7 && SameLetters(s[..7], "::ffff:")
  {
    if |s| >= 7 {
      LowerTellsLetters(s[..7], MAPPED_PREFIX);
      LowerTellsLetters(MAPPED_PREFIX, MAPPED_PREFIX);
      assert Lower(s)[..7] == Lower(s[..7]);
    }
  }
}
