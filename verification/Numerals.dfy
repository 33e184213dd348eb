/** Decimal numerals: Integer.parseInt and String.valueOf. */
module Numerals {
  import opened Text
  import opened Wrappers

  const MAX_INT := 0x7fff_ffff
  const MIN_INT := -0x8000_0000

  function DigitChar(n: nat): char
    requires n < 10
  {
    (n + '0' as int) as char
  }

  /** What the runtime takes as a decimal digit: in ASCII the ten digits, elsewhere the digits of any
      script, each with some value below ten. */
  ghost predicate ReadsDigits(digit: char -> Option<nat>) {
    && (forall c :: digit(c).Some? ==> digit(c).value < 10)
    && (forall c :: AsciiDigit(c) ==> digit(c) == Some(c as int - '0' as int))
    && (forall c :: c < 128 as char && !AsciiDigit(c) ==> digit(c) == None)
  }

  function Value(s: string, digit: char -> Option<nat>): Option<nat> {
    if s == "" then Some(0)
    else
      var before, last := Value(s[..|s| - 1], digit), digit(s[|s| - 1]);
      if before.Some? && last.Some? then Some(10 * before.value + last.value) else None
  }

  /** Integer.parseInt: an optional sign, at least one digit, a value that fits 32 bits. */
  function ParseInt(s: string, digit: char -> Option<nat>): Option<int> {
    if s == "" then None
    else
      var signed := s[0] == '-' || s[0] == '+';
      var body := if signed then s[1..] else s;
      if body == "" then None
      else
        match Value(body, digit)
        case None => None
        case Some(v) =>
          var n := if s[0] == '-' then -1 * v else v;
          if MIN_INT <= n <= MAX_INT then Some(n) else None
  }

  /** String.valueOf of a number that is not negative. */
  function Decimal(n: nat): (s: string)
    ensures s != ""
  {
    if n < 10 then [DigitChar(n)] else Decimal(n / 10) + [DigitChar(n % 10)]
  }

  /** Digits without a superfluous leading zero. */
  predicate Canonical(s: string) {
    && s != "" && (forall i :: 0 <= i < |s| ==> AsciiDigit(s[i]))
    && (s[0] == '0' ==> |s| == 1)
  }

  // ---------------------------------------------------------------- printing and reading are inverse

  lemma {:induction false} DecimalIsCanonical(n: nat)
    ensures Canonical(Decimal(n)) && (Decimal(n)[0] == '0' ==> n == 0)
  {
    if n >= 10 {
      DecimalIsCanonical(n / 10);
    }
  }

  lemma {:induction false} ValueOfDecimal(n: nat, digit: char -> Option<nat>)
    requires ReadsDigits(digit)
    ensures Value(Decimal(n), digit) == Some(n)
  {
    var s := Decimal(n);
    if n < 10 {
      assert s[..|s| - 1] == "";
    } else {
      ValueOfDecimal(n / 10, digit);
      assert s[..|s| - 1] == Decimal(n / 10);
    }
  }

  /** Whatever is canonical is the print of its value. */
  lemma {:induction false} CanonicalIsDecimal(s: string, digit: char -> Option<nat>)
    requires ReadsDigits(digit) && Canonical(s)
    ensures Value(s, digit).Some? && s == Decimal(Value(s, digit).value)
  {
    var init, last := s[..|s| - 1], s[|s| - 1];
    if |s| == 1 {
      assert Value(init, digit) == Some(0);
    } else {
      CanonicalInit(s);
      CanonicalIsDecimal(init, digit);
      var v := Value(init, digit).value;
      ZeroIsZero(v);
      LastOfValue(s, digit);
      hide Decimal, Value, ReadsDigits, Canonical;
      OneDigitMore(v, last as int - '0' as int);
    }
  }

  lemma CanonicalInit(s: string)
    requires Canonical(s) && |s| > 1
    ensures Canonical(s[..|s| - 1]) && s[..|s| - 1][0] != '0' && AsciiDigit(s[|s| - 1])
    ensures s == s[..|s| - 1] + [s[|s| - 1]]
  {
  }

  lemma LastOfValue(s: string, digit: char -> Option<nat>)
    requires s != "" && ReadsDigits(digit) && AsciiDigit(s[|s| - 1]) && Value(s[..|s| - 1], digit).Some?
    ensures var d := s[|s| - 1] as int - '0' as int;
            && Value(s, digit) == Some(10 * Value(s[..|s| - 1], digit).value + d)
            && 0 <= d < 10 && DigitChar(d) == s[|s| - 1]
  {
    hide Value, DigitChar, ReadsDigits;
    CharOfDigit(s[|s| - 1]);
    ReadsAscii(s[|s| - 1], digit);
    ValueOneMore(s, digit);
  }

  lemma ReadsAscii(c: char, digit: char -> Option<nat>)
    requires ReadsDigits(digit) && AsciiDigit(c)
    ensures digit(c) == Some(c as int - '0' as int)
  {
  }

  lemma ValueOneMore(s: string, digit: char -> Option<nat>)
    requires s != "" && digit(s[|s| - 1]).Some? && Value(s[..|s| - 1], digit).Some?
    ensures Value(s, digit) == Some(10 * Value(s[..|s| - 1], digit).value + digit(s[|s| - 1]).value)
  {
  }

  lemma CharOfDigit(c: char)
    requires AsciiDigit(c)
    ensures 0 <= c as int - '0' as int < 10 && DigitChar(c as int - '0' as int) == c
  {
  }

  lemma ZeroIsZero(v: nat)
    ensures v == 0 ==> Decimal(v) == "0"
  {
  }

  lemma OneDigitMore(v: nat, d: nat)
    requires v > 0 && d < 10
    ensures Decimal(10 * v + d) == Decimal(v) + [DigitChar(d)]
  {
    var n := 10 * v + d;
    assert n / 10 == v && n % 10 == d;
  }

  lemma ParseIntOfDecimal(n: nat, digit: char -> Option<nat>)
    requires ReadsDigits(digit)
    ensures ParseInt(Decimal(n), digit) == if n <= MAX_INT then Some(n) else None
  {
    DecimalIsCanonical(n);
    ValueOfDecimal(n, digit);
    assert AsciiDigit(Decimal(n)[0]);
  }

  lemma ParseIntOfCanonical(s: string, digit: char -> Option<nat>)
    requires ReadsDigits(digit) && Canonical(s) && ParseInt(s, digit).Some?
    ensures ParseInt(s, digit).value >= 0 && s == Decimal(ParseInt(s, digit).value)
  {
    CanonicalIsDecimal(s, digit);
    assert AsciiDigit(s[0]);
  }

  lemma {:induction false} DecimalLength(n: nat)
    ensures n < 1000 ==> |Decimal(n)| <= 3
    ensures n < 100 ==> |Decimal(n)| <= 2
    ensures n < 10 ==> |Decimal(n)| <= 1
  {
    if n >= 10 {
      DecimalLength(n / 10);
    }
  }

  // ---------------------------------------------------------------- signs and leading zeros

  lemma {:induction false} LeadingZero(s: string, digit: char -> Option<nat>)
    requires ReadsDigits(digit)
    ensures Value("0" + s, digit) == Value(s, digit)
    decreases |s|
  {
    var padded := "0" + s;
    if s == "" {
      assert padded[..0] == "" && padded[0] == '0';
      assert Value(padded[..0], digit) == Some(0);
    } else {
      var init := s[..|s| - 1];
      assert padded[..|padded| - 1] == "0" + init && padded[|padded| - 1] == s[|s| - 1];
      LeadingZero(init, digit);
    }
  }

  /** A run of zeros. */
  function Zeros(n: nat): string { if n == 0 then "" else "0" + Zeros(n - 1) }

  lemma {:induction false} LeadingZeros(n: nat, s: string, digit: char -> Option<nat>)
    requires ReadsDigits(digit)
    ensures Value(Zeros(n) + s, digit) == Value(s, digit)
    decreases n
  {
    if n == 0 {
      assert Zeros(n) + s == s;
    } else {
      assert Zeros(n) + s == "0" + (Zeros(n - 1) + s);
      LeadingZero(Zeros(n - 1) + s, digit);
      LeadingZeros(n - 1, s, digit);
    }
  }

  /** Integer.parseInt reads any run of zeros before a printed number, after a plus sign, a minus sign or
      none, as the number the sign and the print say, and fails when that does not fit 32 bits. */
  lemma ParseIntOfSigned(sign: string, zeros: nat, n: nat, digit: char -> Option<nat>)
    requires ReadsDigits(digit) && (sign == "" || sign == "+" || sign == "-")
    ensures var value := if sign == "-" then -1 * n else n;
            ParseInt(sign + (Zeros(zeros) + Decimal(n)), digit)
              == if -0x8000_0000 <= value <= 0x7fff_ffff then Some(value) else None
  {
    var body := Zeros(zeros) + Decimal(n);
    ValueOfDecimal(n, digit);
    LeadingZeros(zeros, Decimal(n), digit);
    StartsWithDigit(zeros, n);
    hide Value, Decimal, Zeros, ReadsDigits, ParseInt;
    ParseIntOfBody(sign, body, n, digit);
  }

  lemma ParseIntOfBody(sign: string, body: string, n: nat, digit: char -> Option<nat>)
    requires (sign == "" || sign == "+" || sign == "-") && body != "" && AsciiDigit(body[0])
    requires Value(body, digit) == Some(n)
    ensures var value := if sign == "-" then -1 * n else n;
            ParseInt(sign + body, digit) == if -0x8000_0000 <= value <= 0x7fff_ffff then Some(value) else None
  {
    hide Value;
    SignFirst(sign, body);
  }

  lemma SignFirst(sign: string, body: string)
    ensures sign == "" ==> sign + body == body
    ensures |sign| == 1 ==> (sign + body)[0] == sign[0] && (sign + body)[1..] == body
  {
  }

  lemma StartsWithDigit(zeros: nat, n: nat)
    ensures var body := Zeros(zeros) + Decimal(n); body != "" && AsciiDigit(body[0])
  {
    if zeros == 0 {
      DecimalIsCanonical(n);
      assert Zeros(zeros) + Decimal(n) == Decimal(n);
    } else {
      assert Zeros(zeros)[0] == '0';
    }
  }
}
