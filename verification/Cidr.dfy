/** CIDR blocks: byte-wise matching against arithmetic on big-endian numbers. */
module Cidr {
  import opened Wrappers
  import opened Numerals
  import opened Splitting
  import opened ClientIp

  datatype Block = Block(network: seq<bv8>, prefix: nat)

  predicate Legal(b: Block) { b.prefix <= 8 * |b.network| }

  function Parse(value: string, jdk: Jdk): (r: Result<Block>)
    ensures r.Success? ==> Legal(r.value)
  {
    var parts := Split(value, '/');
    if |parts| != 2 || parts[1] == "" then Failure
    else
      match ParseLiteral(Some(parts[0]), jdk)
      case Failure => Failure
      case Success(a) =>
        match ParseInt(parts[1], jdk.digit)
        case None => Failure
        case Some(p) => if p < 0 || p > 8 * |a.bytes| then Failure else Success(Block(a.bytes, p))
  }

  /** A Java byte widened to int keeps its sign. */
  function Widened(b: bv8): bv32 {
    if b & 0x80 != 0 then 0xFFFF_FF00 | (b as bv32) else b as bv32
  }

  function Mask(remainder: nat): bv32
    requires 0 < remainder < 8
  {
    (0xff as bv32) << (8 - remainder)
  }

  function Masked(b: bv8, remainder: nat): bv32
    requires 0 < remainder < 8
  {
    Widened(b) & Mask(remainder)
  }

  predicate MatchesBytes(network: seq<bv8>, prefix: nat, candidate: seq<bv8>)
    requires prefix <= 8 * |network|
  {
    && |candidate| == |network|
    && var complete, remainder := prefix / 8, prefix % 8;
    && network[..complete] == candidate[..complete]
    && (remainder == 0 || Masked(network[complete], remainder) == Masked(candidate[complete], remainder))
  }

  predicate Contains(b: Block, a: Address)
    requires Legal(b)
  {
    MatchesBytes(b.network, b.prefix, a.bytes)
  }

  // ---------------------------------------------------------------- numbers

  function Pow2(k: nat): (p: nat)
    ensures p > 0
  {
    if k == 0 then 1 else 2 * Pow2(k - 1)
  }

  lemma QuotientIsNatural(n: nat, d: nat)
    requires d > 0
    ensures n / d >= 0
  {
  }

  /** A number without its k low bits, and with them cleared. */
  function High(n: nat, k: nat): nat {
    QuotientIsNatural(n, Pow2(k));
    n / Pow2(k)
  }

  function Cleared(n: nat, k: nat): nat { High(n, k) * Pow2(k) }

  /** The bytes read as one big-endian number. */
  function Number(bytes: seq<bv8>): nat {
    if bytes == [] then 0 else 256 * Number(bytes[..|bytes| - 1]) + bytes[|bytes| - 1] as nat
  }

  lemma Ordered(a: int, b: int, d: nat)
    ensures a <= b ==> a * d <= b * d
  {
  }

  lemma Quotient(n: nat, d: nat, q: nat, r: nat)
    requires r < d && n == q * d + r
    ensures n / d == q
  {
    assert n == n / d * d + n % d;
    Ordered(n / d + 1, q, d);
    Ordered(q + 1, n / d, d);
    assert (n / d + 1) * d == n / d * d + d && (q + 1) * d == q * d + d;
  }

  lemma Between(n: nat, d: nat, q: nat)
    requires d > 0
    ensures n / d == q <==> q * d <= n < q * d + d
  {
    if q * d <= n < q * d + d {
      Quotient(n, d, q, n - q * d);
    }
  }

  lemma Quarters(v: nat, l: nat, p: nat)
    requires p > 0 && l < 256
    ensures (256 * v + l) / (256 * p) == v / p
  {
    var q, r := v / p, v % p;
    assert v == q * p + r;
    assert 256 * (q * p) == q * (256 * p);
    Quotient(256 * v + l, 256 * p, q, 256 * r + l);
  }

  lemma Regroup(b: nat, q: nat, s: nat, p: nat)
    ensures (b * q + s) * p == b * (p * q) + s * p
  {
  }

  lemma HighOfMore(v: nat, l: nat, k: nat)
    requires k >= 8 && l < 256
    ensures High(256 * v + l, k) == High(v, k - 8)
  {
    PowOfByte(k);
    Quarters(v, l, Pow2(k - 8));
  }

  /** Two numbers agree above k bits exactly when one lies in the aligned interval of the other. */
  lemma SameHigh(n: nat, m: nat, k: nat)
    ensures High(n, k) == High(m, k) <==> Cleared(n, k) <= m < Cleared(n, k) + Pow2(k)
  {
    Between(m, Pow2(k), High(n, k));
  }

  lemma PowOfByte(k: nat)
    requires k >= 8
    ensures Pow2(k) == 256 * Pow2(k - 8)
  {
    assert Pow2(k) == 2 * Pow2(k - 1) == 4 * Pow2(k - 2) == 8 * Pow2(k - 3) == 16 * Pow2(k - 4);
    assert Pow2(k - 4) == 2 * Pow2(k - 5) == 4 * Pow2(k - 6) == 8 * Pow2(k - 7) == 16 * Pow2(k - 8);
  }

  lemma {:induction false} PowAdds(j: nat, k: nat)
    ensures Pow2(j + k) == Pow2(j) * Pow2(k)
  {
    if j > 0 {
      PowAdds(j - 1, k);
      calc {
        Pow2(j + k);
        2 * Pow2(j - 1 + k);
        2 * (Pow2(j - 1) * Pow2(k));
        (2 * Pow2(j - 1)) * Pow2(k);
      }
    }
  }

  lemma {:induction false} NumberIsInjective(a: seq<bv8>, b: seq<bv8>)
    requires |a| == |b| && Number(a) == Number(b)
    ensures a == b
  {
    if a != [] {
      var i, j := a[..|a| - 1], b[..|b| - 1];
      SameDigits(Number(i), a[|a| - 1] as nat, Number(j), b[|b| - 1] as nat, 256);
      SameByte(a[|a| - 1], b[|b| - 1]);
      hide Number;
      NumberIsInjective(i, j);
      assert a == i + [a[|a| - 1]] && b == j + [b[|b| - 1]];
    }
  }

  // ---------------------------------------------------------------- the mask compares leading bits

  /** Masked comparison of sign-extended bytes is equality of their leading bits. */
  lemma MaskComparesLeadingBits(x: bv8, y: bv8, remainder: nat)
    requires 0 < remainder < 8
    ensures Masked(x, remainder) == Masked(y, remainder) <==>
              High(x as nat, 8 - remainder) == High(y as nat, 8 - remainder)
  {
    LeadingBits(x, y);
    hide *;
    if remainder == 1 {} else if remainder == 2 {} else if remainder == 3 {} else if remainder == 4 {}
    else if remainder == 5 {} else if remainder == 6 {} else {}
  }

  lemma LeadingBits(x: bv8, y: bv8)
    ensures Masked(x, 1) == Masked(y, 1) <==> High(x as nat, 7) == High(y as nat, 7)
    ensures Masked(x, 2) == Masked(y, 2) <==> High(x as nat, 6) == High(y as nat, 6)
    ensures Masked(x, 3) == Masked(y, 3) <==> High(x as nat, 5) == High(y as nat, 5)
    ensures Masked(x, 4) == Masked(y, 4) <==> High(x as nat, 4) == High(y as nat, 4)
    ensures Masked(x, 5) == Masked(y, 5) <==> High(x as nat, 3) == High(y as nat, 3)
    ensures Masked(x, 6) == Masked(y, 6) <==> High(x as nat, 2) == High(y as nat, 2)
    ensures Masked(x, 7) == Masked(y, 7) <==> High(x as nat, 1) == High(y as nat, 1)
  {
    hide *;
    MaskedBits(x, y);
    HighBits(x);
    HighBits(y);
    SameByte(x >> 7, y >> 7);
    SameByte(x >> 6, y >> 6);
    SameByte(x >> 5, y >> 5);
    SameByte(x >> 4, y >> 4);
    SameByte(x >> 3, y >> 3);
    SameByte(x >> 2, y >> 2);
    SameByte(x >> 1, y >> 1);
  }

  lemma MaskedBits(x: bv8, y: bv8)
    ensures Masked(x, 1) == Masked(y, 1) <==> x >> 7 == y >> 7
    ensures Masked(x, 2) == Masked(y, 2) <==> x >> 6 == y >> 6
    ensures Masked(x, 3) == Masked(y, 3) <==> x >> 5 == y >> 5
    ensures Masked(x, 4) == Masked(y, 4) <==> x >> 4 == y >> 4
    ensures Masked(x, 5) == Masked(y, 5) <==> x >> 3 == y >> 3
    ensures Masked(x, 6) == Masked(y, 6) <==> x >> 2 == y >> 2
    ensures Masked(x, 7) == Masked(y, 7) <==> x >> 1 == y >> 1
  {
    MaskValues();
    hide Mask;
  }

  lemma HighBits(x: bv8)
    ensures High(x as nat, 7) == (x >> 7) as nat
    ensures High(x as nat, 6) == (x >> 6) as nat
    ensures High(x as nat, 5) == (x >> 5) as nat
    ensures High(x as nat, 4) == (x >> 4) as nat
    ensures High(x as nat, 3) == (x >> 3) as nat
    ensures High(x as nat, 2) == (x >> 2) as nat
    ensures High(x as nat, 1) == (x >> 1) as nat
  {
    SmallPowers();
    ShiftsByFew(x);
    ShiftsBySome(x);
    ShiftsByMany(x);
    hide Pow2;
  }

  lemma SameByte(x: bv8, y: bv8)
    ensures x as nat == y as nat <==> x == y
  {
  }

  lemma MaskValues()
    ensures Mask(1) == 0x7F80 && Mask(2) == 0x3FC0 && Mask(3) == 0x1FE0 && Mask(4) == 0x0FF0
    ensures Mask(5) == 0x07F8 && Mask(6) == 0x03FC && Mask(7) == 0x01FE
  {
  }

  lemma ShiftsByFew(x: bv8)
    ensures (x >> 1) as nat == x as nat / 2 && (x >> 2) as nat == x as nat / 4
  {
  }

  lemma ShiftsBySome(x: bv8)
    ensures (x >> 3) as nat == x as nat / 8 && (x >> 4) as nat == x as nat / 16
  {
  }

  lemma ShiftsByMany(x: bv8)
    ensures (x >> 5) as nat == x as nat / 32 && (x >> 6) as nat == x as nat / 64 && (x >> 7) as nat == x as nat / 128
  {
  }

  lemma SmallPowers()
    ensures Pow2(1) == 2 && Pow2(2) == 4 && Pow2(3) == 8 && Pow2(4) == 16
    ensures Pow2(5) == 32 && Pow2(6) == 64 && Pow2(7) == 128 && Pow2(8) == 256
  {
  }

  // ---------------------------------------------------------------- a block is a set of numbers with one prefix

  function HostBits(b: Block): nat
    requires Legal(b)
  {
    8 * |b.network| - b.prefix
  }

  /** The byte-wise comparison holds exactly when the numbers agree above the host bits. */
  lemma {:induction false} MatchesIsSamePrefix(n: seq<bv8>, prefix: nat, c: seq<bv8>)
    requires prefix <= 8 * |n| && |c| == |n|
    ensures MatchesBytes(n, prefix, c) <==>
              High(Number(n), 8 * |n| - prefix) == High(Number(c), 8 * |n| - prefix)
    decreases |n|
  {
    var k := 8 * |n| - prefix;
    if k == 0 {
      assert n[..|n|] == n && c[..|c|] == c;
      if Number(n) == Number(c) {
        NumberIsInjective(n, c);
      }
    } else if k < 8 {
      PartialByte(n, prefix, c);
    } else {
      var n', c' := n[..|n| - 1], c[..|c| - 1];
      MatchesIsSamePrefix(n', prefix, c');
      assert n'[..prefix / 8] == n[..prefix / 8] && c'[..prefix / 8] == c[..prefix / 8];
      HighOfMore(Number(n'), n[|n| - 1] as nat, k);
      HighOfMore(Number(c'), c[|c| - 1] as nat, k);
    }
  }

  lemma PartialByte(n: seq<bv8>, prefix: nat, c: seq<bv8>)
    requires 8 * |n| - 8 < prefix < 8 * |n| && |c| == |n|
    ensures MatchesBytes(n, prefix, c) <==>
              High(Number(n), 8 * |n| - prefix) == High(Number(c), 8 * |n| - prefix)
  {
    hide Number, High, Pow2, Masked;
    var k, last := 8 * |n| - prefix, |n| - 1;
    assert prefix / 8 == last && prefix % 8 == 8 - k;
    MaskComparesLeadingBits(n[last], c[last], 8 - k);
    LastByte(n);
    LastByte(c);
    PartialNumbers(Number(n[..last]), n[last] as nat, Number(c[..last]), c[last] as nat, k);
    if Number(n[..last]) == Number(c[..last]) {
      NumberIsInjective(n[..last], c[..last]);
    }
  }

  lemma LastByte(n: seq<bv8>)
    requires n != []
    ensures Number(n) == 256 * Number(n[..|n| - 1]) + n[|n| - 1] as nat
  {
  }

  lemma PartialNumbers(v: nat, l: nat, w: nat, m: nat, k: nat)
    requires 0 < k < 8 && l < 256 && m < 256
    ensures High(256 * v + l, k) == High(256 * w + m, k) <==> v == w && High(l, k) == High(m, k)
  {
    LeadingPart(v, l, k);
    LeadingPart(w, m, k);
    SameDigits(v, High(l, k), w, High(m, k), Pow2(8 - k));
  }

  lemma LeadingPart(v: nat, l: nat, k: nat)
    requires 0 < k < 8 && l < 256
    ensures High(256 * v + l, k) == v * Pow2(8 - k) + High(l, k) && High(l, k) < Pow2(8 - k)
  {
    var p, h := Pow2(k), Pow2(8 - k);
    PowAdds(k, 8 - k);
    SmallPowers();
    hide Pow2;
    var q, r := l / p, l % p;
    assert p * h == 256 && l == q * p + r;
    Regroup(v, h, q, p);
    Quotient(256 * v + l, p, v * h + q, r);
    Ordered(h, q, p);
  }

  lemma SameDigits(v: nat, x: nat, w: nat, y: nat, h: nat)
    requires x < h && y < h
    ensures v * h + x == w * h + y <==> v == w && x == y
  {
    Quotient(v * h + x, h, v, x);
    Quotient(w * h + y, h, w, y);
  }

  /** The aligned interval of a block. */
  function Lowest(b: Block): nat
    requires Legal(b)
  {
    Cleared(Number(b.network), HostBits(b))
  }

  /** An address of the same family lies in the block exactly when its number lies in the interval. */
  lemma ContainsIsInterval(b: Block, a: Address)
    requires Legal(b) && |a.bytes| == |b.network|
    ensures Contains(b, a) <==> Lowest(b) <= Number(a.bytes) < Lowest(b) + Pow2(HostBits(b))
  {
    hide Number, Pow2, High, Cleared, MatchesBytes;
    MatchesIsSamePrefix(b.network, b.prefix, a.bytes);
    SameHigh(Number(b.network), Number(a.bytes), HostBits(b));
  }

  // ---------------------------------------------------------------- the family of blocks

  /** Host bits of the network never matter: any member of a block can stand for its network. */
  lemma HostBitsNeverMatter(b: Block, m: Address, a: Address)
    requires Legal(b) && Contains(b, m)
    ensures Legal(Block(m.bytes, b.prefix)) && (Contains(Block(m.bytes, b.prefix), a) <==> Contains(b, a))
  {
  }

  /** Blocks form a laminar family: two of them share no address, or the one with the longer prefix
      lies inside the other. */
  lemma BlocksAreLaminar(inner: Block, outer: Block)
    requires Legal(inner) && Legal(outer) && outer.prefix <= inner.prefix
    ensures (forall a :: Contains(inner, a) ==> Contains(outer, a))
            || (forall a :: !(Contains(inner, a) && Contains(outer, a)))
  {
  }

  // ---------------------------------------------------------------- reading a block

  /** An address literal without a slash, a slash and a printed prefix are read back as themselves. */
  lemma ParseOfPrint(literal: string, network: seq<bv8>, prefix: nat, jdk: Jdk)
    requires ReadsDigits(jdk.digit) && '/' !in literal
    requires ParseLiteral(Some(literal), jdk) == Success(Address(network)) && |network| <= 16
    ensures Parse(literal + "/" + Decimal(prefix), jdk)
              == if prefix <= 8 * |network| then Success(Block(network, prefix)) else Failure
  {
    hide Pieces, Uncut, Whole, ParseLiteral, ParseInt, Canonical;
    var bits := Decimal(prefix);
    ParseIntOfDecimal(prefix, jdk.digit);
    DecimalHasNoSlash(prefix);
    TwoParts(literal, bits);
  }

  lemma DecimalHasNoSlash(n: nat)
    ensures '/' !in Decimal(n)
  {
  }

  lemma ParseOfDotted(network: seq<bv8>, prefix: nat, jdk: Jdk)
    requires ReadsDigits(jdk.digit) && |network| == 4
    ensures Parse(Dotted(network) + "/" + Decimal(prefix), jdk)
              == if prefix <= 32 then Success(Block(network, prefix)) else Failure
  {
    DottedHasNoColon(network);
    Ipv4RoundTrip(Dotted(network), network, jdk);
    ParseOfPrint(Dotted(network), network, prefix, jdk);
  }

  lemma ParseOfIpv6(literal: string, network: seq<bv8>, prefix: nat, jdk: Jdk)
    requires ReadsDigits(jdk.digit) && Ipv6Literal(literal) && '.' !in literal
    requires jdk.ipv6(literal) == Some(network) && |network| == 16
    ensures Parse(literal + "/" + Decimal(prefix), jdk)
              == if prefix <= 128 then Success(Block(network, prefix)) else Failure
  {
    NoSeparatorIsUncut(literal, '.');
    UncutIsOnePiece(literal, '.', false, false);
    var i :| 0 <= i < |literal| && literal[i] == ':';
    assert !WhiteSpace(literal[i]);
    assert '/' !in literal && '%' !in literal;
    ParseOfPrint(literal, network, prefix, jdk);
  }

  /** A text denotes a block exactly when it is an accepted literal, one slash and a number the runtime
      reads, and the number lies within the width of the literal's family. */
  lemma ParseMeetsItsDescription(value: string, b: Block, jdk: Jdk)
    ensures Parse(value, jdk) == Success(b) <==>
              exists literal, bits :: BlockText(value, literal, bits) && BlockOf(literal, bits, b, jdk)
  {
    assert ParseInt("", jdk.digit) == None;
    hide ParseLiteral, ParseInt, Pieces;
    var parts := Split(value, '/');
    if |parts| == 2 {
      JoinOfPieces(value, '/', false, false);
      PartsHoldNoSlash(value, parts[0], parts[1]);
      assert Join(parts, "/") == parts[0] + "/" + parts[1];
    }
    if literal, bits :| BlockText(value, literal, bits) && BlockOf(literal, bits, b, jdk) {
      TwoParts(literal, bits);
    }
    if Parse(value, jdk) == Success(b) {
      assert BlockText(value, parts[0], parts[1]) && BlockOf(parts[0], parts[1], b, jdk);
    }
  }

  predicate BlockText(value: string, literal: string, bits: string) {
    value == literal + "/" + bits && '/' !in literal && '/' !in bits
  }

  predicate BlockOf(literal: string, bits: string, b: Block, jdk: Jdk) {
    && ParseLiteral(Some(literal), jdk) == Success(Address(b.network))
    && ParseInt(bits, jdk.digit) == Some(b.prefix) && b.prefix <= 8 * |b.network|
  }

  lemma TwoParts(a: string, b: string)
    requires '/' !in a && '/' !in b
    ensures Split(a + "/" + b, '/') == [a, b]
  {
    NeverOpen(a);
    NoSeparatorIsUncut(a, '/');
    NoSeparatorIsUncut(b, '/');
    UncutIsOnePiece(a, '/', false, false);
    UncutIsOnePiece(b, '/', false, false);
    PiecesOfBoth(a, b, '/', false, false);
    assert a + ['/'] + b == a + "/" + b;
  }

  lemma PartsHoldNoSlash(value: string, a: string, b: string)
    requires Split(value, '/') == [a, b]
    ensures '/' !in a && '/' !in b
  {
    NeverOpen(value);
    PiecesAreWhole(value, '/', false, false);
    assert [a, b][0] == a && [a, b][1..] == [b] && b in [b];
    UncutHasNoSeparator(a, '/');
    UncutHasNoSeparator(b, '/');
  }

  lemma {:induction false} UncutHasNoSeparator(s: string, sep: char)
    requires Uncut(s, sep, false, false)
    ensures sep !in s
  {
    if s != "" {
      UncutHasNoSeparator(s[1..], sep);
      assert s == [s[0]] + s[1..];
    }
  }
}
