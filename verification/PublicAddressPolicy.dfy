/** The deny-list of special-purpose networks in front of the geolocation provider. */
module PublicAddressPolicy {
  import opened Wrappers
  import opened Numerals
  import opened Splitting
  import opened ClientIp
  import opened Cidr

  const RANGES: seq<string> := [
    "0.0.0.0/8", "10.0.0.0/8", "100.64.0.0/10", "127.0.0.0/8", "169.254.0.0/16", "172.16.0.0/12",
    "192.0.0.0/24", "192.0.2.0/24", "192.168.0.0/16", "198.18.0.0/15", "198.51.100.0/24",
    "203.0.113.0/24", "224.0.0.0/4", "240.0.0.0/4",
    "::/128", "::1/128", "100::/64", "2001:db8::/32", "fc00::/7", "fe80::/10", "ff00::/8"]

  /** Sixteen bytes that begin as given and go on with zeros. */
  function Leading(lead: seq<bv8>): (b: seq<bv8>)
    requires |lead| <= 16
    ensures |b| == 16
  {
    lead + seq(16 - |lead|, _ => 0)
  }

  const LOOPBACK: seq<bv8> := [0, 0, 0, 0, 0, 0, 0, 0, 0, 0, 0, 0, 0, 0, 0, 1]

  const NON_PUBLIC_4: seq<Block> := [
    Block([0, 0, 0, 0], 8), Block([10, 0, 0, 0], 8), Block([100, 64, 0, 0], 10), Block([127, 0, 0, 0], 8),
    Block([169, 254, 0, 0], 16), Block([172, 16, 0, 0], 12), Block([192, 0, 0, 0], 24), Block([192, 0, 2, 0], 24),
    Block([192, 168, 0, 0], 16), Block([198, 18, 0, 0], 15), Block([198, 51, 100, 0], 24), Block([203, 0, 113, 0], 24),
    Block([224, 0, 0, 0], 4), Block([240, 0, 0, 0], 4)]

  const NON_PUBLIC_6: seq<Block> := [
    Block(Leading([]), 128), Block(LOOPBACK, 128), Block(Leading([1]), 64),
    Block(Leading([0x20, 0x01, 0x0d, 0xb8]), 32),
    Block(Leading([0xfc]), 7), Block(Leading([0xfe, 0x80]), 10), Block(Leading([0xff]), 8)]

  const NON_PUBLIC: seq<Block> := NON_PUBLIC_4 + NON_PUBLIC_6

  lemma TableIsLegal()
    ensures |NON_PUBLIC| == |RANGES| == 21
    ensures forall r <- NON_PUBLIC :: Legal(r)
  {
  }

  /** permitsPublicLookup. */
  predicate PermitsPublicLookup(a: Address) {
    forall r <- NON_PUBLIC :: Legal(r) && !Contains(r, a)
  }

  // ---------------------------------------------------------------- the table as it is written

  /** InetAddress reads the seven IPv6 networks of the table as the bytes they denote. */
  ghost predicate KnowsNetworks(jdk: Jdk) {
    && jdk.ipv6("::") == Some(Leading([])) && jdk.ipv6("::1") == Some(LOOPBACK)
    && jdk.ipv6("100::") == Some(Leading([1])) && jdk.ipv6("2001:db8::") == Some(Leading([0x20, 0x01, 0x0d, 0xb8]))
    && jdk.ipv6("fc00::") == Some(Leading([0xfc])) && jdk.ipv6("fe80::") == Some(Leading([0xfe, 0x80]))
    && jdk.ipv6("ff00::") == Some(Leading([0xff]))
  }

  lemma PrintsShort()
    ensures Decimal(0) == "0" && Decimal(2) == "2" && Decimal(4) == "4" && Decimal(7) == "7"
    ensures Decimal(8) == "8" && Decimal(10) == "10" && Decimal(12) == "12" && Decimal(15) == "15"
    ensures Decimal(16) == "16" && Decimal(18) == "18" && Decimal(24) == "24" && Decimal(32) == "32"
    ensures Decimal(51) == "51" && Decimal(64) == "64"
  {
  }

  lemma PrintsLong()
    ensures Decimal(100) == "100" && Decimal(113) == "113" && Decimal(127) == "127" && Decimal(128) == "128"
    ensures Decimal(168) == "168" && Decimal(169) == "169"
  {
  }

  lemma PrintsLonger()
    ensures Decimal(172) == "172" && Decimal(192) == "192" && Decimal(198) == "198" && Decimal(203) == "203"
    ensures Decimal(224) == "224" && Decimal(240) == "240" && Decimal(254) == "254"
  {
  }

  lemma JoinOfFour(a: string, b: string, c: string, d: string)
    ensures Join([a, b, c, d], ".") == a + "." + b + "." + c + "." + d
  {
    assert [a, b, c, d][1..] == [b, c, d] && [b, c, d][1..] == [c, d] && [c, d][1..] == [d];
    assert Join([c, d], ".") == c + "." + d;
    assert Join([b, c, d], ".") == b + "." + (c + "." + d);
    assert Join([a, b, c, d], ".") == a + "." + (b + "." + (c + "." + d));
  }

  lemma DottedOfFour(n: seq<bv8>)
    requires |n| == 4
    ensures Dotted(n) == Decimal(n[0] as nat) + "." + Decimal(n[1] as nat) + "." + Decimal(n[2] as nat) + "."
            + Decimal(n[3] as nat)
  {
    hide Decimal;
    var texts := seq(|n|, i requires 0 <= i < |n| => Decimal(n[i] as nat));
    JoinOfFour(texts[0], texts[1], texts[2], texts[3]);
    assert texts == [texts[0], texts[1], texts[2], texts[3]];
  }

  lemma ReadIpv4(n: seq<bv8>, prefix: nat, text: string, jdk: Jdk)
    requires ReadsDigits(jdk.digit) && |n| == 4 && prefix <= 32
    requires text == Decimal(n[0] as nat) + "." + Decimal(n[1] as nat) + "." + Decimal(n[2] as nat) + "."
                     + Decimal(n[3] as nat) + "/" + Decimal(prefix)
    ensures Parse(text, jdk) == Success(Block(n, prefix))
  {
    hide Dotted, Decimal, Parse;
    DottedOfFour(n);
    ParseOfDotted(n, prefix, jdk);
  }

  lemma ReadsNetworks1(jdk: Jdk)
    requires ReadsDigits(jdk.digit)
    ensures forall i :: 0 <= i < 4 ==> Parse(RANGES[i], jdk) == Success(NON_PUBLIC_4[i])
  {
    hide Decimal, Parse;
    PrintsShort();
    PrintsLong();
    PrintsLonger();
    ReadIpv4([0, 0, 0, 0], 8, "0.0.0.0/8", jdk);
    ReadIpv4([10, 0, 0, 0], 8, "10.0.0.0/8", jdk);
    ReadIpv4([100, 64, 0, 0], 10, "100.64.0.0/10", jdk);
    ReadIpv4([127, 0, 0, 0], 8, "127.0.0.0/8", jdk);
  }

  lemma ReadsNetworks2(jdk: Jdk)
    requires ReadsDigits(jdk.digit)
    ensures forall i :: 4 <= i < 7 ==> Parse(RANGES[i], jdk) == Success(NON_PUBLIC_4[i])
  {
    hide Decimal, Parse;
    PrintsShort();
    PrintsLong();
    PrintsLonger();
    ReadIpv4([169, 254, 0, 0], 16, "169.254.0.0/16", jdk);
    ReadIpv4([172, 16, 0, 0], 12, "172.16.0.0/12", jdk);
    ReadIpv4([192, 0, 0, 0], 24, "192.0.0.0/24", jdk);
  }

  lemma ReadsNetworks3(jdk: Jdk)
    requires ReadsDigits(jdk.digit)
    ensures forall i :: 7 <= i < 10 ==> Parse(RANGES[i], jdk) == Success(NON_PUBLIC_4[i])
  {
    hide Decimal, Parse;
    PrintsShort();
    PrintsLong();
    PrintsLonger();
    ReadIpv4([192, 0, 2, 0], 24, "192.0.2.0/24", jdk);
    ReadIpv4([192, 168, 0, 0], 16, "192.168.0.0/16", jdk);
    ReadIpv4([198, 18, 0, 0], 15, "198.18.0.0/15", jdk);
  }

  lemma ReadsNetworks4(jdk: Jdk)
    requires ReadsDigits(jdk.digit)
    ensures forall i :: 10 <= i < 14 ==> Parse(RANGES[i], jdk) == Success(NON_PUBLIC_4[i])
  {
    hide Decimal, Parse;
    PrintsShort();
    PrintsLong();
    PrintsLonger();
    ReadIpv4([198, 51, 100, 0], 24, "198.51.100.0/24", jdk);
    ReadIpv4([203, 0, 113, 0], 24, "203.0.113.0/24", jdk);
    ReadIpv4([224, 0, 0, 0], 4, "224.0.0.0/4", jdk);
    ReadIpv4([240, 0, 0, 0], 4, "240.0.0.0/4", jdk);
  }

  lemma ReadIpv6(literal: string, colon: nat, n: seq<bv8>, prefix: nat, text: string, jdk: Jdk)
    requires ReadsDigits(jdk.digit) && |n| == 16 && prefix <= 128 && jdk.ipv6(literal) == Some(n)
    requires colon < |literal| && literal[colon] == ':'
    requires forall i :: 0 <= i < |literal| ==> Ipv6Char(literal[i]) && literal[i] != '.'
    requires text == literal + "/" + Decimal(prefix)
    ensures Parse(text, jdk) == Success(Block(n, prefix))
  {
    hide Decimal, Parse;
    ParseOfIpv6(literal, n, prefix, jdk);
  }

  lemma ReadsNetworks5(jdk: Jdk)
    requires ReadsDigits(jdk.digit) && KnowsNetworks(jdk)
    ensures forall i :: 0 <= i < 3 ==> Parse(RANGES[14 + i], jdk) == Success(NON_PUBLIC_6[i])
  {
    hide Decimal, Parse, Leading;
    PrintsShort();
    PrintsLong();
    PrintsLonger();
    ReadIpv6("::", 1, Leading([]), 128, "::/128", jdk);
    ReadIpv6("::1", 0, LOOPBACK, 128, "::1/128", jdk);
    ReadIpv6("100::", 3, Leading([1]), 64, "100::/64", jdk);
  }

  lemma ReadsNetworks6(jdk: Jdk)
    requires ReadsDigits(jdk.digit) && KnowsNetworks(jdk)
    ensures forall i :: 3 <= i < 5 ==> Parse(RANGES[14 + i], jdk) == Success(NON_PUBLIC_6[i])
  {
    hide Decimal, Parse, Leading;
    PrintsShort();
    PrintsLong();
    PrintsLonger();
    ReadIpv6("2001:db8::", 4, Leading([0x20, 0x01, 0x0d, 0xb8]), 32, "2001:db8::/32", jdk);
    ReadIpv6("fc00::", 4, Leading([0xfc]), 7, "fc00::/7", jdk);
  }

  lemma ReadsNetworks7(jdk: Jdk)
    requires ReadsDigits(jdk.digit) && KnowsNetworks(jdk)
    ensures forall i :: 5 <= i < 7 ==> Parse(RANGES[14 + i], jdk) == Success(NON_PUBLIC_6[i])
  {
    hide Decimal, Parse, Leading;
    PrintsShort();
    PrintsLong();
    PrintsLonger();
    ReadIpv6("fe80::", 4, Leading([0xfe, 0x80]), 10, "fe80::/10", jdk);
    ReadIpv6("ff00::", 4, Leading([0xff]), 8, "ff00::/8", jdk);
  }

  /** Every entry of the table is accepted and means the block listed beside it. */
  lemma TableIsRead(jdk: Jdk)
    requires ReadsDigits(jdk.digit) && KnowsNetworks(jdk)
    ensures forall i :: 0 <= i < 21 ==> Parse(RANGES[i], jdk) == Success(NON_PUBLIC[i])
  {
    ReadsNetworks1(jdk);
    ReadsNetworks2(jdk);
    ReadsNetworks3(jdk);
    ReadsNetworks4(jdk);
    ReadsNetworks5(jdk);
    ReadsNetworks6(jdk);
    ReadsNetworks7(jdk);
    hide Parse, Leading;
    forall i | 0 <= i < 21 ensures Parse(RANGES[i], jdk) == Success(NON_PUBLIC[i]) {
      if i >= 14 {
        assert NON_PUBLIC[i] == NON_PUBLIC_6[i - 14] && RANGES[i] == RANGES[14 + (i - 14)];
      } else {
        assert NON_PUBLIC[i] == NON_PUBLIC_4[i];
      }
    }
  }

  // ---------------------------------------------------------------- the policy as intervals

  /** The policy is non-membership in the union of the table's aligned intervals of the same family. */
  lemma PolicyIsIntervals(a: Address)
    ensures PermitsPublicLookup(a) <==>
              forall r <- NON_PUBLIC :: Legal(r) && (|r.network| == |a.bytes| ==>
                !(Lowest(r) <= Number(a.bytes) < Lowest(r) + Pow2(HostBits(r))))
  {
    TableIsLegal();
    hide Contains, Lowest, Number, Pow2;
    forall r | r in NON_PUBLIC
      ensures Contains(r, a) <==>
              |r.network| == |a.bytes| && Lowest(r) <= Number(a.bytes) < Lowest(r) + Pow2(HostBits(r))
    {
      if |r.network| == |a.bytes| {
        ContainsIsInterval(r, a);
      } else {
        OtherFamily(r, a);
      }
    }
  }

  lemma OtherFamily(r: Block, a: Address)
    requires Legal(r) && |r.network| != |a.bytes|
    ensures !Contains(r, a)
  {
  }

  // ---------------------------------------------------------------- the policy in dotted terms

  /** The denied IPv4 addresses by their first three bytes. */
  predicate SpecialIpv4(a: bv8, b: bv8, c: bv8) {
    || a == 0 || a == 10 || a == 127 || a >= 224
    || (a == 100 && 64 <= b <= 127)
    || (a == 169 && b == 254)
    || (a == 172 && 16 <= b <= 31)
    || (a == 192 && (b == 168 || (b == 0 && (c == 0 || c == 2))))
    || (a == 198 && (b == 18 || b == 19 || (b == 51 && c == 100)))
    || (a == 203 && b == 0 && c == 113)
  }

  /** The denied IPv6 addresses by their bytes. */
  predicate SpecialIpv6(x: seq<bv8>)
    requires |x| == 16
  {
    || x == Leading([]) || x == LOOPBACK
    || x[..8] == [1, 0, 0, 0, 0, 0, 0, 0] || x[..4] == [0x20, 0x01, 0x0d, 0xb8]
    || x[0] == 0xfc || x[0] == 0xfd || x[0] == 0xff
    || (x[0] == 0xfe && 0x80 <= x[1] <= 0xbf)
  }

  lemma BitRanges(x: bv8)
    ensures Masked(64, 2) == Masked(x, 2) <==> 64 <= x <= 127
    ensures Masked(16, 4) == Masked(x, 4) <==> 16 <= x <= 31
    ensures Masked(18, 7) == Masked(x, 7) <==> x == 18 || x == 19
    ensures Masked(224, 4) == Masked(x, 4) <==> 224 <= x <= 239
    ensures Masked(240, 4) == Masked(x, 4) <==> 240 <= x
    ensures Masked(0xfc, 7) == Masked(x, 7) <==> x == 0xfc || x == 0xfd
    ensures Masked(0x80, 2) == Masked(x, 2) <==> 0x80 <= x <= 0xbf
  {
  }

  /** Membership in a block of whole bytes, and in one that ends inside a byte. */
  lemma InWhole4(n: seq<bv8>, k: nat, x: seq<bv8>)
    requires |n| == |x| == 4 && 1 <= k <= 3
    ensures Contains(Block(n, 8 * k), Address(x)) <==>
              n[0] == x[0] && (k >= 2 ==> n[1] == x[1]) && (k >= 3 ==> n[2] == x[2])
  {
  }

  lemma ShortRanges4(x: seq<bv8>)
    requires |x| == 4
    ensures forall i :: 0 <= i < 14 ==> Legal(NON_PUBLIC_4[i])
    ensures Contains(NON_PUBLIC_4[0], Address(x)) <==> x[0] == 0
    ensures Contains(NON_PUBLIC_4[1], Address(x)) <==> x[0] == 10
    ensures Contains(NON_PUBLIC_4[3], Address(x)) <==> x[0] == 127
    ensures Contains(NON_PUBLIC_4[4], Address(x)) <==> x[0] == 169 && x[1] == 254
    ensures Contains(NON_PUBLIC_4[8], Address(x)) <==> x[0] == 192 && x[1] == 168
  {
    hide Contains;
    InWhole4([0, 0, 0, 0], 1, x);
    InWhole4([10, 0, 0, 0], 1, x);
    InWhole4([127, 0, 0, 0], 1, x);
    InWhole4([169, 254, 0, 0], 2, x);
    InWhole4([192, 168, 0, 0], 2, x);
  }

  lemma LongRanges4(x: seq<bv8>)
    requires |x| == 4
    ensures forall i :: 0 <= i < 14 ==> Legal(NON_PUBLIC_4[i])
    ensures Contains(NON_PUBLIC_4[6], Address(x)) <==> x[0] == 192 && x[1] == 0 && x[2] == 0
    ensures Contains(NON_PUBLIC_4[7], Address(x)) <==> x[0] == 192 && x[1] == 0 && x[2] == 2
    ensures Contains(NON_PUBLIC_4[10], Address(x)) <==> x[0] == 198 && x[1] == 51 && x[2] == 100
    ensures Contains(NON_PUBLIC_4[11], Address(x)) <==> x[0] == 203 && x[1] == 0 && x[2] == 113
  {
    hide Contains;
    InWhole4([192, 0, 0, 0], 3, x);
    InWhole4([192, 0, 2, 0], 3, x);
    InWhole4([198, 51, 100, 0], 3, x);
    InWhole4([203, 0, 113, 0], 3, x);
  }

  lemma BytesAndBits(n: seq<bv8>, k: nat, bits: nat, x: seq<bv8>)
    requires k < |n| == |x| && 0 < bits < 8
    ensures MatchesBytes(n, 8 * k + bits, x) <==> n[..k] == x[..k] && Masked(n[k], bits) == Masked(x[k], bits)
  {
    assert (8 * k + bits) / 8 == k && (8 * k + bits) % 8 == bits;
  }

  lemma InPart4(n: seq<bv8>, k: nat, bits: nat, x: seq<bv8>)
    requires |n| == |x| == 4 && k <= 1 && 0 < bits < 8
    ensures Contains(Block(n, 8 * k + bits), Address(x)) <==>
              (k == 1 ==> n[0] == x[0]) && Masked(n[k], bits) == Masked(x[k], bits)
  {
    BytesAndBits(n, k, bits, x);
    assert k == 1 ==> n[..1] == [n[0]] && x[..1] == [x[0]];
  }

  lemma PartRanges4(x: seq<bv8>)
    requires |x| == 4
    ensures forall i :: 0 <= i < 14 ==> Legal(NON_PUBLIC_4[i])
    ensures Contains(NON_PUBLIC_4[2], Address(x)) <==> x[0] == 100 && 64 <= x[1] <= 127
    ensures Contains(NON_PUBLIC_4[5], Address(x)) <==> x[0] == 172 && 16 <= x[1] <= 31
    ensures Contains(NON_PUBLIC_4[9], Address(x)) <==> x[0] == 198 && (x[1] == 18 || x[1] == 19)
    ensures Contains(NON_PUBLIC_4[12], Address(x)) <==> 224 <= x[0] <= 239
    ensures Contains(NON_PUBLIC_4[13], Address(x)) <==> 240 <= x[0]
  {
    hide Contains, Masked;
    InPart4([100, 64, 0, 0], 1, 2, x);
    InPart4([172, 16, 0, 0], 1, 4, x);
    InPart4([198, 18, 0, 0], 1, 7, x);
    InPart4([224, 0, 0, 0], 0, 4, x);
    InPart4([240, 0, 0, 0], 0, 4, x);
    BitRanges(x[0]);
    BitRanges(x[1]);
  }

  lemma InWhole6(n: seq<bv8>, k: nat, x: seq<bv8>)
    requires |n| == |x| == 16 && 1 <= k <= 16
    ensures Contains(Block(n, 8 * k), Address(x)) <==> n[..k] == x[..k]
  {
  }

  lemma InPart6(n: seq<bv8>, k: nat, bits: nat, x: seq<bv8>)
    requires |n| == |x| == 16 && k <= 1 && 0 < bits < 8
    ensures Contains(Block(n, 8 * k + bits), Address(x)) <==>
              (k == 1 ==> n[0] == x[0]) && Masked(n[k], bits) == Masked(x[k], bits)
  {
    BytesAndBits(n, k, bits, x);
    if n[0] == x[0] {
      assert n[..1] == x[..1];
    }
    assert n[..1][0] == n[0] && x[..1][0] == x[0];
  }

  lemma LongRanges6(x: seq<bv8>)
    requires |x| == 16
    ensures forall i :: 0 <= i < 7 ==> Legal(NON_PUBLIC_6[i])
    ensures Contains(NON_PUBLIC_6[0], Address(x)) <==> x == Leading([])
    ensures Contains(NON_PUBLIC_6[1], Address(x)) <==> x == LOOPBACK
    ensures Contains(NON_PUBLIC_6[2], Address(x)) <==> x[..8] == [1, 0, 0, 0, 0, 0, 0, 0]
    ensures Contains(NON_PUBLIC_6[3], Address(x)) <==> x[..4] == [0x20, 0x01, 0x0d, 0xb8]
  {
    hide Contains;
    assert x[..16] == x && LOOPBACK[..16] == LOOPBACK && Leading([])[..16] == Leading([]);
    InWhole6(Leading([]), 16, x);
    InWhole6(LOOPBACK, 16, x);
    assert Leading([1])[..8] == [1, 0, 0, 0, 0, 0, 0, 0];
    InWhole6(Leading([1]), 8, x);
    assert Leading([0x20, 0x01, 0x0d, 0xb8])[..4] == [0x20, 0x01, 0x0d, 0xb8];
    InWhole6(Leading([0x20, 0x01, 0x0d, 0xb8]), 4, x);
  }

  lemma ShortRanges6(x: seq<bv8>)
    requires |x| == 16
    ensures forall i :: 0 <= i < 7 ==> Legal(NON_PUBLIC_6[i])
    ensures Contains(NON_PUBLIC_6[4], Address(x)) <==> x[0] == 0xfc || x[0] == 0xfd
    ensures Contains(NON_PUBLIC_6[5], Address(x)) <==> x[0] == 0xfe && 0x80 <= x[1] <= 0xbf
    ensures Contains(NON_PUBLIC_6[6], Address(x)) <==> x[0] == 0xff
  {
    hide Contains, Masked;
    InPart6(Leading([0xfc]), 0, 7, x);
    InPart6(Leading([0xfe, 0x80]), 1, 2, x);
    InWhole6(Leading([0xff]), 1, x);
    assert Leading([0xff])[..1] == [0xff];
    assert x[..1] == [x[0]];
    BitRanges(x[0]);
    BitRanges(x[1]);
  }

  lemma Permits4(a: Address)
    requires |a.bytes| == 4
    ensures PermitsPublicLookup(a) <==>
            forall i :: 0 <= i < 14 ==> Legal(NON_PUBLIC_4[i]) && !Contains(NON_PUBLIC_4[i], a)
  {
  }

  lemma Permits6(a: Address)
    requires |a.bytes| == 16
    ensures PermitsPublicLookup(a) <==>
            forall i :: 0 <= i < 7 ==> Legal(NON_PUBLIC_6[i]) && !Contains(NON_PUBLIC_6[i], a)
  {
  }

  /** For every address of either family, the policy in terms of its bytes. */
  lemma PolicyByBytes(a: Address)
    requires |a.bytes| == 4 || |a.bytes| == 16
    ensures PermitsPublicLookup(a) <==>
              if |a.bytes| == 4 then !SpecialIpv4(a.bytes[0], a.bytes[1], a.bytes[2]) else !SpecialIpv6(a.bytes)
  {
    if |a.bytes| == 4 {
      ByBytes4(a);
    } else {
      ByBytes6(a);
    }
  }

  /** Every literal the service accepts falls under one of the two lists. */
  lemma PolicyOfLiterals(literal: Option<string>, a: Address, jdk: Jdk)
    requires Sound(jdk) && ParseLiteral(literal, jdk) == Success(a)
    ensures |a.bytes| == 4 || |a.bytes| == 16
    ensures PermitsPublicLookup(a) <==>
              if |a.bytes| == 4 then !SpecialIpv4(a.bytes[0], a.bytes[1], a.bytes[2]) else !SpecialIpv6(a.bytes)
  {
    hide PermitsPublicLookup;
    PolicyByBytes(a);
  }

  lemma ByBytes4(a: Address)
    requires |a.bytes| == 4
    ensures PermitsPublicLookup(a) <==> !SpecialIpv4(a.bytes[0], a.bytes[1], a.bytes[2])
  {
    hide Contains, PermitsPublicLookup, Legal;
    Permits4(a);
    ShortRanges4(a.bytes);
    LongRanges4(a.bytes);
    PartRanges4(a.bytes);
    assert a == Address(a.bytes);
  }

  lemma ByBytes6(a: Address)
    requires |a.bytes| == 16
    ensures PermitsPublicLookup(a) <==> !SpecialIpv6(a.bytes)
  {
    hide Contains, PermitsPublicLookup, Legal, Leading;
    Permits6(a);
    LongRanges6(a.bytes);
    ShortRanges6(a.bytes);
    assert a == Address(a.bytes);
  }
}
