/** Which address a request comes from: the transport peer, or the right-most address of the
    forwarding chain that is not a trusted proxy. */
module ClientIpResolver {
  import opened Wrappers
  import opened Numerals
  import opened Splitting
  import opened ClientIp
  import opened Cidr
  import opened ForwardingHeaders

  datatype Mode = DirectMode | TrustedProxyMode

  datatype Properties = Properties(
    mode: Mode, trustedProxies: seq<string>, maxForwardedHops: int, maxHeaderLength: int)

  /** The record constructor has already parsed every configured block. */
  predicate Validated(p: Properties, jdk: Jdk) {
    forall i :: 0 <= i < |p.trustedProxies| ==> Parse(p.trustedProxies[i], jdk).Success?
  }

  /** The transport address and the physical lines of the two headers; a container may answer null. */
  datatype Request = Request(
    remoteAddr: Option<string>, forwarded: Option<seq<Option<string>>>, xForwardedFor: Option<seq<Option<string>>>)

  datatype Source = DirectSource | ForwardedSource | XForwardedForSource

  datatype Attempt = Attempt(source: Source, resolved: bool)

  // ---------------------------------------------------------------- what a resolution means

  predicate Trusted(a: Address, blocks: seq<Block>) {
    exists i :: 0 <= i < |blocks| && Legal(blocks[i]) && Contains(blocks[i], a)
  }

  function Lines(values: Option<seq<Option<string>>>): seq<Option<string>> {
    if values.Some? then values.value else []
  }

  predicate BlankLine(line: Option<string>) { line.None? || Blank(line.value) }

  predicate SomeBlankLine(lines: seq<Option<string>>) {
    exists i :: 0 <= i < |lines| && BlankLine(lines[i])
  }

  /** The addresses before the peer: at most one line of each header, none blank, Forwarded first. */
  function Before(r: Request, p: Properties, jdk: Jdk): Result<seq<Address>> {
    var f, x := Lines(r.forwarded), Lines(r.xForwardedFor);
    if |f| > 1 || |x| > 1 || SomeBlankLine(f) || SomeBlankLine(x) then Failure
    else if f != [] && f[0].Some? then Chain(f[0].value, p.maxHeaderLength, p.maxForwardedHops, Forwarded(jdk))
    else if x != [] && x[0].Some? then Chain(x[0].value, p.maxHeaderLength, p.maxForwardedHops, XForwardedFor(jdk))
    else Failure
  }

  /** The right-most address that is not a trusted proxy. */
  function Client(chain: seq<Address>, blocks: seq<Block>): Option<Address> {
    if chain == [] then None
    else if !Trusted(chain[|chain| - 1], blocks) then Some(chain[|chain| - 1])
    else Client(chain[..|chain| - 1], blocks)
  }

  function Resolution(r: Request, p: Properties, blocks: seq<Block>, jdk: Jdk): Result<Address> {
    match ParseLiteral(r.remoteAddr, jdk)
    case Failure => Failure
    case Success(peer) =>
      if p.mode.DirectMode? || !Trusted(peer, blocks) then Success(peer)
      else
        match Before(r, p, jdk)
        case Failure => Failure
        case Success(chain) =>
          match Client(chain + [peer], blocks)
          case None => Failure
          case Some(a) => Success(a)
  }

  /** The source a resolution is attributed to. */
  function SourceOf(r: Request, p: Properties, blocks: seq<Block>, jdk: Jdk): Source {
    match ParseLiteral(r.remoteAddr, jdk)
    case Failure => DirectSource
    case Success(peer) =>
      if p.mode.DirectMode? || !Trusted(peer, blocks) then DirectSource
      else if Lines(r.forwarded) != [] then ForwardedSource
      else if Lines(r.xForwardedFor) != [] then XForwardedForSource
      else DirectSource
  }

  // ---------------------------------------------------------------- the resolver

  class ServletClientIpResolver {
    const properties: Properties
    const jdk: Jdk
    const trustedProxies: seq<Block>
    var recorded: seq<Attempt>

    constructor (properties: Properties, jdk: Jdk)
      requires Validated(properties, jdk)
      ensures this.properties == properties && this.jdk == jdk && recorded == []
      ensures |trustedProxies| == |properties.trustedProxies|
      ensures forall i :: 0 <= i < |trustedProxies| ==>
              Parse(properties.trustedProxies[i], jdk) == Success(trustedProxies[i])
    {
      this.properties, this.jdk, this.recorded := properties, jdk, [];
      this.trustedProxies := seq(|properties.trustedProxies|,
        i requires 0 <= i < |properties.trustedProxies| && Validated(properties, jdk) =>
          Parse(properties.trustedProxies[i], jdk).value);
    }

    /** The scan from the last address of the complete chain to the first. */
    method Scan(completeChain: seq<Address>) returns (r: Option<Address>)
      ensures r == Client(completeChain, trustedProxies)
    {
      var index := |completeChain|;
      assert completeChain[..index] == completeChain;
      while index > 0
        invariant 0 <= index <= |completeChain|
        invariant Client(completeChain, trustedProxies) == Client(completeChain[..index], trustedProxies)
      {
        index := index - 1;
        var candidate := completeChain[index];
        assert completeChain[..index + 1][..index] == completeChain[..index];
        if !Trusted(candidate, trustedProxies) {
          return Some(candidate);
        }
      }
      return None;
    }

    /** The body of the try block, with the source it has settled on so far. */
    method TryResolve(request: Request) returns (r: Result<Address>, source: Source)
      ensures r == Resolution(request, properties, trustedProxies, jdk)
      ensures source == SourceOf(request, properties, trustedProxies, jdk)
    {
      hide Trusted, ParseLiteral, Chain, Client, SomeBlankLine;
      source := DirectSource;
      var immediatePeer := ParseLiteral(request.remoteAddr, jdk);
      if immediatePeer.Failure? {
        return Failure, source;
      }
      if properties.mode.DirectMode? || !Trusted(immediatePeer.value, trustedProxies) {
        return immediatePeer, source;
      }
      var forwarded, xForwardedFor := Lines(request.forwarded), Lines(request.xForwardedFor);
      if forwarded != [] {
        source := ForwardedSource;
      } else if xForwardedFor != [] {
        source := XForwardedForSource;
      }
      if |forwarded| > 1 || |xForwardedFor| > 1 || SomeBlankLine(forwarded) || SomeBlankLine(xForwardedFor) {
        return Failure, source;
      }
      var chain: Result<seq<Address>>;
      if forwarded != [] && forwarded[0].Some? {
        chain := ParseForwarded(forwarded[0].value, properties.maxHeaderLength, properties.maxForwardedHops, jdk);
      } else if xForwardedFor != [] && xForwardedFor[0].Some? {
        chain := ParseXForwardedFor(xForwardedFor[0].value, properties.maxHeaderLength, properties.maxForwardedHops,
            jdk);
      } else {
        chain := Failure;
      }
      if chain.Failure? {
        return Failure, source;
      }
      var client := Scan(chain.value + [immediatePeer.value]);
      return if client.Some? then Success(client.value) else Failure, source;
    }

    /** resolve: exactly one record per call, with the source and the outcome of the call. */
    method Resolve(request: Request) returns (r: Result<Address>)
      modifies this`recorded
      ensures r == Resolution(request, properties, trustedProxies, jdk)
      ensures recorded == old(recorded) + [Attempt(SourceOf(request, properties, trustedProxies, jdk), r.Success?)]
    {
      var source;
      r, source := TryResolve(request);
      recorded := recorded + [Attempt(source, r.Success?)];
    }
  }

  // ---------------------------------------------------------------- the right-most untrusted address

  /** Position i holds the client: everything after it is a trusted proxy, and it is not. */
  predicate ClientAt(chain: seq<Address>, i: int, blocks: seq<Block>) {
    && 0 <= i < |chain| && !Trusted(chain[i], blocks)
    && forall j :: i < j < |chain| ==> Trusted(chain[j], blocks)
  }

  lemma {:induction false} ClientIsRightmost(chain: seq<Address>, blocks: seq<Block>)
    ensures forall i :: ClientAt(chain, i, blocks) ==> Client(chain, blocks) == Some(chain[i])
    ensures Client(chain, blocks).Some? ==> exists i :: ClientAt(chain, i, blocks)
    ensures Client(chain, blocks).None? <==> forall j :: 0 <= j < |chain| ==> Trusted(chain[j], blocks)
  {
    if chain != [] {
      var init, last := chain[..|chain| - 1], |chain| - 1;
      hide Trusted;
      ClientIsRightmost(init, blocks);
      if !Trusted(chain[last], blocks) {
        assert ClientAt(chain, last, blocks);
      } else {
        forall i ensures ClientAt(chain, i, blocks) <==> ClientAt(init, i, blocks) {
          ClientBeforeTrusted(chain, i, blocks);
        }
      }
    }
  }

  lemma ClientBeforeTrusted(chain: seq<Address>, i: int, blocks: seq<Block>)
    requires chain != [] && Trusted(chain[|chain| - 1], blocks)
    ensures ClientAt(chain, i, blocks) <==> ClientAt(chain[..|chain| - 1], i, blocks)
  {
    hide Trusted;
    var init, last := chain[..|chain| - 1], |chain| - 1;
    if ClientAt(init, i, blocks) || ClientAt(chain, i, blocks) {
      assert i != last;
      assert forall j :: i < j < last ==> chain[j] == init[j];
    }
  }

  /** Once the chain holds an untrusted address, nothing put before it is ever looked at. */
  lemma {:induction false} ClientOfLonger(before: seq<Address>, chain: seq<Address>, blocks: seq<Block>)
    ensures Client(chain, blocks).Some? ==> Client(before + chain, blocks) == Client(chain, blocks)
    ensures Client(chain, blocks).None? ==> Client(before + chain, blocks) == Client(before, blocks)
  {
    if chain == [] {
      assert before + chain == before;
    } else {
      assert (before + chain)[..|before + chain| - 1] == before + chain[..|chain| - 1];
      ClientOfLonger(before, chain[..|chain| - 1], blocks);
    }
  }

  // ---------------------------------------------------------------- what a caller can and cannot do

  /** Without a trusted peer, and in direct mode, the headers do not matter at all. */
  lemma UntrustedPeersSpeakForThemselves(r: Request, s: Request, p: Properties, blocks: seq<Block>, jdk: Jdk,
        peer: Address)
    requires ParseLiteral(r.remoteAddr, jdk) == Success(peer) && s.remoteAddr == r.remoteAddr
    requires p.mode.DirectMode? || !Trusted(peer, blocks)
    ensures Resolution(r, p, blocks, jdk) == Resolution(s, p, blocks, jdk) == Success(peer)
    ensures SourceOf(r, p, blocks, jdk) == DirectSource
  {
  }

  /** A peer that is no address is refused whatever the headers say, and the refusal is its own. */
  lemma BrokenPeersAreRefused(r: Request, p: Properties, blocks: seq<Block>, jdk: Jdk)
    requires ParseLiteral(r.remoteAddr, jdk).Failure?
    ensures Resolution(r, p, blocks, jdk) == Failure && SourceOf(r, p, blocks, jdk) == DirectSource
  {
  }

  ghost predicate OnlyLine(lines: seq<Option<string>>) {
    |lines| == 1 && lines[0].Some? && !Blank(lines[0].value)
  }

  /** Behind a trusted peer an answer takes exactly one line to read: one Forwarded line, or one
      X-Forwarded-For line and no other; a second line of either header, or a blank one, is refused,
      also when the other header would have been read. */
  lemma AmbiguityIsRefused(r: Request, p: Properties, blocks: seq<Block>, jdk: Jdk, peer: Address)
    requires p.mode.TrustedProxyMode? && ParseLiteral(r.remoteAddr, jdk) == Success(peer) && Trusted(peer, blocks)
    ensures var f, x := Lines(r.forwarded), Lines(r.xForwardedFor);
            Resolution(r, p, blocks, jdk).Success? ==>
              (OnlyLine(f) || (f == [] && OnlyLine(x))) && (x == [] || OnlyLine(x))
    ensures var f, x, source := Lines(r.forwarded), Lines(r.xForwardedFor), SourceOf(r, p, blocks, jdk);
            && (source.ForwardedSource? <==> f != []) && (source.XForwardedForSource? <==> f == [] && x != [])
  {
    hide Trusted, Chain, Client, ParseLiteral, Blank;
    var f, x := Lines(r.forwarded), Lines(r.xForwardedFor);
    if Before(r, p, jdk).Success? {
      assert f != [] ==> !BlankLine(f[0]);
      assert x != [] ==> !BlankLine(x[0]);
    }
  }

  /** One header line, and which header it belongs to, says that the request came through this chain. */
  ghost predicate HeaderSays(r: Request, p: Properties, jdk: Jdk, chain: seq<Address>, source: Source) {
    var f, x := Lines(r.forwarded), Lines(r.xForwardedFor);
    && (x == [] || OnlyLine(x))
    && if source.ForwardedSource? then
         OnlyLine(f) && Chain(f[0].value, p.maxHeaderLength, p.maxForwardedHops, Forwarded(jdk)) == Success(chain)
       else
         && source.XForwardedForSource? && f == [] && OnlyLine(x)
         && Chain(x[0].value, p.maxHeaderLength, p.maxForwardedHops, XForwardedFor(jdk)) == Success(chain)
  }

  lemma BeforeIsSaid(r: Request, p: Properties, jdk: Jdk, chain: seq<Address>)
    ensures Before(r, p, jdk) == Success(chain) <==> exists source :: HeaderSays(r, p, jdk, chain, source)
  {
    hide Chain, Blank;
    var f, x := Lines(r.forwarded), Lines(r.xForwardedFor);
    OnlyLines(f);
    OnlyLines(x);
    if Before(r, p, jdk) == Success(chain) {
      assert HeaderSays(r, p, jdk, chain, if f != [] then ForwardedSource else XForwardedForSource);
    }
  }

  lemma OnlyLines(lines: seq<Option<string>>)
    ensures OnlyLine(lines) <==> |lines| == 1 && !SomeBlankLine(lines)
    ensures SomeBlankLine([]) == false
  {
    if |lines| == 1 {
      assert SomeBlankLine(lines) <==> BlankLine(lines[0]);
    }
  }

  /** The whole resolver: the peer answers for itself in direct mode and when it is not trusted;
      otherwise the answer is an address of the chain the one header line says, or the peer's, after
      which everything is trusted while it is not. */
  lemma ResolutionMeetsItsDescription(r: Request, p: Properties, blocks: seq<Block>, jdk: Jdk, a: Address)
    ensures Resolution(r, p, blocks, jdk) == Success(a) <==>
              exists peer :: PeerAnswers(r, p, blocks, jdk, peer, a)
  {
    hide Trusted, Client, ParseLiteral, Before, HeaderSays, ClientAt;
    var peer := ParseLiteral(r.remoteAddr, jdk);
    if peer.Success? {
      PeerAnswer(r, p, blocks, jdk, peer.value, a);
      assert forall other :: PeerAnswers(r, p, blocks, jdk, other, a) ==> other == peer.value;
    }
  }

  ghost predicate PeerAnswers(r: Request, p: Properties, blocks: seq<Block>, jdk: Jdk, peer: Address, a: Address) {
    && ParseLiteral(r.remoteAddr, jdk) == Success(peer)
    && if p.mode.DirectMode? || !Trusted(peer, blocks) then a == peer
       else exists chain, i :: ChainAnswers(r, p, blocks, jdk, chain, peer, i, a)
  }

  /** Some header line says this chain, and the client stands at place i of it, the peer being last. */
  ghost predicate ChainAnswers(r: Request, p: Properties, blocks: seq<Block>, jdk: Jdk, chain: seq<Address>,
        peer: Address, i: int, a: Address) {
    && (exists source :: HeaderSays(r, p, jdk, chain, source))
    && ClientAt(chain + [peer], i, blocks) && a == (chain + [peer])[i]
  }

  lemma PeerAnswer(r: Request, p: Properties, blocks: seq<Block>, jdk: Jdk, peer: Address, a: Address)
    requires ParseLiteral(r.remoteAddr, jdk) == Success(peer)
    ensures Resolution(r, p, blocks, jdk) == Success(a) <==> PeerAnswers(r, p, blocks, jdk, peer, a)
  {
    hide Trusted, Client, ClientAt, ParseLiteral, Before, HeaderSays;
    if p.mode.TrustedProxyMode? && Trusted(peer, blocks) {
      if Resolution(r, p, blocks, jdk) == Success(a) {
        var chain := Before(r, p, jdk).value;
        BeforeIsSaid(r, p, jdk, chain);
        ClientIsRightmost(chain + [peer], blocks);
        var i :| ClientAt(chain + [peer], i, blocks);
        UntrustedAt(chain + [peer], i, blocks);
        assert ChainAnswers(r, p, blocks, jdk, chain, peer, i, a);
      }
      if PeerAnswers(r, p, blocks, jdk, peer, a) {
        var chain, i :| ChainAnswers(r, p, blocks, jdk, chain, peer, i, a);
        BeforeIsSaid(r, p, jdk, chain);
        ClientIsRightmost(chain + [peer], blocks);
      }
    }
  }

  /** Trust in terms of addresses: some configured block is of the same family and its aligned interval
      holds the number of the address. */
  lemma TrustedIsIntervals(a: Address, blocks: seq<Block>)
    ensures Trusted(a, blocks) <==>
              exists b <- blocks :: Legal(b) && |a.bytes| == |b.network|
                                    && Lowest(b) <= Number(a.bytes) < Lowest(b) + Pow2(HostBits(b))
  {
    hide Number, Pow2, Lowest, HostBits;
    forall b | b in blocks && Legal(b)
      ensures Contains(b, a) <==> |a.bytes| == |b.network|
                                  && Lowest(b) <= Number(a.bytes) < Lowest(b) + Pow2(HostBits(b))
    {
      if |a.bytes| == |b.network| {
        ContainsIsInterval(b, a);
      }
    }
    hide Contains, Legal;
    if Trusted(a, blocks) {
      var i :| 0 <= i < |blocks| && Legal(blocks[i]) && Contains(blocks[i], a);
      assert blocks[i] in blocks;
    }
  }

  /** In trusted-proxy mode the answer is never a trusted proxy. */
  lemma ResolvedIsUntrusted(r: Request, p: Properties, blocks: seq<Block>, jdk: Jdk)
    requires p.mode.TrustedProxyMode? && Resolution(r, p, blocks, jdk).Success?
    ensures !Trusted(Resolution(r, p, blocks, jdk).value, blocks)
  {
    hide Trusted, ClientAt;
    var peer := ParseLiteral(r.remoteAddr, jdk).value;
    if Trusted(peer, blocks) {
      var chain := Before(r, p, jdk).value + [peer];
      ClientIsRightmost(chain, blocks);
      var i :| ClientAt(chain, i, blocks);
      UntrustedAt(chain, i, blocks);
    }
  }

  lemma UntrustedAt(chain: seq<Address>, i: int, blocks: seq<Block>)
    requires ClientAt(chain, i, blocks)
    ensures 0 <= i < |chain| && !Trusted(chain[i], blocks)
  {
  }

  /** The same request with text put in front of its Forwarded line. */
  function WithForwarded(r: Request, line: string): Request { r.(forwarded := Some([Some(line)])) }

  function WithXForwardedFor(r: Request, line: string): Request { r.(forwarded := None,
        xForwardedFor := Some([Some(line)])) }

  /** Whatever a sender writes before the line a trusted proxy completes: if that line alone resolves
      to an address, the longer line resolves to the same address or to none; it resolves exactly when
      headers are ignored or what was written is itself a readable chain within the limits. */
  lemma PrefixCannotChangeForwarded(r: Request, before: string, h: string, p: Properties, blocks: seq<Block>, jdk: Jdk)
    requires Resolution(WithForwarded(r, h), p, blocks, jdk).Success?
    ensures var peer := ParseLiteral(r.remoteAddr, jdk);
            var longer := Chain(before + "," + h, p.maxHeaderLength, p.maxForwardedHops, Forwarded(jdk));
            Resolution(WithForwarded(r, before + "," + h), p, blocks, jdk)
              == if p.mode.DirectMode? || !Trusted(peer.value, blocks) || longer.Success? then
                   Resolution(WithForwarded(r, h), p, blocks, jdk)
                 else Failure
  {
    hide Trusted, Chain, Client, ParseLiteral;
    var s, s' := WithForwarded(r, h), WithForwarded(r, before + "," + h);
    var peer := ParseLiteral(r.remoteAddr, jdk).value;
    if p.mode.TrustedProxyMode? && Trusted(peer, blocks) {
      OneLine(h);
      OneLine(before + "," + h);
      JoinedIsNotBlank(before, h);
      ChainOfBoth(before, h, p.maxHeaderLength, p.maxForwardedHops, Forwarded(jdk));
      var x := Chain(before, p.maxHeaderLength, p.maxForwardedHops, Forwarded(jdk));
      var y := Chain(h, p.maxHeaderLength, p.maxForwardedHops, Forwarded(jdk));
      if x.Success? {
        assert x.value + y.value + [peer] == x.value + (y.value + [peer]);
        ClientOfLonger(x.value, y.value + [peer], blocks);
      }
    }
  }

  /** The same for X-Forwarded-For. */
  lemma PrefixCannotChangeXForwardedFor(r: Request, before: string, h: string, p: Properties, blocks: seq<Block>,
        jdk: Jdk)
    requires Resolution(WithXForwardedFor(r, h), p, blocks, jdk).Success?
    ensures var peer := ParseLiteral(r.remoteAddr, jdk);
            var longer := Chain(before + "," + h, p.maxHeaderLength, p.maxForwardedHops, XForwardedFor(jdk));
            Resolution(WithXForwardedFor(r, before + "," + h), p, blocks, jdk)
              == if p.mode.DirectMode? || !Trusted(peer.value, blocks) || longer.Success? then
                   Resolution(WithXForwardedFor(r, h), p, blocks, jdk)
                 else Failure
  {
    hide Trusted, Chain, Client, ParseLiteral;
    var peer := ParseLiteral(r.remoteAddr, jdk).value;
    if p.mode.TrustedProxyMode? && Trusted(peer, blocks) {
      OneLine(h);
      OneLine(before + "," + h);
      JoinedIsNotBlank(before, h);
      ChainOfBoth(before, h, p.maxHeaderLength, p.maxForwardedHops, XForwardedFor(jdk));
      var x := Chain(before, p.maxHeaderLength, p.maxForwardedHops, XForwardedFor(jdk));
      var y := Chain(h, p.maxHeaderLength, p.maxForwardedHops, XForwardedFor(jdk));
      if x.Success? {
        assert x.value + y.value + [peer] == x.value + (y.value + [peer]);
        ClientOfLonger(x.value, y.value + [peer], blocks);
      }
    }
  }

  lemma OneLine(line: string)
    ensures SomeBlankLine([Some(line)]) <==> Blank(line)
  {
    assert [Some(line)][0] == Some(line);
  }

  lemma JoinedIsNotBlank(before: string, h: string)
    ensures !Blank(before + "," + h)
  {
    assert (before + "," + h)[|before|] == ',';
  }

  /** The hops as the proxies recorded them: the client first, then only trusted proxies. */
  ghost predicate Recorded(hops: seq<Hop>, blocks: seq<Block>, jdk: Jdk) {
    && hops != [] && (forall hop <- hops :: Readable(hop, jdk))
    && ClientAt(AddressesOf(hops, jdk), 0, blocks)
  }

  lemma ClientOfRecorded(hops: seq<Hop>, peer: Address, blocks: seq<Block>, jdk: Jdk)
    requires Recorded(hops, blocks, jdk) && Trusted(peer, blocks)
    ensures Client(AddressesOf(hops, jdk) + [peer], blocks) == Some(AddressOf(LiteralOf(hops[0]), jdk))
  {
    hide Trusted, Readable, AddressOf, LiteralOf;
    var chain := AddressesOf(hops, jdk) + [peer];
    assert ClientAt(chain, 0, blocks);
    ClientIsRightmost(chain, blocks);
  }

  /** End to end: a trusted peer passes on a line in which the proxies recorded the client and then
      each other, within the limits: the resolver answers the client. */
  lemma RecordedClientIsResolved(r: Request, hops: seq<Hop>, p: Properties, blocks: seq<Block>, jdk: Jdk)
    requires ReadsDigits(jdk.digit) && p.mode.TrustedProxyMode? && Recorded(hops, blocks, jdk)
    requires ParseLiteral(r.remoteAddr, jdk).Success? && Trusted(ParseLiteral(r.remoteAddr, jdk).value, blocks)
    requires !SomeBlankLine(Lines(r.xForwardedFor)) && |Lines(r.xForwardedFor)| <= 1
    ensures Resolution(WithForwarded(r, Header(hops)), p, blocks, jdk)
              == if |Header(hops)| <= p.maxHeaderLength && |hops| <= p.maxForwardedHops
                 then Success(AddressOf(LiteralOf(hops[0]), jdk)) else Failure
  {
    hide Trusted, Chain, Client, ParseLiteral, Header, Elements, Blank;
    OneLine(Header(hops));
    ElementsAreSome(Header(hops));
    ForwardedRoundTrip(hops, p.maxHeaderLength, p.maxForwardedHops, jdk);
    ClientOfRecorded(hops, ParseLiteral(r.remoteAddr, jdk).value, blocks, jdk);
  }

  /** The literals of X-Forwarded-For as the proxies recorded them: the client, then trusted proxies. */
  ghost predicate RecordedBare(literals: seq<string>, blocks: seq<Block>, jdk: Jdk) {
    && literals != [] && (forall l <- literals :: ParseLiteral(Some(l), jdk).Success?)
    && ClientAt(BareAddresses(literals, jdk), 0, blocks)
  }

  function BareAddresses(literals: seq<string>, jdk: Jdk): seq<Address> {
    seq(|literals|, i requires 0 <= i < |literals| => AddressOf(literals[i], jdk))
  }

  lemma ClientOfBare(literals: seq<string>, peer: Address, blocks: seq<Block>, jdk: Jdk)
    requires RecordedBare(literals, blocks, jdk) && Trusted(peer, blocks)
    ensures Client(BareAddresses(literals, jdk) + [peer], blocks) == Some(AddressOf(literals[0], jdk))
  {
    hide Trusted, AddressOf;
    var chain := BareAddresses(literals, jdk) + [peer];
    assert ClientAt(chain, 0, blocks);
    ClientIsRightmost(chain, blocks);
  }

  lemma BareLine(literals: seq<string>, blocks: seq<Block>, maxLength: int, maxHops: int, jdk: Jdk)
    requires ReadsDigits(jdk.digit) && RecordedBare(literals, blocks, jdk)
    ensures !Blank(Join(literals, ", ")) && Elements(Join(literals, ", ")).Success?
    ensures Chain(Join(literals, ", "), maxLength, maxHops, XForwardedFor(jdk))
              == if |Join(literals, ", ")| <= maxLength && |literals| <= maxHops
                 then Success(BareAddresses(literals, jdk)) else Failure
  {
    hide ParseLiteral, Blank, Chain, ClientAt, Elements;
    forall l | l in literals ensures l != "" && forall i :: 0 <= i < |l| ==> Ipv6Char(l[i]) {
      LiteralsArePlain(l, jdk);
    }
    XForwardedForRoundTrip(literals, maxLength, maxHops, jdk);
    JoinStarts(literals);
    assert literals[0] in literals;
    NotBlank(Join(literals, ", "));
  }

  lemma JoinStarts(ps: seq<string>)
    requires ps != [] && ps[0] != ""
    ensures Join(ps, ", ") != "" && Join(ps, ", ")[0] == ps[0][0]
  {
  }

  /** The same end to end for X-Forwarded-For, when there is no Forwarded line. */
  lemma RecordedBareClientIsResolved(r: Request, literals: seq<string>, p: Properties, blocks: seq<Block>, jdk: Jdk)
    requires ReadsDigits(jdk.digit) && p.mode.TrustedProxyMode? && RecordedBare(literals, blocks, jdk)
    requires ParseLiteral(r.remoteAddr, jdk).Success? && Trusted(ParseLiteral(r.remoteAddr, jdk).value, blocks)
    ensures var line := Join(literals, ", ");
            Resolution(WithXForwardedFor(r, line), p, blocks, jdk)
              == if |line| <= p.maxHeaderLength && |literals| <= p.maxForwardedHops
                 then Success(AddressOf(literals[0], jdk)) else Failure
  {
    hide Trusted, Chain, Client, ParseLiteral, Join, Blank, RecordedBare;
    OneLine(Join(literals, ", "));
    BareLine(literals, blocks, p.maxHeaderLength, p.maxForwardedHops, jdk);
    ClientOfBare(literals, ParseLiteral(r.remoteAddr, jdk).value, blocks, jdk);
  }

  /** And after anything the client sent itself: the answer is the client or nothing. */
  lemma BareForgeryIsUseless(r: Request, forged: string, literals: seq<string>, p: Properties, blocks: seq<Block>,
        jdk: Jdk)
    requires ReadsDigits(jdk.digit) && p.mode.TrustedProxyMode? && RecordedBare(literals, blocks, jdk)
    requires ParseLiteral(r.remoteAddr, jdk).Success? && Trusted(ParseLiteral(r.remoteAddr, jdk).value, blocks)
    ensures var answer := Resolution(WithXForwardedFor(r, forged + "," + Join(literals, ", ")), p, blocks, jdk);
            answer.Success? ==> answer.value == AddressOf(literals[0], jdk)
  {
    hide Trusted, Chain, Client, ParseLiteral, Join, Blank, Elements, RecordedBare, BareAddresses, AddressOf;
    var peer, line := ParseLiteral(r.remoteAddr, jdk).value, Join(literals, ", ");
    BareLine(literals, blocks, p.maxHeaderLength, p.maxForwardedHops, jdk);
    LongerChainEnds(forged, line, p.maxHeaderLength, p.maxForwardedHops, XForwardedFor(jdk));
    ClientOfBare(literals, peer, blocks, jdk);
    var longer := Chain(forged + "," + line, p.maxHeaderLength, p.maxForwardedHops, XForwardedFor(jdk));
    if longer.Success? {
      var x := Chain(forged, p.maxHeaderLength, p.maxForwardedHops, XForwardedFor(jdk)).value;
      assert longer.value + [peer] == x + (BareAddresses(literals, jdk) + [peer]);
      ClientOfLonger(x, BareAddresses(literals, jdk) + [peer], blocks);
    }
  }

  /** The same line after anything the client sent itself: the answer is the client or nothing, so no
      header content makes the resolver name an address of the sender's choosing. */
  lemma ForgeryIsUseless(r: Request, forged: string, hops: seq<Hop>, p: Properties, blocks: seq<Block>, jdk: Jdk)
    requires ReadsDigits(jdk.digit) && p.mode.TrustedProxyMode? && Recorded(hops, blocks, jdk)
    requires ParseLiteral(r.remoteAddr, jdk).Success? && Trusted(ParseLiteral(r.remoteAddr, jdk).value, blocks)
    ensures var answer := Resolution(WithForwarded(r, forged + "," + Header(hops)), p, blocks, jdk);
            answer.Success? ==> answer.value == AddressOf(LiteralOf(hops[0]), jdk)
  {
    hide Trusted, Chain, Client, ParseLiteral, Header, Elements, AddressesOf, AddressOf, LiteralOf;
    var peer := ParseLiteral(r.remoteAddr, jdk).value;
    ForwardedRoundTrip(hops, p.maxHeaderLength, p.maxForwardedHops, jdk);
    LongerChainEnds(forged, Header(hops), p.maxHeaderLength, p.maxForwardedHops, Forwarded(jdk));
    ClientOfRecorded(hops, peer, blocks, jdk);
    var longer := Chain(forged + "," + Header(hops), p.maxHeaderLength, p.maxForwardedHops, Forwarded(jdk));
    if longer.Success? {
      var x := Chain(forged, p.maxHeaderLength, p.maxForwardedHops, Forwarded(jdk)).value;
      assert longer.value + [peer] == x + (AddressesOf(hops, jdk) + [peer]);
      ClientOfLonger(x, AddressesOf(hops, jdk) + [peer], blocks);
    }
  }
}
