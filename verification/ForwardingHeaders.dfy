/** Forwarded and X-Forwarded-For: lists of client addresses in one header line. */
module ForwardingHeaders {
  import opened Wrappers
  import opened Text
  import opened Numerals
  import opened Splitting
  import opened ClientIp

  // ---------------------------------------------------------------- the comma splitter

  function TrimAll(ps: seq<string>): (r: seq<string>)
    ensures |r| == |ps|
  {
    seq(|ps|, i requires 0 <= i < |ps| => Trim(ps[i]))
  }

  predicate SomeBlank(ps: seq<string>) {
    exists i :: 0 <= i < |ps| && Blank(ps[i])
  }

  /** The elements of a header: nothing when it holds a backslash, an unclosed quotation or an empty
      element, and otherwise its trimmed pieces. */
  function Elements(header: string): Result<seq<string>> {
    var ps := Pieces(header, ',', true, false);
    if '\\' in header || OpenAfter(header, true, false) || SomeBlank(ps) then Failure
    else Success(TrimAll(ps))
  }

  /** splitCommaSeparated. */
  method SplitCommaSeparated(header: string) returns (r: Result<seq<string>>)
    ensures r == Elements(header)
  {
    var values := [];
    var quoted := false;
    var start := 0;
    ghost var done := [];
    assert header[0..0] == "" && header[..0] == "" && header[0..] == header;
    hide Pieces, OpenAfter, Uncut, Blank, Trim, TrimAll, SomeBlank;
    NothingYet();
    for index := 0 to |header|
      invariant 0 <= start <= index
      invariant '\\' !in header[..index]
      invariant !OpenAfter(header[..start], true, false)
      invariant quoted == OpenAfter(header[start..index], true, false)
      invariant Uncut(header[start..index], ',', true, false)
      invariant Pieces(header, ',', true, false) == done + Pieces(header[start..], ',', true, false)
      invariant values == TrimAll(done) && !SomeBlank(done)
    {
      var character := header[index];
      assert header[..index + 1] == header[..index] + [character];
      if character == '\\' {
        return Failure;
      }
      if character == ',' && !quoted {
        var value := header[start..index];
        CutHere(header, start, index);
        OneMore(done, value, Pieces(header[index + 1..], ',', true, false));
        if Blank(value) {
          return Failure;
        }
        values := values + [Trim(value)];
        done := done + [value];
        start := index + 1;
      } else {
        ReadOn(header, start, index);
        if character == '"' {
          quoted := !quoted;
        }
      }
    }
    LastPiece(header, start);
    OneMore(done, header[start..], []);
    if quoted || Blank(header[start..]) {
      return Failure;
    }
    return Success(values + [Trim(header[start..])]);
  }

  lemma NothingYet()
    ensures Uncut("", ',', true, false) && !OpenAfter("", true, false) && TrimAll([]) == [] && !SomeBlank([])
  {
  }

  lemma OneMore(done: seq<string>, value: string, rest: seq<string>)
    ensures done + [value] + rest == done + ([value] + rest)
    ensures TrimAll(done + [value]) == TrimAll(done) + [Trim(value)]
    ensures SomeBlank(done + [value]) <==> SomeBlank(done) || Blank(value)
    ensures Blank(value) ==> SomeBlank(done + ([value] + rest))
    ensures rest == [] ==> done + ([value] + rest) == done + [value]
  {
    if Blank(value) {
      assert (done + [value])[|done|] == value && (done + ([value] + rest))[|done|] == value;
    }
    if SomeBlank(done) {
      var i :| 0 <= i < |done| && Blank(done[i]);
      assert (done + [value])[i] == done[i];
    }
  }

  lemma CutHere(header: string, start: nat, index: nat)
    requires start <= index < |header| && header[index] == ','
    requires !OpenAfter(header[..start], true, false) && !OpenAfter(header[start..index], true, false)
    requires Uncut(header[start..index], ',', true, false)
    ensures Pieces(header[start..], ',', true, false)
              == [header[start..index]] + Pieces(header[index + 1..], ',', true, false)
    ensures !OpenAfter(header[..index + 1], true, false)
    ensures Uncut(header[index + 1..index + 1], ',', true, false)
            && !OpenAfter(header[index + 1..index + 1], true, false)
  {
    var piece := header[start..index];
    UncutIsOnePiece(piece, ',', true, false);
    PiecesOfBoth(piece, header[index + 1..], ',', true, false);
    assert header[start..] == piece + [','] + header[index + 1..];
    assert header[..index + 1] == header[..start] + (piece + [',']);
    OpenAfterBoth(header[..start], piece + [','], true, false);
    OpenAfterBoth(piece, [','], true, false);
  }

  lemma ReadOn(header: string, start: nat, index: nat)
    requires start <= index < |header|
    requires Uncut(header[start..index], ',', true, false)
    requires header[index] == ',' ==> OpenAfter(header[start..index], true, false)
    ensures Uncut(header[start..index + 1], ',', true, false)
    ensures OpenAfter(header[start..index + 1], true, false)
              == OpenNext(header[index], true, OpenAfter(header[start..index], true, false))
  {
    var piece, c := header[start..index], [header[index]];
    assert header[start..index + 1] == piece + c;
    OpenAfterBoth(piece, c, true, false);
    UncutBoth(piece, c, ',', true, false);
    assert c[1..] == "";
  }

  lemma LastPiece(header: string, start: nat)
    requires start <= |header| && !OpenAfter(header[..start], true, false)
    requires Uncut(header[start..|header|], ',', true, false)
    ensures Pieces(header[start..], ',', true, false) == [header[start..]]
    ensures OpenAfter(header, true, false) == OpenAfter(header[start..], true, false)
    ensures header[start..|header|] == header[start..] && header[..|header|] == header
  {
    assert header[start..|header|] == header[start..];
    UncutIsOnePiece(header[start..], ',', true, false);
    assert header == header[..start] + header[start..];
    OpenAfterBoth(header[..start], header[start..], true, false);
  }

  /** The splitter meets its declarative description: it refuses exactly backslashes, an odd number of
      quotes and blank pieces; the pieces before trimming rejoin to the header, there is one more of
      them than there are commas outside quotations, and it is cut at exactly those commas. */
  lemma SplitterMeetsItsDescription(header: string)
    ensures var ps := Pieces(header, ',', true, false);
            && (Elements(header).Failure? <==> '\\' in header || Quotes(header) % 2 == 1 || SomeBlank(ps))
            && Join(ps, ",") == header
            && |ps| == 1 + CutsBelow(header, |header|, ',', true, false)
            && (forall i :: Boundary(ps, i) <==> 0 <= i < |header| && header[i] == ',' && Quotes(header[..i]) % 2 == 0)
            && (Elements(header).Success? ==> Elements(header).value == TrimAll(ps))
  {
    hide Pieces, Boundary, Blank, Trim, Join, CutsBelow, SomeBlank, OpenAfter, Quotes;
    var ps := Pieces(header, ',', true, false);
    OpenIsOddQuotes(header, false);
    JoinOfPieces(header, ',', true, false);
    PiecesAreCounted(header, ',', true, false);
    forall i ensures Boundary(ps, i) <==> 0 <= i < |header| && header[i] == ',' && Quotes(header[..i]) % 2 == 0 {
      CutsAreBoundaries(header, i, ',', true, false);
      if 0 <= i < |header| {
        OpenIsOddQuotes(header[..i], false);
      }
    }
  }

  // ---------------------------------------------------------------- one element

  function IndexOf(s: string, c: char): (i: int)
    ensures -1 <= i < |s|
    ensures i >= 0 ==> s[i] == c && c !in s[..i]
    ensures i < 0 ==> c !in s
  {
    if s == "" then -1
    else if s[0] == c then 0
    else
      var i := IndexOf(s[1..], c);
      if i < 0 then -1
      else
        assert s[..i + 1] == [s[0]] + s[1..][..i];
        i + 1
  }

  datatype Parameter = Parameter(name: string, value: string)

  /** One name=value pair; neither side may be blank. */
  function ReadParameter(text: string): Option<Parameter> {
    var t := Trim(text);
    var i := IndexOf(t, '=');
    if i < 0 || Blank(t[..i]) || Blank(t[i + 1..]) then None else Some(Parameter(t[..i], t[i + 1..]))
  }

  predicate NamesFor(p: Parameter) { Lower(Trim(p.name)) == "for" }

  /** The values given for "for", in order. */
  function ForValues(texts: seq<string>): seq<string> {
    if texts == [] then []
    else
      var p := ReadParameter(texts[|texts| - 1]);
      ForValues(texts[..|texts| - 1]) + (if p.Some? && NamesFor(p.value) then [Trim(p.value.value)] else [])
  }

  predicate AllReadable(texts: seq<string>) {
    forall i :: 0 <= i < |texts| ==> ReadParameter(texts[i]).Some?
  }

  function ValidPort(port: string, jdk: Jdk): bool {
    var n := ParseInt(port, jdk.digit);
    n.Some? && 1 <= n.value <= 65535 && Decimal(n.value) == port
  }

  predicate Quoted(s: string) { s != "" && (s[0] == '"' || s[|s| - 1] == '"') }

  /** parseForValue: the address literal of a node identifier, with brackets and port taken off. */
  function ForLiteral(raw: string, jdk: Jdk): Result<string> {
    if '\\' in raw || Lower(raw) == "unknown" || "_" <= raw then Failure
    else if Quoted(raw) then
      if |raw| < 2 || raw[0] != '"' || raw[|raw| - 1] != '"' then Failure else HostLiteral(raw[1..|raw| - 1], jdk)
    else HostLiteral(raw, jdk)
  }

  function HostLiteral(host: string, jdk: Jdk): Result<string> {
    if "[" <= host then
      var close := IndexOf(host, ']');
      if close < 2 then Failure
      else
        var suffix := host[close + 1..];
        if suffix == "" || (suffix[0] == ':' && ValidPort(suffix[1..], jdk)) then Success(host[1..close]) else Failure
    else if '[' in host || ']' in host || ':' in host then Failure
    else Success(host)
  }

  /** An element stands for an address when all its parameters are readable and exactly one of them
      is a "for" with an address literal. */
  function ElementAddress(element: string, jdk: Jdk): Result<Address> {
    var texts := Split(element, ';');
    var values := ForValues(texts);
    if !AllReadable(texts) || |values| != 1 then Failure
    else
      match ForLiteral(values[0], jdk)
      case Failure => Failure
      case Success(literal) => ParseLiteral(Some(literal), jdk)
  }

  /** parseElement. */
  method ParseElement(element: string, jdk: Jdk) returns (r: Result<Address>)
    ensures r == ElementAddress(element, jdk)
  {
    hide ReadParameter, NamesFor, ForLiteral, ParseLiteral, Trim;
    var value: Option<string> := None;
    var texts := Split(element, ';');
    ghost var seen: seq<string> := [];
    for i := 0 to |texts|
      invariant AllReadable(texts[..i])
      invariant ForValues(texts[..i]) == seen && |seen| <= 1
      invariant if seen == [] then value.None? else value.Some? && ForLiteral(seen[0], jdk) == Success(value.value)
    {
      ForValuesGrow(texts, i);
      ReadableGrows(texts, i);
      var parameter := ReadParameter(texts[i]);
      if parameter.None? {
        return Failure;
      }
      if NamesFor(parameter.value) {
        if value.Some? {
          return Failure;
        }
        seen := [Trim(parameter.value.value)];
        var literal := ForLiteral(Trim(parameter.value.value), jdk);
        if literal.Failure? {
          return Failure;
        }
        value := Some(literal.value);
      }
    }
    assert texts[..|texts|] == texts;
    if value.None? {
      return Failure;
    }
    return ParseLiteral(value, jdk);
  }

  /** Reading one parameter more; what was found before stays found. */
  lemma ForValuesGrow(texts: seq<string>, i: nat)
    requires i < |texts|
    ensures var p := ReadParameter(texts[i]);
            ForValues(texts[..i + 1])
              == ForValues(texts[..i]) + (if p.Some? && NamesFor(p.value) then [Trim(p.value.value)] else [])
    ensures ForValues(texts[..i + 1]) <= ForValues(texts)
  {
    assert texts[..i + 1][..i] == texts[..i];
    ForValuesPrefix(texts, i + 1);
  }

  lemma ReadableGrows(texts: seq<string>, i: nat)
    requires i < |texts|
    ensures AllReadable(texts[..i + 1]) <==> AllReadable(texts[..i]) && ReadParameter(texts[i]).Some?
  {
    hide ReadParameter;
    forall k | 0 <= k < i ensures texts[..i + 1][k] == texts[..i][k] {}
  }

  lemma {:induction false} ForValuesPrefix(texts: seq<string>, k: nat)
    requires k <= |texts|
    ensures ForValues(texts[..k]) <= ForValues(texts)
  {
    if k == |texts| {
      assert texts[..k] == texts;
    } else {
      ForValuesPrefix(texts[..|texts| - 1], k);
      assert texts[..|texts| - 1][..k] == texts[..k];
    }
  }

  // ---------------------------------------------------------------- whole headers

  function ReadAll(elements: seq<string>, read: string -> Result<Address>): (r: Result<seq<Address>>)
    ensures r.Success? ==> |r.value| == |elements|
  {
    if elements == [] then Success([])
    else
      var before, last := ReadAll(elements[..|elements| - 1], read), read(elements[|elements| - 1]);
      if before.Success? && last.Success? then Success(before.value + [last.value]) else Failure
  }

  /** The addresses of a header line, the nearest hop last, with a reader for its elements. */
  function Chain(header: string, maxLength: int, maxHops: int, read: string -> Result<Address>): Result<seq<Address>> {
    if Blank(header) || |header| > maxLength then Failure
    else
      match Elements(header)
      case Failure => Failure
      case Success(es) => if es == [] || |es| > maxHops then Failure else ReadAll(es, read)
  }

  /** How Forwarded reads an element. */
  function Forwarded(jdk: Jdk): string -> Result<Address> {
    element => ElementAddress(element, jdk)
  }

  /** How X-Forwarded-For reads an element: a bare literal. */
  function XForwardedFor(jdk: Jdk): string -> Result<Address> {
    value => if '[' in value || ']' in value then Failure else ParseLiteral(Some(value), jdk)
  }

  /** ForwardedHeaderParser.parse. */
  method ParseForwarded(header: string, maxLength: int, maxHops: int, jdk: Jdk) returns (r: Result<seq<Address>>)
    ensures r == Chain(header, maxLength, maxHops, Forwarded(jdk))
  {
    hide ElementAddress, Elements, Blank;
    if Blank(header) || |header| > maxLength {
      return Failure;
    }
    var elements := SplitCommaSeparated(header);
    if elements.Failure? {
      return Failure;
    }
    if elements.value == [] || |elements.value| > maxHops {
      return Failure;
    }
    var addresses := [];
    for i := 0 to |elements.value|
      invariant ReadAll(elements.value[..i], Forwarded(jdk)) == Success(addresses)
    {
      ReadOneMore(elements.value, i, Forwarded(jdk));
      var address := ParseElement(elements.value[i], jdk);
      if address.Failure? {
        return Failure;
      }
      addresses := addresses + [address.value];
    }
    assert elements.value[..|elements.value|] == elements.value;
    return Success(addresses);
  }

  /** XForwardedForParser.parse. */
  method ParseXForwardedFor(header: string, maxLength: int, maxHops: int, jdk: Jdk) returns (r: Result<seq<Address>>)
    ensures r == Chain(header, maxLength, maxHops, XForwardedFor(jdk))
  {
    hide ParseLiteral, Elements, Blank;
    if Blank(header) || |header| > maxLength {
      return Failure;
    }
    var values := SplitCommaSeparated(header);
    if values.Failure? {
      return Failure;
    }
    if values.value == [] || |values.value| > maxHops {
      return Failure;
    }
    var addresses := [];
    for i := 0 to |values.value|
      invariant ReadAll(values.value[..i], XForwardedFor(jdk)) == Success(addresses)
    {
      var value := values.value[i];
      ReadOneMore(values.value, i, XForwardedFor(jdk));
      if '[' in value || ']' in value {
        return Failure;
      }
      var address := ParseLiteral(Some(value), jdk);
      if address.Failure? {
        return Failure;
      }
      addresses := addresses + [address.value];
    }
    assert values.value[..|values.value|] == values.value;
    return Success(addresses);
  }

  /** A list with an unreadable element is unreadable. */
  lemma ReadOneMore(es: seq<string>, i: nat, read: string -> Result<Address>)
    requires i < |es|
    ensures var before := ReadAll(es[..i], read);
            ReadAll(es[..i + 1], read)
              == if before.Success? && read(es[i]).Success? then Success(before.value + [read(es[i]).value])
                 else Failure
    ensures read(es[i]).Failure? ==> ReadAll(es, read).Failure?
  {
    assert es[..i + 1][..i] == es[..i];
    ReadPrefix(es, i + 1, read);
  }

  lemma {:induction false} ReadPrefix(es: seq<string>, k: nat, read: string -> Result<Address>)
    requires k <= |es|
    ensures ReadAll(es[..k], read).Failure? ==> ReadAll(es, read).Failure?
  {
    if k == |es| {
      assert es[..k] == es;
    } else {
      ReadPrefix(es[..|es| - 1], k, read);
      assert es[..|es| - 1][..k] == es[..k];
    }
  }

  // ---------------------------------------------------------------- joining headers

  lemma {:induction false} ReadBoth(a: seq<string>, b: seq<string>, read: string -> Result<Address>)
    ensures var x, y := ReadAll(a, read), ReadAll(b, read);
            ReadAll(a + b, read) == if x.Success? && y.Success? then Success(x.value + y.value) else Failure
  {
    if b == [] {
      assert a + b == a;
      assert ReadAll(a, read).Success? ==> ReadAll(a, read).value + [] == ReadAll(a, read).value;
    } else {
      ReadBoth(a, b[..|b| - 1], read);
      assert (a + b)[..|a + b| - 1] == a + b[..|b| - 1] && (a + b)[|a + b| - 1] == b[|b| - 1];
      var x, y := ReadAll(a, read), ReadAll(b, read);
      if x.Success? && y.Success? {
        assert x.value + y.value[..|y.value| - 1] + [y.value[|y.value| - 1]] == x.value + y.value;
      }
    }
  }

  lemma OpenOfBoth(a: string, b: string)
    requires !OpenAfter(b, true, false)
    ensures OpenAfter(a + [','] + b, true, false) == OpenAfter(a, true, false)
  {
    OpenAfterBoth(a + [','], b, true, false);
    OpenAfterBoth(a, [','], true, false);
    OpenIsOddQuotes(b, false);
    OpenIsOddQuotes(b, true);
  }

  lemma PiecesTogether(p: seq<string>, q: seq<string>)
    ensures SomeBlank(p + q) <==> SomeBlank(p) || SomeBlank(q)
    ensures TrimAll(p + q) == TrimAll(p) + TrimAll(q)
  {
    hide Blank, Trim;
    if SomeBlank(p) {
      var i :| 0 <= i < |p| && Blank(p[i]);
      assert (p + q)[i] == p[i];
    }
    if SomeBlank(q) {
      var i :| 0 <= i < |q| && Blank(q[i]);
      assert (p + q)[|p| + i] == q[i];
    }
  }

  /** Joining a header to one whose quotations are closed joins the elements. */
  lemma ElementsOfBoth(a: string, b: string)
    requires !OpenAfter(b, true, false)
    ensures var x, y := Elements(a), Elements(b);
            Elements(a + [','] + b) == if x.Success? && y.Success? then Success(x.value + y.value) else Failure
  {
    hide Pieces, SomeBlank, TrimAll;
    OpenOfBoth(a, b);
    if !OpenAfter(a, true, false) {
      PiecesOfBoth(a, b, ',', true, false);
      PiecesTogether(Pieces(a, ',', true, false), Pieces(b, ',', true, false));
    }
  }

  lemma ElementsAreSome(header: string)
    ensures Elements(header).Success? ==> |Elements(header).value| >= 1 && !Blank(header)
  {
    if Elements(header).Success? && Blank(header) {
      BlankPieces(header);
    }
  }

  lemma {:induction false} BlankPieces(s: string)
    requires Blank(s)
    ensures Blank(Pieces(s, ',', true, false)[0])
  {
    if s != "" {
      assert WhiteSpace(s[0]);
      BlankPieces(s[1..]);
    }
  }

  /** Whatever precedes a readable header: the joined line is the two lists one after the other if the
      part before it is readable on its own and the limits hold for the whole, and else it is refused.
      No prefix makes it anything else. */
  lemma ChainOfBoth(before: string, h: string, maxLength: int, maxHops: int, read: string -> Result<Address>)
    requires Chain(h, maxLength, maxHops, read).Success?
    ensures var x, y := Chain(before, maxLength, maxHops, read), Chain(h, maxLength, maxHops, read).value;
            Chain(before + "," + h, maxLength, maxHops, read)
              == if x.Success? && |before| + 1 + |h| <= maxLength && |x.value| + |y| <= maxHops
                 then Success(x.value + y)
                 else Failure
  {
    var joined := before + [','] + h;
    assert joined == before + "," + h;
    assert joined[|before|] == ',' && !WhiteSpace(',');
    ElementsOfBoth(before, h);
    ElementsAreSome(before);
    hide Blank, Elements, ReadAll;
    if Elements(before).Success? {
      ReadBoth(Elements(before).value, Elements(h).value, read);
    }
  }

  /** A longer line ends with the addresses of the line it ends with. */
  lemma LongerChainEnds(before: string, h: string, maxLength: int, maxHops: int, read: string -> Result<Address>)
    requires Elements(h).Success?
    ensures var x, y := Chain(before, maxLength, maxHops, read), Chain(h, maxLength, maxHops, read);
            var longer := Chain(before + "," + h, maxLength, maxHops, read);
            longer.Success? ==> x.Success? && y.Success? && longer.value == x.value + y.value
  {
    assert before + [','] + h == before + "," + h;
    ElementsOfBoth(before, h);
    ElementsAreSome(before);
    ElementsAreSome(h);
    hide Blank, Elements, ReadAll;
    if Elements(before).Success? {
      ReadBoth(Elements(before).value, Elements(h).value, read);
    }
  }

  ghost predicate EachRead(es: seq<string>, read: string -> Result<Address>, xs: seq<Address>) {
    |xs| == |es| && forall i :: 0 <= i < |es| ==> read(es[i]) == Success(xs[i])
  }

  lemma ReadLast(es: seq<string>, read: string -> Result<Address>, xs: seq<Address>)
    requires es != []
    ensures ReadAll(es, read) == Success(xs) <==>
              && |xs| == |es| && ReadAll(es[..|es| - 1], read) == Success(xs[..|es| - 1])
              && read(es[|es| - 1]) == Success(xs[|es| - 1])
  {
    var n := |es| - 1;
    var before, last := ReadAll(es[..n], read), read(es[n]);
    if before.Success? && last.Success? {
      assert (before.value + [last.value])[..n] == before.value;
    }
    if |xs| == |es| {
      assert xs == xs[..n] + [xs[n]];
    }
  }

  lemma EachReadLast(es: seq<string>, read: string -> Result<Address>, xs: seq<Address>)
    requires es != [] && |xs| == |es|
    ensures EachRead(es, read, xs) <==>
              EachRead(es[..|es| - 1], read, xs[..|es| - 1]) && read(es[|es| - 1]) == Success(xs[|es| - 1])
  {
    var n := |es| - 1;
    forall i | 0 <= i < n ensures es[..n][i] == es[i] && xs[..n][i] == xs[i] {}
    if EachRead(es[..n], read, xs[..n]) {
      forall i | 0 <= i < n ensures read(es[i]) == Success(xs[i]) {
        assert read(es[..n][i]) == Success(xs[..n][i]);
      }
    }
  }

  lemma {:induction false} AllAreRead(es: seq<string>, read: string -> Result<Address>, xs: seq<Address>)
    ensures ReadAll(es, read) == Success(xs) <==> EachRead(es, read, xs)
    decreases |es|
  {
    if es != [] {
      ReadLast(es, read, xs);
      if |xs| == |es| {
        AllAreRead(es[..|es| - 1], read, xs[..|es| - 1]);
        EachReadLast(es, read, xs);
        hide ReadAll, EachRead;
      }
    }
  }

  /** A header line stands for a chain exactly when it respects both limits, splits into elements, and
      each element stands for the address at its place. */
  lemma ChainMeetsItsDescription(header: string, maxLength: int, maxHops: int, read: string -> Result<Address>,
        xs: seq<Address>)
    ensures Chain(header, maxLength, maxHops, read) == Success(xs) <==>
              && !Blank(header) && |header| <= maxLength && Elements(header).Success?
              && var es := Elements(header).value;
                 1 <= |es| <= maxHops && |xs| == |es| && forall i :: 0 <= i < |es| ==> read(es[i]) == Success(xs[i])
  {
    hide Blank, Elements, ReadAll;
    if Elements(header).Success? {
      AllAreRead(Elements(header).value, read, xs);
    }
  }

  // ---------------------------------------------------------------- which node identifiers are read

  /** What may follow the closing bracket: nothing, or a colon and a port. */
  ghost predicate PortSuffix(s: string) {
    s == "" || exists port: nat :: 1 <= port <= 65535 && s == ":" + Decimal(port)
  }

  /** The host part h of a node identifier says literal v: bare, or in brackets with or without a port. */
  ghost predicate Says(h: string, v: string) {
    || (h == v && '[' !in v && ']' !in v && ':' !in v)
    || (v != "" && ']' !in v && |h| >= |v| + 2 && h[..|v| + 2] == "[" + v + "]" && PortSuffix(h[|v| + 2..]))
  }

  /** validPort accepts exactly the decimal prints of 1 to 65535. */
  lemma PortsAreDecimals(port: string, jdk: Jdk)
    requires ReadsDigits(jdk.digit)
    ensures ValidPort(port, jdk) <==> exists n: nat :: 1 <= n <= 65535 && port == Decimal(n)
  {
    if n: nat :| 1 <= n <= 65535 && port == Decimal(n) {
      ParseIntOfDecimal(n, jdk.digit);
    }
    if ValidPort(port, jdk) {
      var n: nat := ParseInt(port, jdk.digit).value;
      assert 1 <= n <= 65535 && port == Decimal(n);
    }
  }

  lemma SuffixesArePorts(s: string, jdk: Jdk)
    requires ReadsDigits(jdk.digit)
    ensures s == "" || (s[0] == ':' && ValidPort(s[1..], jdk)) <==> PortSuffix(s)
  {
    hide ValidPort, Decimal;
    if s != "" {
      PortsAreDecimals(s[1..], jdk);
      if s[0] == ':' && ValidPort(s[1..], jdk) {
        var n: nat :| 1 <= n <= 65535 && s[1..] == Decimal(n);
        assert s == ":" + Decimal(n);
      }
      if PortSuffix(s) {
        var n: nat :| 1 <= n <= 65535 && s == ":" + Decimal(n);
        assert s[1..] == Decimal(n);
        assert ValidPort(s[1..], jdk);
        assert s[0] == ':';
      }
    }
  }

  lemma {:induction false} FirstIndex(s: string, c: char, i: nat)
    requires i < |s| && s[i] == c && c !in s[..i]
    ensures IndexOf(s, c) == i
  {
  }

  lemma HostsSayLiterals(h: string, v: string, jdk: Jdk)
    requires ReadsDigits(jdk.digit)
    ensures HostLiteral(h, jdk) == Success(v) <==> Says(h, v)
  {
    hide ValidPort, PortSuffix, IndexOf;
    if "[" <= h {
      assert h[0] == '[';
      var close := IndexOf(h, ']');
      if close >= 2 {
        SuffixesArePorts(h[close + 1..], jdk);
        assert h[..close + 1] == "[" + h[1..close] + "]";
        assert ']' !in h[1..close] by {
          assert forall i :: 1 <= i < close ==> h[i] == h[..close][i];
        }
      }
      if v != "" && ']' !in v && |h| >= |v| + 2 && h[..|v| + 2] == "[" + v + "]" {
        assert h[|v| + 1] == h[..|v| + 2][|v| + 1] == ']';
        assert h[..|v| + 1] == h[..|v| + 2][..|v| + 1] == "[" + v;
        FirstIndex(h, ']', |v| + 1);
        assert h[1..|v| + 1] == h[..|v| + 1][1..] == v;
      }
    }
  }

  /** A node identifier is read as literal v exactly when it says v, bare or in one pair of double
      quotes, and is neither "unknown" nor obfuscated nor escaped. */
  lemma NodesSayLiterals(raw: string, v: string, jdk: Jdk)
    requires ReadsDigits(jdk.digit)
    ensures ForLiteral(raw, jdk) == Success(v) <==>
              && '\\' !in raw && Lower(raw) != "unknown" && !("_" <= raw)
              && (if Quoted(raw) then |raw| >= 2 && raw[0] == raw[|raw| - 1] == '"' && Says(raw[1..|raw| - 1], v)
                  else Says(raw, v))
  {
    hide Says, HostLiteral;
    HostsSayLiterals(raw, v, jdk);
    if |raw| >= 2 {
      HostsSayLiterals(raw[1..|raw| - 1], v, jdk);
    }
  }

  // ---------------------------------------------------------------- printing a chain and reading it back

  datatype Hop = Ipv4(bytes: seq<bv8>) | Ipv6(literal: string) | Ipv6WithPort(literal: string, port: nat)

  function LiteralOf(hop: Hop): string {
    match hop
    case Ipv4(b) => Dotted(b)
    case Ipv6(l) => l
    case Ipv6WithPort(l, _) => l
  }

  function PortOf(hop: Hop): string { if hop.Ipv6WithPort? then ":" + Decimal(hop.port) else "" }

  /** The text of a node identifier between its quotes, if any. */
  function HostOf(hop: Hop): string {
    if hop.Ipv4? then Dotted(hop.bytes) else "[" + hop.literal + "]" + PortOf(hop)
  }

  /** Sections 4 and 6 of RFC 7239: an IPv6 address is bracketed and quoted, its port optional. */
  function NodeOf(hop: Hop): string {
    if hop.Ipv4? then HostOf(hop) else "\"" + HostOf(hop) + "\""
  }

  function Rendered(hop: Hop): string { "for=" + NodeOf(hop) }

  ghost predicate Readable(hop: Hop, jdk: Jdk) {
    && ParseLiteral(Some(LiteralOf(hop)), jdk).Success?
    && (if hop.Ipv4? then |hop.bytes| == 4 else Ipv6Literal(hop.literal))
    && (hop.Ipv6WithPort? ==> 1 <= hop.port <= 65535)
  }

  // ---- the comma list

  predicate Plain(s: string) { '"' !in s && ',' !in s }

  lemma {:induction false} PlainText(s: string, open: bool)
    requires Plain(s)
    ensures Uncut(s, ',', true, open) && OpenAfter(s, true, open) == open
  {
    if s != "" {
      assert s[0] in s && forall c <- s[1..] :: c in s;
      PlainText(s[1..], open);
    }
  }

  lemma PlainIsWhole(s: string)
    requires Plain(s)
    ensures Whole(s, ',', true)
  {
    PlainText(s, false);
  }

  lemma QuotedIsWhole(before: string, inner: string)
    requires Plain(before) && Plain(inner)
    ensures Whole(before + "\"" + inner + "\"", ',', true)
  {
    var quote := "\"";
    assert quote[1..] == "";
    assert OpenAfter(quote, true, false) && !OpenAfter(quote, true, true);
    assert Uncut(quote, ',', true, false) && Uncut(quote, ',', true, true);
    PlainText(before, false);
    PlainText(inner, true);
    hide Uncut, OpenAfter;
    OpenAfterBoth(before, quote, true, false);
    UncutBoth(before, quote, ',', true, false);
    OpenAfterBoth(before + quote, inner, true, false);
    UncutBoth(before + quote, inner, ',', true, false);
    OpenAfterBoth(before + quote + inner, quote, true, false);
    UncutBoth(before + quote + inner, quote, ',', true, false);
  }

  /** An element that a list can hold and give back unchanged. */
  ghost predicate Listable(p: string) {
    p != "" && Trimmed(p) && !Blank(p) && '\\' !in p && Whole(p, ',', true)
  }

  /** The pieces of a list joined with a comma and a space. */
  function Spaced(ps: seq<string>): (r: seq<string>)
    ensures |r| == |ps|
  {
    seq(|ps|, i requires 0 <= i < |ps| => if i == 0 then ps[0] else " " + ps[i])
  }

  lemma {:induction false} JoinOfSpaced(ps: seq<string>)
    requires |ps| >= 1
    ensures Join(ps, ", ") == Join(Spaced(ps), ",")
  {
    if |ps| > 1 {
      JoinOfSpaced(ps[1..]);
      var rest := Spaced(ps[1..]);
      JoinOfLonger(' ', rest, ',');
      assert Longer(' ', rest) == Spaced(ps)[1..];
      assert Join(ps, ", ") == ps[0] + ", " + Join(ps[1..], ", ");
    }
  }

  lemma SpacedIsWhole(p: string)
    requires Listable(p)
    ensures Whole(" " + p, ',', true) && Trim(" " + p) == p && !Blank(" " + p) && Trim(p) == p
  {
    var space := " ";
    assert space[1..] == "";
    assert Uncut(space, ',', true, false) && !OpenAfter(space, true, false);
    OpenAfterBoth(space, p, true, false);
    UncutBoth(space, p, ',', true, false);
    TrimUnpads(space, p, "");
    TrimUnpads("", p, "");
    assert space + p + "" == space + p && "" + p + "" == p;
    var i :| 0 <= i < |p| && !WhiteSpace(p[i]);
    assert (space + p)[i + 1] == p[i];
  }

  lemma {:induction false} JoinIsClosed(ps: seq<string>)
    requires forall p <- ps :: Whole(p, ',', true) && '\\' !in p
    ensures !OpenAfter(Join(ps, ","), true, false) && '\\' !in Join(ps, ",")
  {
    if |ps| == 1 {
      assert ps[0] in ps;
    } else if ps != [] {
      JoinIsClosed(ps[1..]);
      var comma := ",";
      assert comma[1..] == "" && ps[0] in ps;
      assert !OpenAfter(comma, true, false);
      OpenAfterBoth(ps[0] + comma, Join(ps[1..], ","), true, false);
      OpenAfterBoth(ps[0], comma, true, false);
    }
  }

  /** Listable elements joined with a comma and a space are the elements of the line. */
  lemma ElementsOfList(ps: seq<string>)
    requires |ps| >= 1 && forall p <- ps :: Listable(p)
    ensures Elements(Join(ps, ", ")) == Success(ps) && !Blank(Join(ps, ", "))
  {
    hide Listable, Whole, Blank, Pieces, OpenAfter, Trim, Trimmed, Join;
    var list := Spaced(ps);
    forall i | 0 <= i < |ps|
      ensures Whole(list[i], ',', true) && '\\' !in list[i] && Trim(list[i]) == ps[i] && !Blank(list[i])
    {
      assert Listable(ps[i]);
      SpacedIsWhole(ps[i]);
      ListableHasNoEscape(ps[i]);
    }
    JoinOfSpaced(ps);
    JoinIsClosed(list);
    PiecesOfJoin(list, ',', true);
    assert TrimAll(list) == ps;
    ElementsAreSome(Join(ps, ", "));
  }

  lemma ListableHasNoEscape(p: string)
    requires Listable(p)
    ensures '\\' !in p && '\\' !in " " + p && Whole(p, ',', true) && !Blank(p)
  {
  }

  // ---- the rendered hops

  predicate NodeChar(c: char) { Ipv6Char(c) || c == '[' || c == ']' }

  predicate NodeText(s: string) { forall i :: 0 <= i < |s| ==> NodeChar(s[i]) }

  lemma TextOfNode(s: string)
    requires NodeText(s)
    ensures Plain(s) && ';' !in s && '=' !in s && '\\' !in s
    ensures s != "" ==> s[0] > ' ' && s[|s| - 1] > ' ' && !WhiteSpace(s[0]) && s[0] != '"' && s[|s| - 1] != '"'
    ensures s != "" ==> s[0] != 'u' && s[0] != 'U' && s[0] != '_'
  {
  }

  lemma HostIsText(hop: Hop, jdk: Jdk)
    requires Readable(hop, jdk)
    ensures NodeText(HostOf(hop)) && HostOf(hop) != "" && Says(HostOf(hop), LiteralOf(hop))
  {
    hide ParseLiteral, Says, NodeText;
    if hop.Ipv4? {
      DottedIsNodeText(hop.bytes);
      Bare(Dotted(hop.bytes));
    } else {
      PortIsText(hop);
      Bracketed(hop.literal, PortOf(hop));
    }
  }

  lemma PortIsText(hop: Hop)
    requires hop.Ipv6WithPort? ==> 1 <= hop.port <= 65535
    ensures NodeText(PortOf(hop)) && PortSuffix(PortOf(hop))
  {
    if hop.Ipv6WithPort? {
      DecimalIsCanonical(hop.port);
    }
  }

  lemma Bare(s: string)
    requires '[' !in s && ']' !in s && ':' !in s
    ensures Says(s, s)
  {
  }

  lemma Bracketed(l: string, suffix: string)
    requires Ipv6Literal(l) && NodeText(suffix) && PortSuffix(suffix)
    ensures NodeText("[" + l + "]" + suffix) && Says("[" + l + "]" + suffix, l)
  {
  }

  lemma DottedIsNodeText(b: seq<bv8>)
    requires |b| > 0
    ensures NodeText(Dotted(b)) && Dotted(b) != ""
    ensures '[' !in Dotted(b) && ']' !in Dotted(b) && ':' !in Dotted(b)
  {
    var texts := seq(|b|, i requires 0 <= i < |b| => Decimal(b[i] as nat));
    forall p | p in texts ensures Canonical(p) {
      var i :| 0 <= i < |b| && p == Decimal(b[i] as nat);
      DecimalIsCanonical(b[i] as nat);
    }
    JoinedDigits(texts);
  }

  lemma NodeIsRead(hop: Hop, jdk: Jdk)
    requires ReadsDigits(jdk.digit) && Readable(hop, jdk)
    ensures ForLiteral(NodeOf(hop), jdk) == Success(LiteralOf(hop))
    ensures Sturdy(NodeOf(hop)) && Whole("for=" + NodeOf(hop), ',', true)
  {
    hide Says, ForLiteral, Readable, HostOf, LiteralOf, NodeText, Whole, Sturdy, Quoted, Lower, Plain;
    var host := HostOf(hop);
    HostIsText(hop, jdk);
    TextOfNode(host);
    if hop.Ipv4? {
      BareNode(host);
    } else {
      QuotedNode(host);
    }
    NodesSayLiterals(NodeOf(hop), LiteralOf(hop), jdk);
    NodeIsWhole(hop, host);
  }

  /** What keeps a text from being "unknown" or obfuscated. */
  lemma Unmistakable(node: string)
    requires node != "" && node[0] != 'u' && node[0] != 'U' && node[0] != '_'
    ensures Lower(node) != "unknown" && !("_" <= node)
  {
    assert Lower(node)[0] != 'u';
  }

  lemma BareNode(host: string)
    requires host != "" && NodeText(host)
    ensures Lower(host) != "unknown" && !("_" <= host) && '\\' !in host && !Quoted(host) && Sturdy(host)
  {
    TextOfNode(host);
    Unmistakable(host);
    hide Lower;
  }

  lemma QuotedNode(host: string)
    requires host != "" && NodeText(host)
    ensures var node := "\"" + host + "\"";
            && Lower(node) != "unknown" && !("_" <= node) && '\\' !in node && Quoted(node) && Sturdy(node)
            && |node| >= 2 && node[0] == node[|node| - 1] == '"' && node[1..|node| - 1] == host
  {
    TextOfNode(host);
    Unmistakable("\"" + host + "\"");
    hide Lower;
  }

  lemma NodeIsWhole(hop: Hop, host: string)
    requires host == HostOf(hop) && Plain(host)
    ensures Whole("for=" + NodeOf(hop), ',', true)
  {
    hide Whole, HostOf;
    if hop.Ipv4? {
      PlainIsWhole("for=" + host);
    } else {
      QuotedIsWhole("for=", host);
      assert "for=" + NodeOf(hop) == "for=" + "\"" + host + "\"";
    }
  }

  /** Neither trimmed away nor cut inside a parameter. */
  predicate Sturdy(node: string) {
    node != "" && node[0] > ' ' && node[|node| - 1] > ' ' && !WhiteSpace(node[0]) && ';' !in node && '\\' !in node
  }

  lemma AlreadyTrimmed(s: string)
    requires Trimmed(s)
    ensures Trim(s) == s
  {
  }

  /** A parameter for=node is read as the name "for" and that node. */
  lemma ForParameterIsRead(node: string)
    requires Sturdy(node)
    ensures var p := ReadParameter("for=" + node); p.Some? && NamesFor(p.value) && Trim(p.value.value) == node
    ensures Trimmed("for=" + node) && !Blank("for=" + node)
  {
    var t, name := "for=" + node, "for";
    assert Lower(name) == name && !WhiteSpace(name[0]) && !WhiteSpace(t[0]);
    NotBlank(name);
    NotBlank(node);
    NotBlank(t);
    hide WhiteSpace, Blank, Trim, Lower, IndexOf;
    AlreadyTrimmed(t);
    AlreadyTrimmed(node);
    AlreadyTrimmed(name);
    FirstIndex(t, '=', 3);
    assert t[..3] == name && t[4..] == node;
  }

  lemma RenderedIsRead(hop: Hop, jdk: Jdk)
    requires ReadsDigits(jdk.digit) && Readable(hop, jdk)
    ensures ElementAddress(Rendered(hop), jdk) == ParseLiteral(Some(LiteralOf(hop)), jdk)
    ensures Listable(Rendered(hop))
  {
    hide ForLiteral, Readable, NodeOf, LiteralOf, ReadParameter, NamesFor, Whole, ParseLiteral, ElementAddress;
    NodeIsRead(hop, jdk);
    ForParameterIsRead(NodeOf(hop));
    OneParameter("for=" + NodeOf(hop), NodeOf(hop), jdk);
  }

  lemma OneParameter(element: string, node: string, jdk: Jdk)
    requires ';' !in element
    requires var p := ReadParameter(element); p.Some? && NamesFor(p.value) && Trim(p.value.value) == node
    ensures ElementAddress(element, jdk) == match ForLiteral(node, jdk)
                                            case Failure => Failure
                                            case Success(literal) => ParseLiteral(Some(literal), jdk)
  {
    NoSeparatorIsUncut(element, ';');
    UncutIsOnePiece(element, ';', false, false);
    assert [element][..0] == [];
    hide ForLiteral, ReadParameter, NamesFor, Pieces, Trim, ParseLiteral;
    assert ForValues([element]) == [node];
  }

  /** The header that carries the hops. */
  function Header(hops: seq<Hop>): string {
    Join(seq(|hops|, i requires 0 <= i < |hops| => Rendered(hops[i])), ", ")
  }

  function AddressOf(literal: string, jdk: Jdk): Address {
    match ParseLiteral(Some(literal), jdk)
    case Success(a) => a
    case Failure => Address([])
  }

  function AddressesOf(hops: seq<Hop>, jdk: Jdk): seq<Address> {
    seq(|hops|, i requires 0 <= i < |hops| => AddressOf(LiteralOf(hops[i]), jdk))
  }

  /** Every list of hops, rendered as RFC 7239 writes it, is read back as exactly its addresses in
      order, without the ports, as long as it respects the two limits; beyond them it is refused. */
  lemma ForwardedRoundTrip(hops: seq<Hop>, maxLength: int, maxHops: int, jdk: Jdk)
    requires ReadsDigits(jdk.digit) && hops != [] && forall hop <- hops :: Readable(hop, jdk)
    ensures Elements(Header(hops)).Success?
    ensures Chain(Header(hops), maxLength, maxHops, Forwarded(jdk))
              == if |Header(hops)| <= maxLength && |hops| <= maxHops then
                   Success(AddressesOf(hops, jdk))
                 else Failure
  {
    hide Rendered, LiteralOf, ParseLiteral, Listable, Blank, Elements, Join;
    var es := seq(|hops|, i requires 0 <= i < |hops| => Rendered(hops[i]));
    forall i | 0 <= i < |hops|
      ensures Listable(es[i]) && Forwarded(jdk)(es[i]) == ParseLiteral(Some(LiteralOf(hops[i])), jdk)
      ensures ParseLiteral(Some(LiteralOf(hops[i])), jdk).Success?
    {
      assert Readable(hops[i], jdk);
      RenderedIsRead(hops[i], jdk);
    }
    ElementsOfList(es);
    ReadEach(es, Forwarded(jdk), AddressesOf(hops, jdk));
  }

  lemma {:induction false} ReadEach(es: seq<string>, read: string -> Result<Address>, xs: seq<Address>)
    requires |xs| == |es| && forall i :: 0 <= i < |es| ==> read(es[i]) == Success(xs[i])
    ensures ReadAll(es, read) == Success(xs)
  {
    if es != [] {
      ReadEach(es[..|es| - 1], read, xs[..|xs| - 1]);
      assert xs == xs[..|xs| - 1] + [xs[|xs| - 1]];
    }
  }

  /** The same for bare literals in X-Forwarded-For. */
  lemma XForwardedForRoundTrip(literals: seq<string>, maxLength: int, maxHops: int, jdk: Jdk)
    requires literals != []
    requires forall l <- literals :: ParseLiteral(Some(l), jdk).Success? && l != ""
                                     && forall i :: 0 <= i < |l| ==> Ipv6Char(l[i])
    ensures Elements(Join(literals, ", ")).Success?
    ensures Chain(Join(literals, ", "), maxLength, maxHops, XForwardedFor(jdk))
              == if |Join(literals, ", ")| <= maxLength && |literals| <= maxHops then
                   Success(seq(|literals|, i requires 0 <= i < |literals| => AddressOf(literals[i], jdk)))
                 else Failure
  {
    hide ParseLiteral, Blank, Elements, Join, Uncut, OpenAfter;
    forall i | 0 <= i < |literals|
      ensures Listable(literals[i]) && XForwardedFor(jdk)(literals[i]) == ParseLiteral(Some(literals[i]), jdk)
    {
      var l := literals[i];
      assert l in literals;
      assert NodeText(l);
      TextOfNode(l);
      PlainIsWhole(l);
      NotBlank(l);
    }
    ElementsOfList(literals);
    ReadEach(literals, XForwardedFor(jdk),
        seq(|literals|, i requires 0 <= i < |literals| => AddressOf(literals[i], jdk)));
  }

  /** Whatever is accepted as a literal is written with digits, dots, colons and letters up to f. */
  lemma LiteralsArePlain(l: string, jdk: Jdk)
    requires ReadsDigits(jdk.digit) && ParseLiteral(Some(l), jdk).Success?
    ensures l != "" && forall i :: 0 <= i < |l| ==> Ipv6Char(l[i])
  {
    if Ipv4Literal(l, jdk) {
      Ipv4LiteralsAreDotted(l, Ipv4Bytes(l, jdk), jdk);
      DottedIsNodeText(Ipv4Bytes(l, jdk));
    }
  }

  lemma NotBlank(s: string)
    requires s != "" && !WhiteSpace(s[0])
    ensures !Blank(s)
  {
  }
}
