/** The elements of a Forwarded line, described by their parameters. */
module HeaderElements {
  import opened Wrappers
  import opened Text
  import opened Splitting
  import opened ClientIp
  import opened ForwardingHeaders

  /** The text is one name, an equals sign and a value, neither of them blank. */
  ghost predicate Pair(text: string, name: string, value: string) {
    Trim(text) == name + "=" + value && '=' !in name && !Blank(name) && !Blank(value)
  }

  ghost predicate IsPair(text: string) {
    exists name, value :: Pair(text, name, value)
  }

  lemma ParameterIsPair(text: string, name: string, value: string)
    ensures ReadParameter(text) == Some(Parameter(name, value)) <==> Pair(text, name, value)
  {
    hide Trim, Blank, IndexOf;
    var t := Trim(text);
    var i := IndexOf(t, '=');
    if i >= 0 {
      assert t == t[..i] + "=" + t[i + 1..];
    }
    if Pair(text, name, value) {
      assert t[|name|] == '=' && t[..|name|] == name && t[|name| + 1..] == value;
      FirstIndex(t, '=', |name|);
    }
  }

  lemma ReadableIsPair(text: string)
    ensures ReadParameter(text).Some? <==> IsPair(text)
  {
    hide ReadParameter, Pair;
    if ReadParameter(text).Some? {
      var p := ReadParameter(text).value;
      ParameterIsPair(text, p.name, p.value);
    }
    if name, value :| Pair(text, name, value) {
      ParameterIsPair(text, name, value);
    }
  }

  /** The parameter gives v for "for", in any spelling of the name. */
  ghost predicate GivesFor(text: string, v: string) {
    exists name, value :: Pair(text, name, value) && SameLetters(Trim(name), "for") && Trim(value) == v
  }

  lemma NamesForIsFor(p: Parameter)
    ensures NamesFor(p) <==> SameLetters(Trim(p.name), "for")
  {
    hide Trim, SameLetters, Lower;
    LowerTellsLetters(Trim(p.name), "for");
    LowerTellsLetters("for", "for");
  }

  lemma ForParameterGives(text: string, v: string)
    ensures GivesFor(text, v) <==>
              var p := ReadParameter(text); p.Some? && NamesFor(p.value) && Trim(p.value.value) == v
  {
    hide ReadParameter, NamesFor, Pair, Trim, SameLetters;
    var p := ReadParameter(text);
    if p.Some? {
      NamesForIsFor(p.value);
      ParameterIsPair(text, p.value.name, p.value.value);
    }
    if name, value :| Pair(text, name, value) && SameLetters(Trim(name), "for") && Trim(value) == v {
      ParameterIsPair(text, name, value);
    }
  }

  ghost predicate NoFor(texts: seq<string>) {
    forall i, v :: 0 <= i < |texts| ==> !GivesFor(texts[i], v)
  }

  /** Place k gives v, and no other place gives anything. */
  ghost predicate OnlyFor(texts: seq<string>, k: int, v: string) {
    && 0 <= k < |texts| && GivesFor(texts[k], v)
    && forall i, w :: 0 <= i < |texts| && i != k ==> !GivesFor(texts[i], w)
  }

  /** What the last parameter adds to the values given. */
  lemma LastValue(texts: seq<string>)
    requires texts != []
    ensures var before, last := ForValues(texts[..|texts| - 1]), texts[|texts| - 1];
            && (forall v :: GivesFor(last, v) ==> ForValues(texts) == before + [v])
            && ((forall v :: !GivesFor(last, v)) ==> ForValues(texts) == before)
  {
    hide ReadParameter, NamesFor, Trim, GivesFor;
    var last := texts[|texts| - 1];
    var p := ReadParameter(last);
    if p.Some? && NamesFor(p.value) {
      ForParameterGives(last, Trim(p.value.value));
    }
    forall v | GivesFor(last, v) ensures p.Some? && NamesFor(p.value) && Trim(p.value.value) == v {
      ForParameterGives(last, v);
    }
    assert ForValues(texts[..|texts| - 1]) + [] == ForValues(texts[..|texts| - 1]);
  }

  lemma NoForLast(texts: seq<string>)
    requires texts != []
    ensures var last := texts[|texts| - 1];
            NoFor(texts) <==> NoFor(texts[..|texts| - 1]) && forall v :: !GivesFor(last, v)
  {
    hide GivesFor;
    forall i | 0 <= i < |texts| - 1 ensures texts[..|texts| - 1][i] == texts[i] {}
  }

  lemma {:induction false} NothingGiven(texts: seq<string>)
    ensures ForValues(texts) == [] <==> NoFor(texts)
    decreases |texts|
  {
    if texts != [] {
      hide GivesFor, NoFor, ForValues;
      NothingGiven(texts[..|texts| - 1]);
      NoForLast(texts);
      LastValue(texts);
    }
  }

  lemma SingleSum(before: seq<string>, w: string, v: string)
    ensures before + [w] == [v] <==> before == [] && w == v
  {
    if before + [w] == [v] {
      assert |before + [w]| == 1 && (before + [w])[0] == v;
    }
  }

  lemma {:induction false} OneGiven(texts: seq<string>, v: string)
    ensures ForValues(texts) == [v] <==> exists k :: OnlyFor(texts, k, v)
    decreases |texts|
  {
    if texts != [] {
      hide GivesFor, NoFor, OnlyFor, ForValues;
      var init, last := texts[..|texts| - 1], texts[|texts| - 1];
      OneGiven(init, v);
      NothingGiven(init);
      LastGiven(texts, v);
      LastValue(texts);
      if w :| GivesFor(last, w) {
        GivenOnce(last, w, v);
        SingleSum(ForValues(init), w, v);
      }
    }
  }

  lemma GivenOnce(text: string, w: string, v: string)
    requires GivesFor(text, w)
    ensures GivesFor(text, v) <==> v == w
  {
    ForParameterGives(text, w);
    ForParameterGives(text, v);
    hide GivesFor, ReadParameter, NamesFor, Trim;
  }

  lemma LastGiven(texts: seq<string>, v: string)
    requires texts != []
    ensures (exists k :: OnlyFor(texts, k, v)) <==>
              var n := |texts| - 1;
              || (GivesFor(texts[n], v) && NoFor(texts[..n]))
              || ((forall w :: !GivesFor(texts[n], w)) && exists k :: OnlyFor(texts[..n], k, v))
  {
    hide GivesFor;
    var n := |texts| - 1;
    forall i | 0 <= i < n ensures texts[..n][i] == texts[i] {}
    if k :| OnlyFor(texts, k, v) {
      if k < n {
        assert OnlyFor(texts[..n], k, v);
      }
    }
    if GivesFor(texts[n], v) && NoFor(texts[..n]) {
      assert OnlyFor(texts, n, v);
    }
    if (forall w :: !GivesFor(texts[n], w)) && exists k :: OnlyFor(texts[..n], k, v) {
      var k :| OnlyFor(texts[..n], k, v);
      assert OnlyFor(texts, k, v);
    }
  }

  /** An element stands for an address exactly when all its parameters are name-value pairs, exactly
      one of them is a "for", and its value is a node identifier with that address. */
  lemma ElementMeetsItsDescription(element: string, jdk: Jdk, a: Address)
    ensures ElementAddress(element, jdk) == Success(a) <==>
              var texts := Split(element, ';');
              && (forall i :: 0 <= i < |texts| ==> IsPair(texts[i]))
              && exists k, v :: OnlyFor(texts, k, v) && NodeSays(v, jdk, a)
  {
    hide ReadParameter, ForLiteral, ParseLiteral, IsPair, OnlyFor, Split;
    var texts := Split(element, ';');
    forall i | 0 <= i < |texts| ensures ReadParameter(texts[i]).Some? <==> IsPair(texts[i]) {
      ReadableIsPair(texts[i]);
    }
    var values := ForValues(texts);
    hide ForValues;
    if |values| == 1 {
      assert values == [values[0]];
      OneGiven(texts, values[0]);
    }
    if k, v :| OnlyFor(texts, k, v) && NodeSays(v, jdk, a) {
      OneGiven(texts, v);
    }
  }

  ghost predicate NodeSays(v: string, jdk: Jdk, a: Address) {
    exists literal :: ForLiteral(v, jdk) == Success(literal) && ParseLiteral(Some(literal), jdk) == Success(a)
  }

  // ---------------------------------------------------------------- one parameter more

  lemma OnePieceMore(x: string, y: string)
    requires ';' !in y
    ensures Split(x + ";" + y, ';') == Split(x, ';') + [y]
  {
    NeverOpen(x);
    NoSeparatorIsUncut(y, ';');
    UncutIsOnePiece(y, ';', false, false);
    PiecesOfBoth(x, y, ';', false, false);
    assert x + [';'] + y == x + ";" + y;
  }

  /** A further parameter with another name changes nothing; one that is no pair, or a second "for",
      spoils the element. */
  lemma OneParameterMore(x: string, y: string, jdk: Jdk)
    requires ';' !in y
    ensures var longer := ElementAddress(x + ";" + y, jdk);
            && (!IsPair(y) ==> longer == Failure)
            && (IsPair(y) && (forall v :: !GivesFor(y, v)) ==> longer == ElementAddress(x, jdk))
            && ((exists v :: GivesFor(y, v)) && ElementAddress(x, jdk).Success? ==> longer == Failure)
  {
    hide ReadParameter, NamesFor, ForLiteral, ParseLiteral, IsPair, GivesFor, Split, Trim;
    OnePieceMore(x, y);
    var before, texts := Split(x, ';'), Split(x, ';') + [y];
    assert texts[..|texts| - 1] == before && texts[|before|] == y;
    ReadableIsPair(y);
    assert AllReadable(texts) <==> AllReadable(before) && ReadParameter(y).Some? by {
      forall i | 0 <= i < |before| ensures texts[i] == before[i] {}
    }
    var p := ReadParameter(y);
    if p.Some? && NamesFor(p.value) {
      ForParameterGives(y, Trim(p.value.value));
    } else {
      forall v ensures !GivesFor(y, v) {
        ForParameterGives(y, v);
      }
      assert ForValues(texts) == ForValues(before) + [] == ForValues(before);
    }
  }
}
