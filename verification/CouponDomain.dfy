/** Validated values of the coupon domain: coupon codes, user identities and countries. */
module CouponDomain {
  import opened Text

  const MAX_USES_LIMIT := 1_000_000

  predicate Letter(c: char) { 'a' <= c <= 'z' || 'A' <= c <= 'Z' }

  predicate UpperLetter(c: char) { 'A' <= c <= 'Z' }

  predicate CodeChar(c: char) { Letter(c) || AsciiDigit(c) || c == '_' || c == '-' }

  predicate UpperCodeChar(c: char) { UpperLetter(c) || AsciiDigit(c) || c == '_' || c == '-' }

  /** [A-Za-z0-9_-]{3,64} */
  predicate CodeFormat(s: string) {
    3 <= |s| <= 64 && forall i :: 0 <= i < |s| ==> CodeChar(s[i])
  }

  /** [A-Z0-9_-]{3,64} */
  predicate CanonicalCodeFormat(s: string) {
    3 <= |s| <= 64 && forall i :: 0 <= i < |s| ==> UpperCodeChar(s[i])
  }

  /** [!-~]{1,128} */
  predicate UserIdFormat(s: string) {
    1 <= |s| <= 128 && forall i :: 0 <= i < |s| ==> '!' <= s[i] <= '~'
  }

  /** [A-Z]{2}, all that the database demands of a country. */
  predicate CountryFormat(s: string) {
    |s| == 2 && UpperLetter(s[0]) && UpperLetter(s[1])
  }

  /** Locale.getISOCountries: some fixed set of two-letter codes. ISO 3166-1 assigns PL, and reserves
      ZZ for its users for good. */
  type CountryList = s: set<string> | (forall c <- s :: CountryFormat(c)) && "PL" in s && "ZZ" !in s
    witness {"PL"}

  const ISO_COUNTRIES: CountryList

  /** A value of class CountryCode. */
  type Country = s: string | s in ISO_COUNTRIES witness "PL"

  /** What CountryCode.of accepts. */
  predicate NamesCountry(raw: string) { Upper(Trim(raw)) in ISO_COUNTRIES }

  /** The uniqueness and lookup key of a raw code. */
  function CanonicalCode(raw: string): string {
    Upper(Trim(raw))
  }

  /** Upper-casing a well-formed code lands in the alphabet the database CHECK demands. */
  lemma UpperIsCanonical(s: string)
    requires CodeFormat(s)
    ensures CanonicalCodeFormat(Upper(s))
  {
  }

  /** A well-formed code is its own trimmed form, so storing and reloading it changes nothing. */
  lemma WellFormedIsTrimmed(s: string)
    requires CodeFormat(s)
    ensures Trim(s) == s
  {
  }

  lemma ListedIsTrimmed(s: string)
    requires CountryFormat(s)
    ensures Trim(s) == s && Upper(s) == s
  {
  }

  /** Two codes have one key exactly when, padding aside, they differ in the case of letters only; and
      a code written in the alphabet of keys is its own key. */
  lemma KeysTellLetters(a: string, b: string)
    ensures CanonicalCode(a) == CanonicalCode(b) <==> SameLetters(Trim(a), Trim(b))
    ensures CodeFormat(a) && CodeFormat(b) ==> (CanonicalCode(a) == CanonicalCode(b) <==> SameLetters(a, b))
    ensures CanonicalCodeFormat(a) ==> CanonicalCode(a) == a
  {
    hide Trim, Upper, SameLetters;
    UpperTellsLetters(Trim(a), Trim(b));
    UpperTellsLetters(Trim(a), Trim(a));
    if CodeFormat(a) {
      WellFormedIsTrimmed(a);
      if CodeFormat(b) {
        WellFormedIsTrimmed(b);
      }
    }
    if CanonicalCodeFormat(a) {
      WellFormedIsTrimmed(a);
    }
  }

  /** A text names a country exactly when, padding and case aside, it is a code of the list. */
  lemma ListedCountriesAreNamed(raw: string)
    ensures NamesCountry(raw) <==> exists c <- ISO_COUNTRIES :: SameLetters(c, Trim(raw))
    ensures NamesCountry(raw) ==> SameLetters(Upper(Trim(raw)), Trim(raw))
  {
    hide Trim, SameLetters;
    UpperTellsLetters(Trim(raw), Trim(raw));
    if c :| c in ISO_COUNTRIES && SameLetters(c, Trim(raw)) {
      UpperTellsLetters(c, Trim(raw));
      ListedIsTrimmed(c);
    }
  }

  /** Padding a code with white space or changing the case of its letters never changes its key. */
  lemma VariantsShareTheKey(code: string, variant: string, before: string, after: string)
    requires CodeFormat(Trim(code)) && CodeFormat(variant)
    requires SameLetters(variant, Trim(code))
    requires Padding(before) && Padding(after)
    ensures CodeFormat(Trim(before + variant + after))
    ensures CanonicalCode(before + variant + after) == CanonicalCode(code)
  {
    TrimUnpads(before, variant, after);
    UpperTellsLetters(variant, Trim(code));
  }
}
