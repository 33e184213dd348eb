/** Decision tables: what each request is told and which rows it leaves, in terms of the stored rows
    alone, without the indexes, counters and constructors the code works with. */
module Replies {
  import opened Wrappers
  import opened Text
  import opened CouponDomain
  import opened Database
  import opened Protocol
  import opened ProtocolInvariant
  import opened SerialEquivalence
  import opened Outcomes
  import opened ExactOutcomes

  // ---------------------------------------------------------------- which commands are well formed

  predicate CodeText(s: string) {
    3 <= |s| <= 64
    && forall i :: 0 <= i < |s| ==>
         'A' <= s[i] <= 'Z' || 'a' <= s[i] <= 'z' || '0' <= s[i] <= '9' || s[i] == '_' || s[i] == '-'
  }

  /** Visible ASCII, at most 128 characters of it. */
  predicate UserText(s: string) {
    1 <= |s| <= 128 && forall i :: 0 <= i < |s| ==> 0x21 as char <= s[i] <= 0x7e as char
  }

  predicate WellFormedCommand(q: Request) {
    match q
    case Redeem(code, user, _, _, _) => CodeText(Trim(code)) && UserText(user)
    case Create(code, maxUses, country, _, _) =>
      && CodeText(Trim(code)) && 1 <= maxUses <= 1_000_000
      && exists c <- ISO_COUNTRIES :: SameLetters(c, Trim(country))
  }

  lemma ValidMeansWellFormed(q: Request)
    ensures Valid(q) <==> WellFormedCommand(q)
  {
    hide Trim, Upper, SameLetters;
    if q.Create? {
      ListedCountriesAreNamed(q.country);
    }
  }

  // ---------------------------------------------------------------- what a request is told

  /** The coupon a raw code stands for, case and padding aside. */
  predicate Denotes(t: Tables, code: string, c: Uuid) {
    c in t.coupons && SameLetters(t.coupons[c].code, Trim(code))
  }

  ghost predicate RedeemedBy(t: Tables, c: Uuid, user: string) {
    exists id <- t.redemptions :: t.redemptions[id].couponId == c && t.redemptions[id].userId == user
  }

  /** The row stores what the command asked for. */
  ghost predicate AsAsked(row: CouponRow, q: Request)
    requires q.Create?
  {
    && row.id == q.id && row.createdAt == q.at && row.maxUses == q.maxUses
    && row.code == Trim(q.code) && SameLetters(row.normalizedCode, row.code) && CanonicalCodeFormat(row.normalizedCode)
    && row.countryCode in ISO_COUNTRIES && SameLetters(row.countryCode, Trim(q.country))
  }

  ghost predicate RedemptionAnswer(t: Tables, q: Request, c: Uuid, o: Outcome)
    requires q.Redeem? && c in t.coupons
  {
    var row, used := t.coupons[c], |RedemptionsOf(t, c)|;
    if row.countryCode !in ISO_COUNTRIES then o == InternalError
    else if q.geo.Unresolved? then o == GeolocationUnavailable
    else if row.countryCode != q.geo.country then o == CountryNotAllowed
    else if RedeemedBy(t, c, q.user) then o == AlreadyRedeemed
    else if used >= row.maxUses then o == Exhausted
    else if q.id in t.redemptions then o == InternalError
    else o == Redeemed(q.id, row.code, q.user, q.at, row.maxUses - used - 1)
  }

  /** The decision table, for the rows a request finds. */
  ghost predicate Answers(t: Tables, q: Request, o: Outcome) {
    if !WellFormedCommand(q) then o == InvalidRequest
    else if q.Redeem? then
      && ((forall c :: !Denotes(t, q.code, c)) ==> o == NotFound)
      && (forall c :: Denotes(t, q.code, c) ==> RedemptionAnswer(t, q, c, o))
    else if q.id in t.coupons || exists c :: Denotes(t, q.code, c) then o == CodeConflict
    else o.Created? && AsAsked(o.coupon, q) && o.coupon.currentUses == 0
  }

  /** Looking a code up in the index is looking for a row with the same letters. */
  lemma LookupIsDenotation(t: Tables, code: string, c: Uuid)
    requires LegalCoupons(t)
    ensures Denotes(t, code, c) <==>
              FindCoupon(t, CanonicalCode(code)).Some? && FindCoupon(t, CanonicalCode(code)).value.id == c
    ensures Denotes(t, code, c) ==>
              FindCoupon(t, CanonicalCode(code)).value == t.coupons[c] && CanonicalCode(code) in t.couponByCode
    ensures FindCoupon(t, CanonicalCode(code)).Some? <==> CanonicalCode(code) in t.couponByCode
  {
    hide Trim, Upper, SameLetters;
    if c in t.coupons {
      UpperTellsLetters(t.coupons[c].code, Trim(code));
    }
  }

  lemma PairsAreRows(t: Tables, c: Uuid, user: string)
    requires LegalRedemptions(t)
    ensures HasRedeemed(t, c, user) <==> RedeemedBy(t, c, user)
  {
  }

  lemma CountedUses(t: Tables, c: Uuid)
    requires Consistent(t) && c in t.coupons
    ensures t.coupons[c].currentUses == |RedemptionsOf(t, c)|
  {
  }

  lemma FoundAnswers(t: Tables, q: Request, c: Uuid)
    requires Legal(t) && Consistent(t) && q.Redeem? && Valid(q) && Denotes(t, q.code, c)
    ensures RedemptionAnswer(t, q, c, Serial(t, q).1)
  {
    hide Legal, Consistent, Valid, Readable, FindCoupon, HasRedeemed, RedeemedBy, RedemptionsOf, SameLetters, Key;
    WhatIsFound(t, q, c);
  }

  lemma WhatIsFound(t: Tables, q: Request, c: Uuid)
    requires Legal(t) && Consistent(t) && q.Redeem? && Denotes(t, q.code, c)
    ensures FindCoupon(t, Key(q)) == Some(t.coupons[c]) && t.coupons[c].id == c
    ensures Readable(t.coupons[c]) <==> t.coupons[c].countryCode in ISO_COUNTRIES
    ensures t.coupons[c].currentUses == |RedemptionsOf(t, c)|
    ensures HasRedeemed(t, c, q.user) <==> RedeemedBy(t, c, q.user)
  {
    hide SameLetters, Trim, Consistent, Readable, RedemptionsOf;
    LookupIsDenotation(t, q.code, c);
    FoundUnderKey(t, Key(q));
    ReadableMeansListed(t.coupons[c]);
    CountedUses(t, c);
    PairsAreRows(t, c, q.user);
  }

  lemma NewCouponIsAsAsked(q: Request)
    requires q.Create? && Valid(q)
    ensures AsAsked(NewCoupon(q), q) && NewCoupon(q).currentUses == 0
  {
    hide Trim, Upper, SameLetters, CodeFormat, CanonicalCodeFormat;
    UpperTellsLetters(Trim(q.code), Trim(q.code));
    UpperIsCanonical(Trim(q.code));
    ListedCountriesAreNamed(q.country);
  }

  lemma CreationAnswers(t: Tables, q: Request)
    requires Legal(t) && q.Create? && Valid(q)
    ensures if q.id in t.coupons || exists c :: Denotes(t, q.code, c) then Serial(t, q).1 == CodeConflict
            else Serial(t, q).1 == Created(NewCoupon(q))
  {
    hide Trim, Upper, SameLetters, Denotes;
    if Key(q) in t.couponByCode {
      LookupIsDenotation(t, q.code, t.couponByCode[Key(q)]);
    }
    if c :| Denotes(t, q.code, c) {
      LookupIsDenotation(t, q.code, c);
    }
  }

  /** Every request that runs alone on a legal database is told what the table says. */
  lemma SerialAnswers(t: Tables, q: Request)
    requires Legal(t) && Consistent(t)
    ensures Answers(t, q, Serial(t, q).1)
  {
    ValidMeansWellFormed(q);
    hide Legal, Consistent, SameLetters, Trim, WellFormedCommand, AsAsked, RedemptionAnswer;
    if Valid(q) && q.Create? {
      CreationAnswers(t, q);
      NewCouponIsAsAsked(q);
    } else if Valid(q) {
      forall c | Denotes(t, q.code, c) ensures RedemptionAnswer(t, q, c, Serial(t, q).1) {
        FoundAnswers(t, q, c);
      }
      if forall c :: !Denotes(t, q.code, c) {
        NobodyIsNotFound(t, q);
      }
    }
  }

  lemma NobodyIsNotFound(t: Tables, q: Request)
    requires Legal(t) && q.Redeem? && Valid(q) && forall c :: !Denotes(t, q.code, c)
    ensures Serial(t, q).1 == NotFound
  {
    hide Denotes, Valid;
    if Key(q) in t.couponByCode {
      LookupIsDenotation(t, q.code, t.couponByCode[Key(q)]);
    }
  }

  /** In every reachable state, each settled request has the reply the table gives for the rows its
      place in the serial order finds, or an internal error if it did not leave the database normally. */
  lemma RepliesOfARun(s0: State, moves: seq<Move>, s: State, i: nat) returns (k: nat)
    requires Initial(s0) && Run(s0, moves) == Some(s)
    requires s.WellFormed() && i < |s.procs| && Settled(s.procs[i].phase)
    ensures k < |s.log| && s.log[k].who == i
    ensures var t, reply := Replay(s0.tables, s.requests, s.log[..k]), s.procs[i].phase.reply;
            if s.log[k].how.Normal? then Answers(t, s.requests[i], reply) else reply == InternalError
  {
    hide Legal, Consistent, Answers, Serial;
    k := AnswerIsLogged(s0, moves, s, i);
    ReplayKeeps(s0.tables, s.requests, s.log[..k]);
    SerialAnswers(Replay(s0.tables, s.requests, s.log[..k]), s.requests[i]);
  }
}
