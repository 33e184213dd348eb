/** Which rows a run leaves: all as the constraints demand, and one redemption row for each request that
    took from a coupon, with the data of that request, and no other. */
module StoredRows {
  import opened Wrappers
  import opened Text
  import opened CouponDomain
  import opened Database
  import opened Protocol
  import opened ProtocolInvariant
  import opened SerialEquivalence
  import opened Outcomes
  import opened Accounting
  import opened Replies

  // ---------------------------------------------------------------- what the constraints demand

  predicate TwoCapitals(s: string) { |s| == 2 && 'A' <= s[0] <= 'Z' && 'A' <= s[1] <= 'Z' }

  predicate NoSmallLetter(s: string) { forall i :: 0 <= i < |s| ==> !('a' <= s[i] <= 'z') }

  predicate CouponRowHolds(r: CouponRow) {
    && 1 <= r.maxUses <= 1_000_000 && 0 <= r.currentUses <= r.maxUses && CodeText(r.code)
    && SameLetters(r.normalizedCode, r.code) && NoSmallLetter(r.normalizedCode) && TwoCapitals(r.countryCode)
  }

  predicate RedemptionRowHolds(r: RedemptionRow) { UserText(r.userId) && TwoCapitals(r.countryCode) }

  lemma CouponChecksAreExact(r: CouponRow)
    ensures LegalCoupon(r) <==> CouponRowHolds(r)
  {
    UpperTellsLetters(r.normalizedCode, r.code);
  }

  lemma RedemptionChecksAreExact(r: RedemptionRow)
    ensures LegalRedemption(r) <==> RedemptionRowHolds(r)
  {
  }

  /** In every reachable state, in words of the rows alone: every row passes its checks, refers to a
      coupon, and is kept under its key; no two coupons have codes with the same letters; nobody has two
      rows for one coupon; and every coupon counts its rows. */
  lemma ConstraintsOfARun(s0: State, moves: seq<Move>, s: State)
    requires Initial(s0) && Run(s0, moves) == Some(s)
    ensures forall c <- s.tables.coupons ::
              var row := s.tables.coupons[c];
              row.id == c && CouponRowHolds(row) && row.currentUses == |RedemptionsOf(s.tables, c)|
    ensures forall c, d | c in s.tables.coupons && d in s.tables.coupons ::
              SameLetters(s.tables.coupons[c].code, s.tables.coupons[d].code) ==> c == d
    ensures forall id <- s.tables.redemptions ::
              var row := s.tables.redemptions[id];
              row.id == id && RedemptionRowHolds(row) && row.couponId in s.tables.coupons
    ensures forall a, b | a in s.tables.redemptions && b in s.tables.redemptions ::
              var x, y := s.tables.redemptions[a], s.tables.redemptions[b];
              x.couponId == y.couponId && x.userId == y.userId ==> a == b
  {
    EveryRunKeepsInv(s0, moves, s);
    RowsInWords(s.tables);
  }

  lemma RowsInWords(t: Tables)
    requires Legal(t) && Consistent(t)
    ensures forall c <- t.coupons ::
              t.coupons[c].id == c && CouponRowHolds(t.coupons[c])
              && t.coupons[c].currentUses == |RedemptionsOf(t, c)|
    ensures forall c, d | c in t.coupons && d in t.coupons ::
              SameLetters(t.coupons[c].code, t.coupons[d].code) ==> c == d
    ensures forall id <- t.redemptions ::
              t.redemptions[id].id == id && RedemptionRowHolds(t.redemptions[id])
              && t.redemptions[id].couponId in t.coupons
    ensures forall a, b | a in t.redemptions && b in t.redemptions ::
              var x, y := t.redemptions[a], t.redemptions[b];
              x.couponId == y.couponId && x.userId == y.userId ==> a == b
  {
    hide CouponRowHolds, RedemptionRowHolds, SameLetters, CodeFormat, CanonicalCodeFormat, RedemptionsOf, Upper;
    forall id | id in t.redemptions ensures RedemptionRowHolds(t.redemptions[id]) {
      RedemptionChecksAreExact(t.redemptions[id]);
    }
    forall c | c in t.coupons ensures CouponRowHolds(t.coupons[c]) {
      CouponChecksAreExact(t.coupons[c]);
    }
    forall c, d | c in t.coupons && d in t.coupons && SameLetters(t.coupons[c].code, t.coupons[d].code)
      ensures c == d
    {
      UpperTellsLetters(t.coupons[c].code, t.coupons[d].code);
    }
    LegalMeansUnique(t);
  }

  // ---------------------------------------------------------------- which rows there are

  /** The row records who redeemed the coupon, when, and the country the coupon allows. */
  predicate RowOf(row: RedemptionRow, q: Request, coupon: CouponRow)
    requires q.Redeem?
  {
    && row.id == q.id && row.couponId == coupon.id && row.userId == q.user
    && row.redeemedAt == q.at && row.countryCode == coupon.countryCode
  }

  /** Every row of t' was in t or is the row of q for coupon c, and every row of t is still there. */
  ghost predicate OneMoreRedemption(t: Tables, t': Tables, q: Request, c: Uuid) {
    && q.Redeem? && c in t'.coupons && q.id !in t.redemptions && q.id in t'.redemptions
    && RowOf(t'.redemptions[q.id], q, t'.coupons[c])
    && (forall id <- t.redemptions :: id in t'.redemptions && t'.redemptions[id] == t.redemptions[id])
    && (forall id <- t'.redemptions :: id in t.redemptions || id == q.id)
  }

  /** No statement changes the key or the country of a coupon. */
  ghost predicate CouponsStay(t: Tables, t': Tables) {
    forall c <- t.coupons :: c in t'.coupons && t'.coupons[c].id == t.coupons[c].id
                             && t'.coupons[c].countryCode == t.coupons[c].countryCode
  }

  lemma StayingCoupons(t: Tables, q: Request, how: Disposition)
    requires Legal(t)
    ensures CouponsStay(t, Meaning(t, q, how).0)
  {
    hide Serial, Legal, Users, Wins;
    if !how.Faulted? {
      var t' := Serial(t, q).0;
      forall c | c in t.coupons ensures c in t'.coupons && SameIdentity(t.coupons[c], t'.coupons[c]) {
        EffectOnCoupon(t, c, q);
      }
    }
  }

  lemma TakerLeavesItsRow(t: Tables, q: Request, c: Uuid)
    requires Legal(t) && Target(t, q) == Some(c)
    ensures OneMoreRedemption(t, Serial(t, q).0, q, c)
  {
    TakingTables(t, q);
    hide Serial, SerialRedeem, LegalCoupons, LegalRedemptions, FindCoupon, Valid, Key, HasRedeemed, OneMoreRedemption;
    FoundUnderKey(t, Key(q));
    RowIsAdded(t, q, t.coupons[c]);
  }

  lemma RowIsAdded(t: Tables, q: Request, coupon: CouponRow)
    requires q.Redeem? && q.geo.Located? && q.geo.country == coupon.countryCode && q.id !in t.redemptions
    requires coupon.id in t.coupons && t.coupons[coupon.id] == coupon
    ensures OneMoreRedemption(t, SetUses(AddRedemption(t, NewRedemption(q, coupon.id)), coupon.id,
                                         coupon.currentUses + 1), q, coupon.id)
  {
  }

  lemma RowsAfter(t: Tables, q: Request, how: Disposition)
    requires Legal(t)
    ensures var t' := Meaning(t, q, how).0;
            if !how.Faulted? && Target(t, q).Some? then OneMoreRedemption(t, t', q, Target(t, q).value)
            else t'.redemptions == t.redemptions
  {
    hide Serial, Legal, Target, OneMoreRedemption;
    if Target(t, q).Some? {
      TakerLeavesItsRow(t, q, Target(t, q).value);
    } else {
      OtherTables(t, q);
    }
  }

  lemma TookFromByPrefix(t0: Tables, qs: seq<Request>, log: seq<Entry>, e: Entry, k: int, c: Uuid)
    requires e.who < |qs|
    ensures TookFrom(t0, qs, log + [e], k, c) <==>
              if k == |log| then !e.how.Faulted? && Target(Replay(t0, qs, log), qs[e.who]) == Some(c)
              else TookFrom(t0, qs, log, k, c)
  {
    hide Target, Replay;
    var l := log + [e];
    if 0 <= k <= |log| {
      assert l[..k] == log[..k];
      assert log[..|log|] == log;
    }
  }

  /** The rows of t are those of t0 and one for each entry of the log that took from a coupon. */
  ghost predicate RowsExplained(t0: Tables, t: Tables, qs: seq<Request>, log: seq<Entry>) {
    && (forall id <- t0.redemptions :: id in t.redemptions && t.redemptions[id] == t0.redemptions[id])
    && (forall k, c :: TookFrom(t0, qs, log, k, c) ==>
          && qs[log[k].who].Redeem? && c in t.coupons && qs[log[k].who].id in t.redemptions
          && RowOf(t.redemptions[qs[log[k].who].id], qs[log[k].who], t.coupons[c]))
    && (forall id <- t.redemptions :: id in t0.redemptions || exists k, c :: LeftBy(t0, qs, log, k, c, id))
  }

  ghost predicate LeftBy(t0: Tables, qs: seq<Request>, log: seq<Entry>, k: int, c: Uuid, id: Uuid) {
    TookFrom(t0, qs, log, k, c) && qs[log[k].who].Redeem? && qs[log[k].who].id == id
  }

  lemma SameRowsStayExplained(t0: Tables, t: Tables, t': Tables, qs: seq<Request>, log: seq<Entry>, e: Entry)
    requires e.who < |qs| && t == Replay(t0, qs, log) && RowsExplained(t0, t, qs, log) && CouponsStay(t, t')
    requires t'.redemptions == t.redemptions && (e.how.Faulted? || Target(t, qs[e.who]).None?)
    ensures RowsExplained(t0, t', qs, log + [e])
  {
    hide TookFrom, Replay, Target;
    forall k, c ensures TookFrom(t0, qs, log + [e], k, c) <==> k != |log| && TookFrom(t0, qs, log, k, c) {
      TookFromByPrefix(t0, qs, log, e, k, c);
    }
    forall k, c | TookFrom(t0, qs, log, k, c) ensures 0 <= k < |log| && (log + [e])[k] == log[k] {
      TakersAreLogged(t0, qs, log, k, c);
    }
    forall id | id in t'.redemptions && id !in t0.redemptions
      ensures exists k, c :: LeftBy(t0, qs, log + [e], k, c, id)
    {
      var k, c :| LeftBy(t0, qs, log, k, c, id);
      assert LeftBy(t0, qs, log + [e], k, c, id);
    }
  }

  lemma TakersAreLogged(t0: Tables, qs: seq<Request>, log: seq<Entry>, k: int, c: Uuid)
    requires TookFrom(t0, qs, log, k, c)
    ensures 0 <= k < |log|
  {
  }

  lemma OneMoreRowIsExplained(t0: Tables, t: Tables, t': Tables, qs: seq<Request>, log: seq<Entry>, e: Entry, c: Uuid)
    requires e.who < |qs| && t == Replay(t0, qs, log) && RowsExplained(t0, t, qs, log) && CouponsStay(t, t')
    requires !e.how.Faulted? && Target(t, qs[e.who]) == Some(c) && OneMoreRedemption(t, t', qs[e.who], c)
    ensures RowsExplained(t0, t', qs, log + [e])
  {
    hide TookFrom, Replay, Target;
    var l, q := log + [e], qs[e.who];
    forall k, d ensures TookFrom(t0, qs, l, k, d) <==> if k == |log| then d == c else TookFrom(t0, qs, log, k, d) {
      TookFromByPrefix(t0, qs, log, e, k, d);
    }
    forall k, d | TookFrom(t0, qs, log, k, d) ensures 0 <= k < |log| && l[k] == log[k] {
      TakersAreLogged(t0, qs, log, k, d);
    }
    forall id | id in t'.redemptions && id !in t0.redemptions ensures exists k, d :: LeftBy(t0, qs, l, k, d, id) {
      if id == q.id {
        assert LeftBy(t0, qs, l, |log|, c, id);
      } else {
        var k, d :| LeftBy(t0, qs, log, k, d, id);
        assert LeftBy(t0, qs, l, k, d, id);
      }
    }
  }

  lemma {:induction false} RowsOfLog(t0: Tables, qs: seq<Request>, log: seq<Entry>)
    requires Legal(t0) && Consistent(t0) && forall k :: 0 <= k < |log| ==> log[k].who < |qs|
    ensures RowsExplained(t0, Replay(t0, qs, log), qs, log)
    decreases |log|
  {
    if log != [] {
      hide Legal, Consistent, RowsExplained, OneMoreRedemption, CouponsStay, Target, Meaning;
      var front, e := log[..|log| - 1], log[|log| - 1];
      FrontOf(log, 0);
      RowsOfLog(t0, qs, front);
      ReplayKeeps(t0, qs, front);
      var t := Replay(t0, qs, front);
      var t' := Meaning(t, qs[e.who], e.how).0;
      StayingCoupons(t, qs[e.who], e.how);
      RowsAfter(t, qs[e.who], e.how);
      if !e.how.Faulted? && Target(t, qs[e.who]).Some? {
        OneMoreRowIsExplained(t0, t, t', qs, front, e, Target(t, qs[e.who]).value);
      } else {
        SameRowsStayExplained(t0, t, t', qs, front, e);
      }
    }
  }

  lemma TakerIsTold(t: Tables, q: Request, c: Uuid)
    requires Target(t, q) == Some(c)
    ensures var o := Serial(t, q).1; o.Redeemed? && o.id == q.id && o.user == q.user && o.at == q.at
  {
  }

  /** In every reachable state the redemption rows are those stored from the start and one for each
      logged request that took from a coupon: under its identifier, with the coupon's key and country,
      its user and its instant. Whoever was told of a success was told the data of its row. */
  lemma RowsOfARun(s0: State, moves: seq<Move>, s: State)
    requires Initial(s0) && Run(s0, moves) == Some(s)
    ensures s.WellFormed() && s.requests == s0.requests && RowsExplained(s0.tables, s.tables, s.requests, s.log)
    ensures forall k, c | TookFrom(s0.tables, s.requests, s.log, k, c) && s.log[k].how.Normal? ::
              var q, p := s.requests[s.log[k].who], s.procs[s.log[k].who].phase;
              && Settled(p) && p.reply.Redeemed? && q.id in s.tables.redemptions
              && var row := s.tables.redemptions[q.id];
                 p.reply.id == row.id && p.reply.user == row.userId && p.reply.at == row.redeemedAt
  {
    EveryRunIsSerial(s0, moves, s);
    RowsOfLog(s0.tables, s.requests, s.log);
    forall k, c | TookFrom(s0.tables, s.requests, s.log, k, c) && s.log[k].how.Normal?
      ensures var q, p := s.requests[s.log[k].who], s.procs[s.log[k].who].phase;
              && Settled(p) && p.reply.Redeemed? && q.id in s.tables.redemptions
              && var row := s.tables.redemptions[q.id];
                 p.reply.id == row.id && p.reply.user == row.userId && p.reply.at == row.redeemedAt
    {
      TakerIsTold(Replay(s0.tables, s.requests, s.log[..k]), s.requests[s.log[k].who], c);
      assert Replied(s.requests[s.log[k].who], s.procs[s.log[k].who].phase,
                     ReplyAt(s0.tables, s.requests, s.log, k));
    }
  }
}
