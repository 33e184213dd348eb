/** What a creation stores, and how many redemptions the coupon it stores then allows. */
module CreatedCoupons {
  import opened Wrappers
  import opened Text
  import opened CouponDomain
  import opened Database
  import opened Protocol
  import opened ProtocolInvariant
  import opened SerialEquivalence
  import opened Outcomes
  import opened ExactOutcomes
  import opened Defenses
  import opened Replies
  import opened Creation

  lemma SameAsNewIsAsAsked(row: CouponRow, q: Request)
    requires q.Create? && Valid(q) && SameIdentity(row, NewCoupon(q))
    ensures AsAsked(row, q) && row.normalizedCode == Key(q)
  {
    hide Valid, SameLetters, Upper, Trim, Key;
    NewCouponIsAsAsked(q);
  }

  /** In every reachable state, the row under the code of the first creation filed has the identifier,
      instant, limit, code and country that creation asked for, and as many uses as redemption rows;
      and an undisturbed reply names the same coupon, unused. */
  lemma CreatedAsAsked(s0: State, moves: seq<Move>, s: State, key: string, k: nat)
    requires Initial(s0) && Run(s0, moves) == Some(s)
    requires FreshCouponIds(s0.tables, s0.requests) && key !in s0.tables.couponByCode
    requires FirstFiled(s0.requests, s.log, key, k)
    ensures s.WellFormed() && s.requests == s0.requests && k < |s.log| && s.log[k].who < |s.procs|
    ensures var q := s.requests[s.log[k].who];
            && q.Create? && q.id in s.tables.coupons
            && var row := s.tables.coupons[q.id];
            && AsAsked(row, q) && row.normalizedCode == key && FindCoupon(s.tables, key) == Some(row)
            && row.currentUses == |RedemptionsOf(s.tables, q.id)|
    ensures s.log[k].how.Normal? ==>
              var q, p := s.requests[s.log[k].who], s.procs[s.log[k].who].phase;
              p.Finished? && p.reply.Created? && AsAsked(p.reply.coupon, q) && p.reply.coupon.currentUses == 0
  {
    ExactlyOneCreates(s0, moves, s, key);
    EveryRunKeepsInv(s0, moves, s);
    FirstIsFiled(s.requests, s.log, key, k);
    var q := s.requests[s.log[k].who];
    hide FirstFiled, Initial, Run, FreshCouponIds, SameLetters, Trim, Upper;
    FoundUnderKey(s.tables, key);
    SameAsNewIsAsAsked(FindCoupon(s.tables, key).value, q);
    NewCouponIsAsAsked(q);
    CountedUses(s.tables, q.id);
  }

  // ---------------------------------------------------------------- the run after the creation

  lemma {:induction false} ReplaySplits(t0: Tables, qs: seq<Request>, a: seq<Entry>, b: seq<Entry>)
    ensures Replay(Replay(t0, qs, a), qs, b) == Replay(t0, qs, a + b)
    decreases |b|
  {
    if b == [] {
      assert a + b == a;
    } else {
      assert (a + b)[..|a + b| - 1] == a + b[..|b| - 1];
      hide Meaning;
      ReplaySplits(t0, qs, a, b[..|b| - 1]);
    }
  }

  lemma {:induction false} SameRequestsSameReplay(t: Tables, qs: seq<Request>, qs': seq<Request>, log: seq<Entry>)
    requires |qs'| == |qs| && forall k :: 0 <= k < |log| ==> log[k].who < |qs| && qs'[log[k].who] == qs[log[k].who]
    ensures Replay(t, qs', log) == Replay(t, qs, log)
    decreases |log|
  {
    if log != [] {
      hide Meaning;
      SameRequestsSameReplay(t, qs, qs', log[..|log| - 1]);
    }
  }

  predicate Later(log: seq<Entry>, i: nat) {
    exists l :: 0 <= l < |log| && log[l].who == i
  }

  const NOBODY := Create("", 0, "", 0, 0)

  /** The requests of a log, and nothing in the place of the others. */
  function Only(qs: seq<Request>, log: seq<Entry>): (r: seq<Request>)
    ensures |r| == |qs| && forall i :: 0 <= i < |qs| ==> r[i] == if Later(log, i) then qs[i] else NOBODY
  {
    seq(|qs|, i requires 0 <= i < |qs| => if Later(log, i) then qs[i] else NOBODY)
  }

  /** Identifiers still to be drawn are fresh for the tables reached so far. */
  lemma RestIsFresh(t0: Tables, qs: seq<Request>, front: seq<Entry>, rest: seq<Entry>)
    requires LogOf(qs, front + rest) && FreshIds(t0, qs)
    ensures FreshIds(Replay(t0, qs, front), Only(qs, rest)) && LogOf(Only(qs, rest), rest)
  {
    var log := front + rest;
    assert forall k :: 0 <= k < |front| ==> log[k] == front[k];
    assert forall k :: 0 <= k < |rest| ==> log[|front| + k] == rest[k];
    KeysOfLog(t0, qs, front);
    forall i | 0 <= i < |qs| && Only(qs, rest)[i].Redeem? ensures qs[i].id !in Replay(t0, qs, front).redemptions {
      var l :| 0 <= l < |rest| && rest[l].who == i;
      forall k ensures !Drew(qs, front, k, qs[i].id) {
        if 0 <= k < |front| {
          assert log[k].who != log[|front| + l].who;
        }
      }
    }
  }

  /** A later attempt on the coupon of creation q: its code in any spelling, from its country. */
  predicate TriesFor(q: Request, r: Request)
    requires q.Create?
  {
    && r.Redeem? && WellFormedCommand(r) && SameLetters(Trim(r.code), Trim(q.code))
    && r.geo.Located? && SameLetters(r.geo.country, Trim(q.country))
  }

  predicate TriedAt(qs: seq<Request>, log: seq<Entry>, q: Request, l: int)
    requires q.Create?
  {
    0 <= l < |log| && log[l].who < |qs| && !log[l].how.Faulted? && TriesFor(q, qs[log[l].who])
  }

  /** The distinct users who tried after entry k. */
  ghost function Triers(qs: seq<Request>, log: seq<Entry>, k: nat, q: Request): set<string>
    requires q.Create?
  {
    set l | k < l < |log| && TriedAt(qs, log, q, l) :: qs[log[l].who].user
  }

  lemma ContendingIsTrying(t: Tables, q: Request, r: Request)
    requires q.Create? && Valid(q) && q.id in t.coupons && t.coupons[q.id] == NewCoupon(q)
    ensures Contender(t, q.id, r) <==> TriesFor(q, r)
  {
    hide Valid, WellFormedCommand, SameLetters, Trim, Upper;
    ValidMeansWellFormed(r);
    KeysTellLetters(r.code, q.code);
    if r.Redeem? && r.geo.Located? {
      ListedIsTrimmed(r.geo.country);
      UpperTellsLetters(r.geo.country, Trim(q.country));
    }
  }

  lemma FreshAreTriers(t: Tables, qs: seq<Request>, front: seq<Entry>, rest: seq<Entry>, q: Request)
    requires q.Create? && Valid(q) && q.id in t.coupons && t.coupons[q.id] == NewCoupon(q) && Users(t, q.id) == {}
    requires front != [] && forall k :: 0 <= k < |rest| ==> rest[k].who < |qs|
    ensures Fresh(t, Only(qs, rest), rest, q.id) == Triers(qs, front + rest, |front| - 1, q)
  {
    hide Valid, Contender, TriesFor, NewCoupon;
    var log, qs' := front + rest, Only(qs, rest);
    forall m | 0 <= m < |rest|
      ensures rest[m] == log[|front| + m] && qs'[rest[m].who] == qs[rest[m].who]
      ensures Attempted(t, qs', rest, q.id, m) <==> TriedAt(qs, log, q, |front| + m)
    {
      assert Later(rest, rest[m].who);
      ContendingIsTrying(t, q, qs[rest[m].who]);
    }
    AttemptsAreRedemptions(t, qs', rest, q.id);
    TrialsAreRedemptions(qs, log, q);
    hide Attempted, TriedAt;
    forall u ensures u in Fresh(t, qs', rest, q.id) <==> u in Triers(qs, log, |front| - 1, q) {
      if u in Fresh(t, qs', rest, q.id) {
        var m :| 0 <= m < |rest| && Attempted(t, qs', rest, q.id, m) && u == qs'[rest[m].who].user;
        assert TriedAt(qs, log, q, |front| + m);
      }
      if u in Triers(qs, log, |front| - 1, q) {
        var l :| |front| - 1 < l < |log| && TriedAt(qs, log, q, l) && u == qs[log[l].who].user;
        assert rest[l - |front|] == log[|front| + (l - |front|)];
        assert Attempted(t, qs', rest, q.id, l - |front|);
      }
    }
  }

  lemma AttemptsAreRedemptions(t: Tables, qs: seq<Request>, log: seq<Entry>, c: Uuid)
    requires c in t.coupons
    ensures forall m :: Attempted(t, qs, log, c, m) ==> log[m].who < |qs| && qs[log[m].who].Redeem?
  {
  }

  lemma TrialsAreRedemptions(qs: seq<Request>, log: seq<Entry>, q: Request)
    requires q.Create?
    ensures forall l :: TriedAt(qs, log, q, l) ==> log[l].who < |qs| && qs[log[l].who].Redeem?
  {
  }

  /** Right after its creation a coupon is there as asked, and nobody has redeemed it. */
  lemma JustCreated(t: Tables, q: Request)
    requires Legal(t) && q.Create? && Valid(q) && q.id !in t.coupons && Key(q) !in t.couponByCode
    ensures var t' := Serial(t, q).0;
            q.id in t'.coupons && t'.coupons[q.id] == NewCoupon(q) && Users(t', q.id) == {}
  {
    hide LegalCoupons, Valid, Key;
    assert Serial(t, q).0 == AddCoupon(t, NewCoupon(q));
    forall u ensures u !in Users(t, q.id) {
      assert (q.id, u) !in t.redemptionByPair;
    }
  }

  /** The uses of a coupon created in the run, in terms of the log from its creation on. */
  lemma UsesAfterCreation(t0: Tables, qs: seq<Request>, front: seq<Entry>, rest: seq<Entry>, q: Request)
    requires Legal(t0) && Consistent(t0) && LogOf(qs, front + rest) && FreshIds(t0, qs) && front != []
    requires var t := Replay(t0, qs, front);
             && q.Create? && Valid(q) && q.id in t.coupons && t.coupons[q.id] == NewCoupon(q)
             && Users(t, q.id) == {}
    ensures |RedemptionsOf(Replay(t0, qs, front + rest), q.id)|
            == Min(q.maxUses, |Triers(qs, front + rest, |front| - 1, q)|)
  {
    var t, qs' := Replay(t0, qs, front), Only(qs, rest);
    var final := Replay(t0, qs, front + rest);
    hide Legal, Consistent, FreshIds, Replay, Valid, Users, TallyAt, Fresh, Triers, Later, KeysKnown, NewCoupon;
    RestIsLogged(qs, front, rest);
    ReplayKeeps(t0, qs, front);
    RestIsFresh(t0, qs, front, rest);
    LogIsLater(rest);
    SameRequestsSameReplay(t, qs, qs', rest);
    ReplaySplits(t0, qs, front, rest);
    hide LogOf;
    NewIsUnused(q);
    CountOfWinners(t, qs', rest, q.id);
    TallyOfLog(t, qs', rest, q.id);
    FreshAreTriers(t, qs, front, rest, q);
    UsesOfTally(t, final, Fresh(t, qs', rest, q.id), q.id);
  }

  lemma RestIsLogged(qs: seq<Request>, front: seq<Entry>, rest: seq<Entry>)
    requires LogOf(qs, front + rest)
    ensures LogOf(qs, front) && forall k :: 0 <= k < |rest| ==> rest[k].who < |qs|
  {
    assert forall k :: 0 <= k < |rest| ==> (front + rest)[|front| + k] == rest[k];
    assert forall k :: 0 <= k < |front| ==> (front + rest)[k] == front[k];
  }

  lemma NewIsUnused(q: Request)
    requires q.Create?
    ensures NewCoupon(q).currentUses == 0 && NewCoupon(q).maxUses == q.maxUses
  {
  }

  lemma LogIsLater(log: seq<Entry>)
    ensures forall k :: 0 <= k < |log| ==> Later(log, log[k].who)
  {
  }

  lemma UsesOfTally(t: Tables, t': Tables, tried: set<string>, c: Uuid)
    requires c in t.coupons && TallyAt(t, t', tried, c) && t.coupons[c].currentUses == 0
    ensures c in t'.coupons && |RedemptionsOf(t', c)| == |Users(t', c) - Users(t, c)|
  {
    CountedUses(t', c);
  }

  /** A coupon created in the run, to the end: of all users who tried for it afterwards, by its code
      in any spelling and from the country the creation named, exactly as many redeemed it as the
      creation allowed, or all of them if they are fewer. Faults and any other traffic may occur. */
  lemma CreatedThenRedeemed(s0: State, moves: seq<Move>, s: State, key: string, k: nat)
    requires Initial(s0) && Run(s0, moves) == Some(s)
    requires FreshCouponIds(s0.tables, s0.requests) && FreshIds(s0.tables, s0.requests)
    requires key !in s0.tables.couponByCode && FirstFiled(s0.requests, s.log, key, k)
    ensures k < |s.log| && s.log[k].who < |s0.requests| && s0.requests[s.log[k].who].Create?
    ensures var q := s0.requests[s.log[k].who];
            |RedemptionsOf(s.tables, q.id)| == Min(q.maxUses, |Triers(s0.requests, s.log, k, q)|)
  {
    EveryRunIsSerial(s0, moves, s);
    SerializedIsLog(s0.tables, s);
    FirstIsFiled(s.requests, s.log, key, k);
    var t0, qs, log := s0.tables, s0.requests, s.log;
    var q, before := qs[log[k].who], Replay(t0, qs, log[..k]);
    FirstFindsRoom(t0, qs, log, key, k);
    hide Initial, Run, FreshCouponIds, FreshIds, FirstFiled, Serialized;
    JustCreated(before, q);
    NextPrefix(log, k);
    ReplayGrows(t0, qs, log[..k], log[k]);
    CutAfter(log, k);
    UsesAfterCreation(t0, qs, log[..k + 1], log[k + 1..], q);
  }

  lemma CutAfter(log: seq<Entry>, k: nat)
    requires k < |log|
    ensures log == log[..k + 1] + log[k + 1..]
  {
  }

  /** When the first creation of an unused code is filed, neither its code nor its key is taken. */
  lemma FirstFindsRoom(t0: Tables, qs: seq<Request>, log: seq<Entry>, key: string, k: nat)
    requires Legal(t0) && Consistent(t0) && LogOf(qs, log) && FreshCouponIds(t0, qs) && key !in t0.couponByCode
    requires FirstFiled(qs, log, key, k)
    ensures k < |log| && log[k].who < |qs| && !log[k].how.Faulted?
    ensures var q, t := qs[log[k].who], Replay(t0, qs, log[..k]);
            && Legal(t) && q.Create? && Valid(q) && Key(q) == key
            && q.id !in t.coupons && Key(q) !in t.couponByCode
  {
    FirstIsFiled(qs, log, key, k);
    FirstMeansNoneBefore(qs, log, key, k);
    PrefixIsLog(qs, log, k);
    PrefixIsLog(qs, log, k + 1);
    NextPrefix(log, k);
    hide FirstFiled, Replay, Legal, Consistent, FreshCouponIds, LogOf, CouponsKnown, Decided;
    CodeIsDecided(t0, qs, log[..k], key);
    CouponIdIsUnused(t0, Replay(t0, qs, log[..k]), qs, log[..k], log[k]);
    KeyIsTaken(Replay(t0, qs, log[..k]), qs, log[..k], key);
  }
}
