/** Which defensive branches of the redemption transaction can never be taken. */
module Defenses {
  import opened Wrappers
  import opened CouponDomain
  import opened Database
  import opened Protocol
  import opened ProtocolInvariant
  import opened SerialEquivalence
  import opened Outcomes
  import opened ExactOutcomes
  import opened Progress

  /** Once the snapshot check has passed, the rechecks under the lock (row present, row readable,
      country equal) all pass: the statement either waits or goes on to the duplicate check. */
  lemma RecheckNeverFails(s0: State, moves: seq<Move>, s: State, i: nat)
    requires Initial(s0) && Run(s0, moves) == Some(s)
    requires s.WellFormed() && i < |s.procs| && s.procs[i].phase.Locking?
    ensures FindCoupon(s.tables, Key(s.requests[i])).Some?
    ensures var c := FindCoupon(s.tables, Key(s.requests[i])).value;
            Advance(s, i) == if LockedByOther(s, i, c.id) then Wait else Acquire(c.id, Checking(c))
  {
    EveryRunKeepsInv(s0, moves, s);
    assert LocalOk(s, i);
    ReadableMeansListed(FindCoupon(s.tables, Key(s.requests[i])).value);
  }

  /** The fresh identifier of a request that has not ended is unused, committed or not. */
  lemma IdStaysFresh(s0: State, moves: seq<Move>, s: State, i: nat)
    requires Initial(s0) && Run(s0, moves) == Some(s) && FreshIds(s0.tables, s0.requests)
    requires s.WellFormed() && i < |s.procs| && !Settled(s.procs[i].phase) && s.requests[i].Redeem?
    ensures s.requests[i].id !in s.tables.redemptions
    ensures forall j :: PendingRow(s, j) && j != i ==> s.procs[j].writes.redemption.value.id != s.requests[i].id
  {
    EveryRunKeepsInv(s0, moves, s);
    EveryRunIsSerial(s0, moves, s);
    KeysOfLog(s0.tables, s.requests, s.log);
    forall k ensures !Drew(s.requests, s.log, k, s.requests[i].id) {
      if 0 <= k < |s.log| {
        assert Settled(s.procs[s.log[k].who].phase);
      }
    }
    forall j | PendingRow(s, j) && j != i ensures s.procs[j].writes.redemption.value.id != s.requests[i].id {
      PendingRowIsLocked(s, j);
    }
  }

  lemma {:induction false} KeysOfLog(t0: Tables, qs: seq<Request>, log: seq<Entry>)
    requires forall k :: 0 <= k < |log| ==> log[k].who < |qs|
    ensures KeysKnown(t0, qs, log)
    decreases |log|
  {
    if log != [] {
      var front, e := log[..|log| - 1], log[|log| - 1];
      assert log == front + [e];
      KeysOfLog(t0, qs, front);
      KeysStayKnown(t0, qs, front, e);
    }
  }

  /** With fresh identifiers, a transaction that passed the duplicate and capacity checks neither
      hits a constraint nor waits at its INSERT. */
  lemma InsertNeverFails(s0: State, moves: seq<Move>, s: State, i: nat)
    requires Initial(s0) && Run(s0, moves) == Some(s) && FreshIds(s0.tables, s0.requests)
    requires s.WellFormed() && i < |s.procs| && s.procs[i].phase.Inserting?
    ensures s.requests[i].Redeem? && s.requests[i].geo.Located?
    ensures var c := s.procs[i].phase.c;
            Advance(s, i) == Write(Writes(None, Some(NewRedemption(s.requests[i], c.id)), None), Updating(c),
                multiset{})
  {
    EveryRunKeepsInv(s0, moves, s);
    InvIsLocal(s, i);
    IdStaysFresh(s0, moves, s, i);
    hide Initial, Run, FreshIds, Inv;
    PairIsFree(s, i);
    var q, c := s.requests[i], s.procs[i].phase.c;
    FoundUnderKey(s.tables, Key(q));
    hide LegalCoupons, RedemptionPending, View, Readable, Protocol.Valid, FindCoupon;
  }

  /** The row lock keeps everybody else from redeeming the coupon meanwhile. */
  lemma PairIsFree(s: State, i: nat)
    requires Inv(s) && LocalOk(s, i) && s.procs[i].phase.Inserting?
    requires s.requests[i].Redeem? && s.requests[i].geo.Located?
    requires forall j :: PendingRow(s, j) && j != i ==> s.procs[j].writes.redemption.value.id != s.requests[i].id
    ensures !RedemptionPending(s, i, NewRedemption(s.requests[i], s.procs[i].phase.c.id))
  {
    var q, c := s.requests[i], s.procs[i].phase.c;
    var r := NewRedemption(q, c.id);
    assert c.id in s.locks && s.locks[c.id] == i;
    hide Inv, LocalOk;
    forall j | 0 <= j < |s.procs| && j != i && s.procs[j].writes.redemption.Some?
      ensures PairOf(s.procs[j].writes.redemption.value) != PairOf(r)
    {
      assert PendingRow(s, j);
      PendingRowIsLocked(s, j);
    }
    forall j | 0 <= j < |s.procs| && j != i && s.procs[j].writes.redemption.Some?
      ensures s.procs[j].writes.redemption.value.id != r.id
    {
      assert PendingRow(s, j);
    }
  }

  /** The conditional increment always returns a row, exactly one above the locked copy. */
  lemma IncrementNeverEmpty(s0: State, moves: seq<Move>, s: State, i: nat)
    requires Initial(s0) && Run(s0, moves) == Some(s)
    requires s.WellFormed() && i < |s.procs| && s.procs[i].phase.Updating?
    ensures s.requests[i].Redeem? && Advance(s, i).Write?
    ensures var c := s.procs[i].phase.c;
            && Advance(s, i).writes.uses == Some((c.id, c.currentUses + 1))
            && c.id in s.tables.coupons && s.tables.coupons[c.id] == c && c.currentUses + 1 <= c.maxUses
  {
    EveryRunKeepsInv(s0, moves, s);
    InvIsLocal(s, i);
    hide Inv, LocalOk, Initial, Run;
    IncrementFinds(s, i);
  }

  lemma IncrementFinds(s: State, i: nat)
    requires LocalOk(s, i) && s.procs[i].phase.Updating?
    ensures s.requests[i].Redeem? && Advance(s, i).Write?
    ensures var c := s.procs[i].phase.c;
            && Advance(s, i).writes.uses == Some((c.id, c.currentUses + 1))
            && c.id in s.tables.coupons && s.tables.coupons[c.id] == c && c.currentUses + 1 <= c.maxUses
  {
    hide ProcOk, View, Advance, LegalCoupons;
    var c := s.procs[i].phase.c;
    UpdateIsReady(s.tables, s.locks, i, s.requests[i], c, s.procs[i].writes);
    AdvanceUpdates(s, i, c);
  }

  lemma AdvanceUpdates(s: State, i: nat, c: CouponRow)
    requires s.WellFormed() && i < |s.procs| && s.procs[i].phase == Updating(c) && s.requests[i].Redeem?
    ensures Advance(s, i) == Update(s, i, s.requests[i], c)
  {
    hide Snapshot, Resolve, Lock, Check, Insert, Update, Store, Protocol.Valid;
  }

  // ---------------------------------------------------------------- internal errors

  /** A coupon that satisfies every CHECK and yet cannot be read back: its country is not on the list. */
  predicate Unlisted(t: Tables, key: string) {
    FindCoupon(t, key).Some? && FindCoupon(t, key).value.countryCode !in ISO_COUNTRIES
  }

  ghost predicate AllListed(t: Tables) {
    forall id <- t.coupons :: t.coupons[id].countryCode in ISO_COUNTRIES
  }

  /** With a fresh identifier only an unreadable row makes the serial meaning an internal error. */
  lemma SerialErrors(t: Tables, q: Request)
    requires LegalCoupons(t) && (q.Redeem? ==> q.id !in t.redemptions)
    ensures Serial(t, q).1 == InternalError <==> q.Redeem? && Valid(q) && Unlisted(t, Key(q))
  {
    if FindCoupon(t, Key(q)).Some? {
      FoundUnderKey(t, Key(q));
      ReadableMeansListed(FindCoupon(t, Key(q)).value);
    }
  }

  /** Requests neither make a coupon unlisted nor cure one: creation checks the list, and nothing
      changes a country. */
  lemma {:induction false} UnlistedStays(t0: Tables, qs: seq<Request>, log: seq<Entry>, key: string)
    requires Legal(t0) && Consistent(t0) && forall k :: 0 <= k < |log| ==> log[k].who < |qs|
    ensures Unlisted(Replay(t0, qs, log), key) <==> Unlisted(t0, key)
    decreases |log|
  {
    if log != [] {
      var front, e := log[..|log| - 1], log[|log| - 1];
      hide Unlisted, Legal, Consistent;
      UnlistedStays(t0, qs, front, key);
      ReplayKeeps(t0, qs, front);
      UnlistedAfter(Replay(t0, qs, front), qs[e.who], e.how, key);
      assert Replay(t0, qs, log) == Meaning(Replay(t0, qs, front), qs[e.who], e.how).0;
    }
  }

  lemma UnlistedAfter(t: Tables, q: Request, how: Disposition, key: string)
    requires Legal(t)
    ensures Unlisted(Meaning(t, q, how).0, key) <==> Unlisted(t, key)
  {
    CodesAfter(t, q, how, key);
    hide Meaning, LegalRedemptions;
  }

  /** In any undisturbed run with fresh identifiers, the requests told InternalError are exactly the
      valid redemptions of a coupon that was stored from the start with an unlisted country. */
  lemma InternalErrorsAreUnlisted(s0: State, moves: seq<Move>, s: State, i: nat)
    requires Initial(s0) && Run(s0, moves) == Some(s) && Undisturbed(moves) && FreshIds(s0.tables, s0.requests)
    requires s.WellFormed() && i < |s.procs| && s.procs[i].phase.Finished?
    ensures s.requests == s0.requests
    ensures var q := s.requests[i];
            s.procs[i].phase.reply == InternalError <==> q.Redeem? && Valid(q) && Unlisted(s0.tables, Key(q))
  {
    UndisturbedRunBreaksNothing(s0, moves, s);
    var k := AnswerIsLogged(s0, moves, s, i);
    PrefixIsLog(s.requests, s.log, k);
    KeysOfLog(s0.tables, s.requests, s.log[..k]);
    UnusedAt(s0.tables, s.requests, s.log, k);
    ReplayKeeps(s0.tables, s.requests, s.log[..k]);
    SerialErrors(Replay(s0.tables, s.requests, s.log[..k]), s.requests[i]);
    UnlistedStays(s0.tables, s.requests, s.log[..k], Key(s.requests[i]));
  }

  ghost predicate ToldInternal(s: State) {
    exists i :: 0 <= i < |s.procs| && s.procs[i].phase == Finished(InternalError)
  }

  /** A legal database gives rise to no internal error, in any undisturbed run of any requests with
      fresh identifiers, if and only if every coupon in it has a listed country. */
  lemma NoInternalErrors(t: Tables)
    requires Legal(t) && Consistent(t)
    ensures AllListed(t) <==>
              forall qs, moves :: FreshIds(t, qs) && Undisturbed(moves) && Run(Start(t, qs), moves).Some? ==>
                !ToldInternal(Run(Start(t, qs), moves).value)
  {
    if AllListed(t) {
      forall qs, moves | FreshIds(t, qs) && Undisturbed(moves) && Run(Start(t, qs), moves).Some?
        ensures !ToldInternal(Run(Start(t, qs), moves).value)
      {
        ListedRunIsClean(Start(t, qs), moves, Run(Start(t, qs), moves).value);
      }
    } else {
      var id :| id in t.coupons && t.coupons[id].countryCode !in ISO_COUNTRIES;
      var qs, moves := UnlistedRowFails(t, id);
    }
  }

  lemma ListedRunIsClean(s0: State, moves: seq<Move>, s: State)
    requires Initial(s0) && Run(s0, moves) == Some(s) && Undisturbed(moves) && FreshIds(s0.tables, s0.requests)
    requires AllListed(s0.tables)
    ensures !ToldInternal(s)
  {
    EveryRunKeepsInv(s0, moves, s);
    forall i | 0 <= i < |s.procs| ensures s.procs[i].phase != Finished(InternalError) {
      if s.procs[i].phase.Finished? {
        InternalErrorsAreUnlisted(s0, moves, s, i);
      }
    }
  }

  /** Any stored coupon with an unlisted country: one redemption of its code, alone and undisturbed,
      is told InternalError by the unlocked SELECT. */
  lemma UnlistedRowFails(t: Tables, id: Uuid) returns (qs: seq<Request>, moves: seq<Move>)
    requires Legal(t) && Consistent(t) && id in t.coupons && t.coupons[id].countryCode !in ISO_COUNTRIES
    ensures FreshIds(t, qs) && Undisturbed(moves) && Run(Start(t, qs), moves).Some?
    ensures ToldInternal(Run(Start(t, qs), moves).value)
  {
    var row := t.coupons[id];
    var unused := UnusedKey(t.redemptions.Keys);
    var q := Redeem(row.code, "user", Unresolved, unused, 0);
    WellFormedIsTrimmed(row.code);
    ReadableMeansListed(row);
    assert Valid(q) && FindCoupon(t, Key(q)) == Some(row);
    hide Legal, Consistent, Valid, FindCoupon, Readable;
    qs := [q];
    moves := UnreadableSnapshot(t, q);
  }

  lemma UnreadableSnapshot(t: Tables, q: Request) returns (moves: seq<Move>)
    requires q.Redeem? && Valid(q) && FindCoupon(t, Key(q)).Some? && !Readable(FindCoupon(t, Key(q)).value)
    ensures Undisturbed(moves) && Run(Start(t, [q]), moves).Some?
    ensures ToldInternal(Run(Start(t, [q]), moves).value)
  {
    hide Valid, FindCoupon, Readable, Key;
    var s0, m := Start(t, [q]), Move(0, Proceed);
    var s1 := Apply(s0, 0, Goto(Snapshotting));
    var s2 := Apply(s1, 0, Leave(InternalError, Normal));
    var s3 := Apply(s2, 0, Answer(InternalError));
    assert Step(s0, 0, Proceed) == Some(s1) && Step(s1, 0, Proceed) == Some(s2) && Step(s2, 0, Proceed) == Some(s3);
    assert s3.procs[0].phase == Finished(InternalError);
    hide Step, Apply, Start;
    ThreeSteps(s0, s1, s2, s3, m);
    moves := [m, m, m];
  }

  lemma {:induction false} UnusedKey(keys: set<Uuid>) returns (k: Uuid)
    ensures forall j <- keys :: j < k
  {
    k := 0;
    if keys != {} {
      var x :| x in keys;
      var above := UnusedKey(keys - {x});
      k := if x < above then above else x + 1;
      forall j | j in keys ensures j < k {
        assert j != x ==> j in keys - {x};
      }
    }
  }

  /** The failing row, spelled out: coupon ABC for country ZZ satisfies every CHECK. */
  lemma UnlistedCountryCounterexample() returns (t: Tables, qs: seq<Request>, moves: seq<Move>)
    ensures Legal(t) && Consistent(t)
    ensures t.coupons == map[7 := CouponRow(7, "ABC", "ABC", 0, 1, 0, "ZZ")]
    ensures FreshIds(t, qs) && Undisturbed(moves) && Run(Start(t, qs), moves).Some?
    ensures ToldInternal(Run(Start(t, qs), moves).value)
  {
    t := OneCoupon("ZZ");
    OneCouponIsLegal("ZZ");
    qs, moves := UnlistedRowFails(t, 7);
  }
}
