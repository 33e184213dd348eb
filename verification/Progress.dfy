/** Waiting, termination and independence of concurrent requests. */
module Progress {
  import opened Wrappers
  import opened Database
  import opened Protocol
  import opened ProtocolInvariant
  import opened SerialEquivalence
  import opened ExactOutcomes

  predicate Enabled(s: State, i: nat)
    requires s.WellFormed() && i < |s.procs|
  {
    !Advance(s, i).Wait?
  }

  // ---------------------------------------------------------------- who waits for whom

  /** Process i's next statement cannot run before process j ends. */
  ghost predicate WaitsFor(s: State, i: int, j: int) {
    && s.WellFormed() && 0 <= i < |s.procs| && 0 <= j < |s.procs| && i != j
    && var q := s.requests[i];
       match s.procs[i].phase
       case Locking(_) =>
         && FindCoupon(s.tables, Key(q)).Some?
         && var c := FindCoupon(s.tables, Key(q)).value; c.id in s.locks && s.locks[c.id] == j
       case Updating(c) => c.id in s.locks && s.locks[c.id] == j
       case Inserting(c) =>
         && PendingRow(s, j) && q.Redeem?
         && (s.procs[j].writes.redemption.value.id == q.id
             || PairOf(s.procs[j].writes.redemption.value) == (c.id, q.user))
       case Storing =>
         && q.Create?
         && var occupant := Occupant(s.tables, NewCoupon(q));
         && if occupant.Some? then UpdatesCoupon(s, j, occupant.value)
            else PendingCoupon(s, j) && SharesKey(s.procs[j].writes.coupon.value, NewCoupon(q))
       case _ => false
  }

  /** Process j has updated coupon c and not yet committed. */
  predicate UpdatesCoupon(s: State, j: int, c: Uuid) {
    0 <= j < |s.procs| && s.procs[j].writes.uses.Some? && s.procs[j].writes.uses.value.0 == c
  }

  predicate SharesKey(a: CouponRow, b: CouponRow) { a.id == b.id || a.normalizedCode == b.normalizedCode }

  /** Row-lock waiters stand before key waiters, and both before those who never wait. */
  function Rank(p: Phase): nat {
    match p
    case Locking(_) => 0
    case Inserting(_) | Storing => 1
    case _ => 2
  }

  lemma BlockedWaits(s: State, i: nat) returns (j: nat)
    requires LocalOk(s, i) && LocksOk(s) && !s.procs[i].phase.Finished? && !Enabled(s, i)
    ensures WaitsFor(s, i, j)
  {
    hide View, HasRedeemed, Readable, Valid, LegalCoupon, LegalRedemption, Serial;
    var q, p := s.requests[i], s.procs[i];
    if p.phase.Locking? {
      j := s.locks[FindCoupon(s.tables, Key(q)).value.id];
    } else if p.phase.Inserting? {
      var r := NewRedemption(q, p.phase.c.id);
      j :| 0 <= j < |s.procs| && j != i && s.procs[j].writes.redemption.Some?
           && (s.procs[j].writes.redemption.value.id == r.id
              || PairOf(s.procs[j].writes.redemption.value) == PairOf(r));
    } else if p.phase.Storing? {
      var r := NewCoupon(q);
      if c :| Occupant(s.tables, r) == Some(c) {
        j :| 0 <= j < |s.procs| && j != i && s.procs[j].writes.uses.Some? && s.procs[j].writes.uses.value.0 == c;
      } else {
        j :| 0 <= j < |s.procs| && j != i && s.procs[j].writes.coupon.Some?
             && (s.procs[j].writes.coupon.value.id == r.id
                 || s.procs[j].writes.coupon.value.normalizedCode == r.normalizedCode);
      }
    }
  }

  /** Waiting always goes upward in rank, to an open transaction: no cycle can form. */
  lemma WaitingClimbs(s: State, i: int, j: int)
    requires Inv(s) && WaitsFor(s, i, j)
    ensures 0 <= i < |s.procs| && 0 <= j < |s.procs|
    ensures Rank(s.procs[i].phase) < Rank(s.procs[j].phase)
    ensures InTransaction(s.procs[j].phase)
  {
  }

  /** A chain of processes, each waiting for the next, never comes back to where it began. */
  lemma {:induction false} NoWaitingCycle(s: State, chain: seq<nat>)
    requires Inv(s) && |chain| >= 2
    requires forall k :: 0 <= k < |chain| - 1 ==> WaitsFor(s, chain[k], chain[k + 1])
    ensures chain[0] < |s.procs| && chain[|chain| - 1] < |s.procs|
    ensures Rank(s.procs[chain[0]].phase) < Rank(s.procs[chain[|chain| - 1]].phase)
    ensures chain[0] != chain[|chain| - 1]
    decreases |chain|
  {
    hide WaitsFor, Inv, Rank;
    WaitingClimbs(s, chain[0], chain[1]);
    if |chain| > 2 {
      var rest := chain[1..];
      forall k | 0 <= k < |rest| - 1 ensures WaitsFor(s, rest[k], rest[k + 1]) {
        assert rest[k] == chain[k + 1] && rest[k + 1] == chain[k + 2];
      }
      NoWaitingCycle(s, rest);
    }
  }

  /** No run ever reaches a state in which requests wait for each other in a circle. */
  lemma NoReachableCycle(s0: State, moves: seq<Move>, s: State, chain: seq<nat>)
    requires Initial(s0) && Run(s0, moves) == Some(s) && |chain| >= 2
    requires forall k :: 0 <= k < |chain| - 1 ==> WaitsFor(s, chain[k], chain[k + 1])
    ensures chain[0] != chain[|chain| - 1]
  {
    EveryRunKeepsInv(s0, moves, s);
    NoWaitingCycle(s, chain);
  }

  /** Whoever waits for another cannot move, unless its own identifier is already stored. */
  lemma WaitingBlocks(s: State, i: nat, j: int)
    requires LocalOk(s, i) && WaitsFor(s, i, j)
    ensures s.requests[i].id in s.tables.redemptions || !Enabled(s, i)
  {
    if s.procs[i].phase.Storing? {
      NewCouponIsLegal(s.requests[i]);
    } else if s.procs[i].phase.Inserting? {
      FoundUnderKey(s.tables, Key(s.requests[i]));
      NewRedemptionIsLegal(s.requests[i], s.procs[i].phase.c);
    }
    hide View, Readable, Valid, LegalRedemption, LegalCoupon, LegalCoupons, NewCoupon, Key;
  }

  /** The adversary may break off any request at any statement between BEGIN or the first SELECT and the
      end of its transaction, and may lose the acknowledgement of any COMMIT. */
  lemma AnyStatementMayFail(s: State, i: nat)
    requires s.WellFormed() && i < |s.procs| && !Settled(s.procs[i].phase)
    ensures Decide(s, i, Fault).Wait? <==> s.procs[i].phase.Ready? && s.requests[i].Redeem?
    ensures Decide(s, i, LoseAck).Wait? <==> !s.procs[i].phase.Committing?
  {
  }

  /** Following the waiting leads to a process that can move: no deadlock. */
  lemma {:induction false} SomeoneCanMove(s: State, i: nat) returns (j: nat)
    requires Inv(s) && i < |s.procs| && !s.procs[i].phase.Finished?
    ensures j < |s.procs| && Enabled(s, j)
    decreases 2 - Rank(s.procs[i].phase)
  {
    if Enabled(s, i) {
      j := i;
    } else {
      assert LocalOk(s, i);
      var k := BlockedWaits(s, i);
      WaitingClimbs(s, i, k);
      j := SomeoneCanMove(s, k);
    }
  }

  // ---------------------------------------------------------------- every run ends

  /** How many moves a request can still make. */
  function Left(p: Phase): (n: nat)
    ensures n <= 10
  {
    match p
    case Ready => 10
    case Snapshotting => 9
    case Resolving(_) => 8
    case Locking(_) => 7
    case Checking(_) => 6
    case Inserting(_) => 5
    case Updating(_) | Storing => 4
    case Committing(_) => 3
    case Unwinding(_) => 2
    case Counting(_) => 1
    case Finished(_) => 0
  }

  function Work(procs: seq<Proc>): nat {
    if procs == [] then 0 else Work(procs[..|procs| - 1]) + Left(procs[|procs| - 1].phase)
  }

  lemma {:induction false} WorkOfUpdate(procs: seq<Proc>, i: nat, p: Proc)
    requires i < |procs|
    ensures Work(procs[i := p]) == Work(procs) - Left(procs[i].phase) + Left(p.phase)
    decreases |procs|
  {
    var n := |procs| - 1;
    if i == n {
      assert procs[i := p][..n] == procs[..n];
    } else {
      assert procs[i := p][..n] == procs[..n][i := p];
      WorkOfUpdate(procs[..n], i, p);
    }
  }

  lemma StepShrinks(s: State, i: nat, ch: Choice, s': State)
    requires s.WellFormed() && i < |s.procs| && Step(s, i, ch) == Some(s')
    ensures s'.WellFormed() && |s'.procs| == |s.procs| && s'.procs == s.procs[i := s'.procs[i]]
    ensures Left(s'.procs[i].phase) < Left(s.procs[i].phase)
  {
    hide Decide, Left, View, RecordedAtEnd, Release;
    DecisionShrinks(s, i, ch);
  }

  lemma DecisionShrinks(s: State, i: nat, ch: Choice)
    requires s.WellFormed() && i < |s.procs| && !Decide(s, i, ch).Wait?
    ensures Left(PhaseAfter(s.requests[i], s.procs[i].phase, Decide(s, i, ch))) < Left(s.procs[i].phase)
  {
    hide View, HasRedeemed, FindCoupon, Readable, Valid, LegalCoupon, LegalRedemption, RedemptionPending, CouponPending;
    hide LockedByOther, NewCoupon, NewRedemption, Key;
  }

  lemma {:induction false} InitialWork(procs: seq<Proc>)
    requires forall i :: 0 <= i < |procs| ==> procs[i].phase == Ready
    ensures Work(procs) == 10 * |procs|
    decreases |procs|
  {
    if procs != [] {
      InitialWork(procs[..|procs| - 1]);
    }
  }

  /** No run of n requests is longer than ten moves each, whatever the schedule and the faults. */
  lemma {:induction false} EveryRunIsShort(s0: State, moves: seq<Move>, s: State)
    requires Initial(s0) && Run(s0, moves) == Some(s)
    ensures s.WellFormed() && |s.procs| == |s0.procs|
    ensures |moves| + Work(s.procs) <= 10 * |s0.procs|
    decreases |moves|
  {
    if moves == [] {
      InitialWork(s0.procs);
    } else {
      var m := moves[|moves| - 1];
      var before := Run(s0, moves[..|moves| - 1]).value;
      EveryRunIsShort(s0, moves[..|moves| - 1], before);
      StepShrinks(before, m.who, m.choice, s);
      WorkOfUpdate(before.procs, m.who, s.procs[m.who]);
    }
  }

  /** A run that cannot be continued without a fault has answered every request. */
  lemma StuckMeansDone(s0: State, moves: seq<Move>, s: State)
    requires Initial(s0) && Run(s0, moves) == Some(s)
    requires forall i :: 0 <= i < |s.procs| ==> s.WellFormed() && !Enabled(s, i)
    ensures forall i :: 0 <= i < |s.procs| ==> s.procs[i].phase.Finished?
  {
    EveryRunKeepsInv(s0, moves, s);
    forall i | 0 <= i < |s.procs| ensures s.procs[i].phase.Finished? {
      if !s.procs[i].phase.Finished? {
        var j := SomeoneCanMove(s, i);
      }
    }
  }

  /** From every state the invariant allows, faults and crashes in progress included, the requests
      can all be finished without another fault. */
  lemma {:induction false} AllCanFinish(s: State) returns (moves: seq<Move>, s': State)
    requires Inv(s)
    ensures Undisturbed(moves) && Run(s, moves) == Some(s') && |s'.procs| == |s.procs|
    ensures forall i :: 0 <= i < |s'.procs| ==> s'.procs[i].phase.Finished?
    decreases Work(s.procs)
  {
    if i: nat :| i < |s.procs| && !s.procs[i].phase.Finished? {
      var j := SomeoneCanMove(s, i);
      var s1 := Step(s, j, Proceed).value;
      StepKeepsInv(s, j, Proceed, s1);
      StepShrinks(s, j, Proceed, s1);
      WorkOfUpdate(s.procs, j, s1.procs[j]);
      var rest;
      rest, s' := AllCanFinish(s1);
      FirstStep(s, j, s1, rest, s');
      moves := [Move(j, Proceed)] + rest;
    } else {
      moves, s' := [], s;
    }
  }

  // ---------------------------------------------------------------- independence

  /** Nobody else holds the row lock or an uncommitted key that redemption i will need, or an
      uncommitted key or change that creation i would wait for. */
  ghost predicate Unobstructed(s: State, i: nat)
    requires s.WellFormed() && i < |s.procs|
  {
    var q := s.requests[i];
    if Settled(s.procs[i].phase) then true
    else if q.Redeem? then
      && (FindCoupon(s.tables, Key(q)).Some? ==> !LockedByOther(s, i, FindCoupon(s.tables, Key(q)).value.id))
      && (forall j :: PendingRow(s, j) && j != i ==> s.procs[j].writes.redemption.value.id != q.id)
    else
      match Occupant(s.tables, NewCoupon(q))
      case Some(c) => forall j :: j != i ==> !UpdatesCoupon(s, j, c)
      case None => forall j :: PendingCoupon(s, j) && j != i ==>
                     !SharesKey(s.procs[j].writes.coupon.value, NewCoupon(q))
  }

  /** Whoever has an uncommitted redemption holds the lock of its coupon, so the pair index never
      makes anyone wait. */
  lemma PendingRowIsLocked(s: State, j: nat)
    requires Inv(s) && PendingRow(s, j)
    ensures var r := s.procs[j].writes.redemption.value; r.couponId in s.locks && s.locks[r.couponId] == j
    ensures s.requests[j].Redeem? && s.procs[j].writes.redemption.value.id == s.requests[j].id
  {
    assert LocalOk(s, j);
  }

  lemma UnobstructedIsEnabled(s: State, i: nat)
    requires Inv(s) && i < |s.procs| && !s.procs[i].phase.Finished? && Unobstructed(s, i)
    ensures Enabled(s, i)
  {
    assert LocalOk(s, i);
    if !Enabled(s, i) {
      var j := BlockedWaits(s, i);
      if PendingRow(s, j) {
        PendingRowIsLocked(s, j);
      }
    }
  }

  lemma OnlyEndingChangesTables(s: State, i: nat, s': State)
    requires s.WellFormed() && i < |s.procs| && Step(s, i, Proceed) == Some(s')
    ensures s'.requests == s.requests
    ensures s'.WellFormed() && (Settled(s'.procs[i].phase) || s'.tables == s.tables)
    ensures Settled(s.procs[i].phase) ==> Settled(s'.procs[i].phase)
    ensures Settled(s'.procs[i].phase) || forall c <- s'.locks ::
            s'.locks[c] == i || (c in s.locks && s'.locks[c] == s.locks[c])
  {
  }

  lemma StaysUnobstructed(s: State, i: nat, s': State)
    requires Inv(s) && i < |s.procs| && Unobstructed(s, i) && Step(s, i, Proceed) == Some(s')
    ensures s'.WellFormed() && i < |s'.procs| && Unobstructed(s', i)
  {
    hide Legal, Consistent, LocksOk, PendingOk, ProcOk;
    hide Step, Left, Occupant, NewCoupon, SharesKey, Key, FindCoupon, PendingRow, PendingCoupon, UpdatesCoupon;
    StepShrinks(s, i, Proceed, s');
    OnlyEndingChangesTables(s, i, s');
    OthersPend(s, i, s');
  }

  lemma OthersPend(s: State, i: nat, s': State)
    requires |s'.procs| == |s.procs| && i < |s.procs| && s'.procs == s.procs[i := s'.procs[i]]
    ensures forall j | j != i && PendingRow(s', j) :: PendingRow(s, j) && s'.procs[j] == s.procs[j]
    ensures forall j | j != i && PendingCoupon(s', j) :: PendingCoupon(s, j) && s'.procs[j] == s.procs[j]
    ensures forall j, c | j != i && UpdatesCoupon(s', j, c) :: UpdatesCoupon(s, j, c)
  {
  }

  lemma EnabledSteps(s: State, i: nat)
    requires s.WellFormed() && i < |s.procs| && Enabled(s, i)
    ensures Step(s, i, Proceed).Some?
  {
    hide Advance, Apply;
  }

  /** A lock on one coupon never holds up a request for another: a request nobody obstructs runs
      to its reply on its own, however many other transactions stay open meanwhile. */
  lemma {:induction false} AloneToTheEnd(s: State, i: nat) returns (moves: seq<Move>, s': State)
    requires Inv(s) && i < |s.procs| && Unobstructed(s, i)
    ensures Undisturbed(moves) && (forall m <- moves :: m.who == i) && |moves| <= 10
    ensures Run(s, moves) == Some(s') && s'.WellFormed() && i < |s'.procs| && s'.procs[i].phase.Finished?
    ensures |moves| <= Left(s.procs[i].phase)
    decreases Left(s.procs[i].phase)
  {
    if s.procs[i].phase.Finished? {
      moves, s' := [], s;
    } else {
      hide Unobstructed, Inv, Left, State.WellFormed, Enabled, Step;
      UnobstructedIsEnabled(s, i);
      EnabledSteps(s, i);
      var s1 := Step(s, i, Proceed).value;
      StepKeepsInv(s, i, Proceed, s1);
      StepShrinks(s, i, Proceed, s1);
      StaysUnobstructed(s, i, s1);
      var rest: seq<Move>;
      rest, s' := AloneToTheEnd(s1, i);
      moves := [Move(i, Proceed)] + rest;
      FirstStep(s, i, s1, rest, s');
      assert forall m <- moves :: m == Move(i, Proceed) || m in rest;
    }
  }

  lemma FirstStep(s: State, i: nat, s1: State, rest: seq<Move>, s': State)
    requires s.WellFormed() && i < |s.procs| && Step(s, i, Proceed) == Some(s1)
    requires Run(s1, rest) == Some(s') && Undisturbed(rest)
    ensures Run(s, [Move(i, Proceed)] + rest) == Some(s') && Undisturbed([Move(i, Proceed)] + rest)
  {
    hide Step;
    var first := [Move(i, Proceed)];
    RunExtends(s, [], s, first[0], s1);
    assert [] + first == first;
    RunsCompose(s, first, s1, rest, s');
  }
}
