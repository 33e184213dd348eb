/** What every step of every process keeps. */
module ProtocolInvariant {
  import opened Wrappers
  import opened CouponDomain
  import opened Database
  import opened Protocol

  // ---------------------------------------------------------------- one process at a time

  /** No statement of the model changes anything of a coupon but its counter. */
  predicate SameIdentity(a: CouponRow, b: CouponRow) {
    a.(currentUses := 0) == b.(currentUses := 0)
  }

  /** The locked copy c is still the committed row: this is what FOR UPDATE buys. */
  ghost predicate Trusted(t: Tables, locks: map<Uuid, nat>, i: nat, q: Request, c: CouponRow) {
    && q.Redeem? && Valid(q)
    && FindCoupon(t, Key(q)) == Some(c)
    && c.id in locks && locks[c.id] == i
  }

  ghost predicate MayRedeem(t: Tables, locks: map<Uuid, nat>, i: nat, q: Request, c: CouponRow) {
    && Trusted(t, locks, i, q, c)
    && Readable(c) && LocatedIn(q.geo, c.countryCode)
    && !HasRedeemed(t, c.id, q.user)
    && c.currentUses < c.maxUses
  }

  /** What process i may rely on in each phase. */
  ghost predicate ProcOk(t: Tables, locks: map<Uuid, nat>, i: nat, q: Request, p: Proc) {
    match p.phase
    case Ready => p.writes == NO_WRITES
    case Snapshotting => p.writes == NO_WRITES && q.Redeem? && Valid(q)
    case Resolving(snapshot) =>
      && p.writes == NO_WRITES && q.Redeem? && Valid(q)
      && FindCoupon(t, Key(q)).Some? && SameIdentity(FindCoupon(t, Key(q)).value, snapshot)
      && snapshot.countryCode in ISO_COUNTRIES
    case Locking(country) =>
      && p.writes == NO_WRITES && q.Redeem? && Valid(q) && LocatedIn(q.geo, country)
      && FindCoupon(t, Key(q)).Some? && FindCoupon(t, Key(q)).value.countryCode == country
    case Checking(c) =>
      && p.writes == NO_WRITES && Trusted(t, locks, i, q, c)
      && Readable(c) && LocatedIn(q.geo, c.countryCode)
    case Inserting(c) => p.writes == NO_WRITES && MayRedeem(t, locks, i, q, c)
    case Updating(c) =>
      && MayRedeem(t, locks, i, q, c)
      && p.writes == Writes(None, Some(NewRedemption(q, c.id)), None)
    case Storing => p.writes == NO_WRITES && q.Create? && Valid(q)
    case Committing(reply) =>
      if q.Create? then
        Valid(q) && p.writes == Writes(Some(NewCoupon(q)), None, None) && reply == Created(NewCoupon(q))
      else
        && FindCoupon(t, Key(q)).Some?
        && var c := FindCoupon(t, Key(q)).value;
        && MayRedeem(t, locks, i, q, c)
        && p.writes == Writes(None, Some(NewRedemption(q, c.id)), Some((c.id, c.currentUses + 1)))
        && reply == Redeemed(q.id, c.code, q.user, q.at, c.maxUses - (c.currentUses + 1))
    case Unwinding(Rejected(reply)) =>
      && p.writes == NO_WRITES
      && if q.Create? then
           Valid(q) && (q.id in t.coupons || Key(q) in t.couponByCode) && reply == CodeConflict
         else
           && FindCoupon(t, Key(q)).Some?
           && Trusted(t, locks, i, q, FindCoupon(t, Key(q)).value)
           && !reply.Redeemed? && Serial(t, q) == (t, reply)
    case Unwinding(Crashed) =>
      p.writes.redemption.Some? ==>
        && q.Redeem? && p.writes.redemption.value.id == q.id
        && p.writes.redemption.value.couponId in locks && locks[p.writes.redemption.value.couponId] == i
    case Counting(_) => p.writes == NO_WRITES && q.Redeem?
    case Finished(_) => p.writes == NO_WRITES
  }

  predicate InTransaction(p: Phase) {
    p.Checking? || p.Inserting? || p.Updating? || p.Committing? || p.Unwinding?
  }

  predicate HasWritten(p: Phase) {
    p.Updating? || p.Committing? || p.Unwinding?
  }

  // ---------------------------------------------------------------- the invariant

  ghost predicate ProcsOk(s: State) {
    s.WellFormed()
    && forall i :: 0 <= i < |s.procs| ==> ProcOk(s.tables, s.locks, i, s.requests[i], s.procs[i])
  }

  /** Locks are held only inside an open transaction. */
  ghost predicate LocksOk(s: State) {
    forall c <- s.locks :: s.locks[c] < |s.procs| && InTransaction(s.procs[s.locks[c]].phase)
  }

  predicate PendingRow(s: State, i: int) { 0 <= i < |s.procs| && s.procs[i].writes.redemption.Some? }

  predicate PendingCoupon(s: State, i: int) { 0 <= i < |s.procs| && s.procs[i].writes.coupon.Some? }

  /** Uncommitted redemption keys are new, and no two open transactions hold the same one. */
  ghost predicate PendingRowsOk(s: State) {
    && (forall i :: PendingRow(s, i) ==>
          HasWritten(s.procs[i].phase) && s.procs[i].writes.redemption.value.id !in s.tables.redemptions)
    && (forall i, j :: PendingRow(s, i) && PendingRow(s, j) && i != j ==>
          s.procs[i].writes.redemption.value.id != s.procs[j].writes.redemption.value.id)
  }

  /** The same for the keys and codes of uncommitted coupons. */
  ghost predicate PendingCouponsOk(s: State) {
    && (forall i :: PendingCoupon(s, i) ==>
          && HasWritten(s.procs[i].phase)
          && s.procs[i].writes.coupon.value.id !in s.tables.coupons
          && s.procs[i].writes.coupon.value.normalizedCode !in s.tables.couponByCode)
    && (forall i, j :: PendingCoupon(s, i) && PendingCoupon(s, j) && i != j ==>
          && s.procs[i].writes.coupon.value.id != s.procs[j].writes.coupon.value.id
          && s.procs[i].writes.coupon.value.normalizedCode != s.procs[j].writes.coupon.value.normalizedCode)
  }

  ghost predicate PendingOk(s: State) {
    PendingRowsOk(s) && PendingCouponsOk(s)
  }

  ghost predicate Inv(s: State) {
    Legal(s.tables) && Consistent(s.tables) && ProcsOk(s) && LocksOk(s) && PendingOk(s)
  }

  // ---------------------------------------------------------------- rely and guarantee

  /** Coupons keep their identity and their code, and no row disappears. */
  ghost predicate Grown(t: Tables, t': Tables) {
    && (forall c <- t.coupons :: c in t'.coupons && SameIdentity(t.coupons[c], t'.coupons[c]))
    && (forall code <- t.couponByCode :: code in t'.couponByCode && t'.couponByCode[code] == t.couponByCode[code])
    && (forall id <- t.redemptions :: id in t'.redemptions)
  }

  /** What the moves of the others leave alone, seen from process j. */
  ghost predicate Rely(t: Tables, locks: map<Uuid, nat>, t': Tables, locks': map<Uuid, nat>, j: nat) {
    && Grown(t, t')
    && (forall c <- locks :: locks[c] == j ==>
          && c in locks' && locks'[c] == j
          && (c in t.coupons ==> t'.coupons[c] == t.coupons[c])
          && forall u :: HasRedeemed(t', c, u) <==> HasRedeemed(t, c, u))
  }

  /** A row found by code sits under its own primary key. */
  lemma FoundUnderKey(t: Tables, code: string)
    requires LegalCoupons(t) && FindCoupon(t, code).Some?
    ensures var c := FindCoupon(t, code).value;
            c.id in t.coupons && t.coupons[c.id] == c && LegalCoupon(c)
  {
  }

  /** What is found by code keeps its identity, and stays the same row if the row is untouched. */
  lemma FoundStays(t: Tables, t': Tables, code: string)
    requires LegalCoupons(t) && Grown(t, t') && FindCoupon(t, code).Some?
    ensures var c := FindCoupon(t, code).value;
            && c.id in t.coupons && t.coupons[c.id] == c && c.id in t'.coupons
            && FindCoupon(t', code) == Some(t'.coupons[c.id]) && SameIdentity(c, t'.coupons[c.id])
  {
    FoundUnderKey(t, code);
  }

  /** A rejection decided under the row lock stays the right answer until the lock is released. */
  lemma RejectionStands(t: Tables, locks: map<Uuid, nat>, t': Tables, locks': map<Uuid, nat>, j: nat, q: Request,
        reply: Outcome)
    requires LegalCoupons(t) && Rely(t, locks, t', locks', j)
    requires FindCoupon(t, Key(q)).Some? && Trusted(t, locks, j, q, FindCoupon(t, Key(q)).value)
    requires !reply.Redeemed? && Serial(t, q) == (t, reply)
    ensures FindCoupon(t', Key(q)) == FindCoupon(t, Key(q))
    ensures Serial(t', q) == (t', reply)
  {
    hide LegalCoupons, Readable, Protocol.Valid, Key, SetUses, AddRedemption, NewRedemption;
    FoundStays(t, t', Key(q));
    assert forall id <- t.redemptions :: id in t'.redemptions;
    hide FindCoupon, Grown, SameIdentity;
  }

  lemma ConflictStands(t: Tables, t': Tables, q: Request)
    requires Grown(t, t')
    ensures q.id in t.coupons || Key(q) in t.couponByCode ==> q.id in t'.coupons || Key(q) in t'.couponByCode
  {
  }

  /** Everything a process relies on survives the moves of the others. */
  lemma ProcOkIsStable(t: Tables, locks: map<Uuid, nat>, t': Tables, locks': map<Uuid, nat>, j: nat, q: Request,
        p: Proc)
    requires LegalCoupons(t) && ProcOk(t, locks, j, q, p) && Rely(t, locks, t', locks', j)
    ensures ProcOk(t', locks', j, q, p)
  {
    hide Serial, LegalCoupons, Readable, Protocol.Valid, Key, LocatedIn, NewRedemption, NewCoupon, Grown, FindCoupon;
    ConflictStands(t, t', q);
    if FindCoupon(t, Key(q)).Some? {
      FoundStays(t, t', Key(q));
      if q.Redeem? && p.phase.Unwinding? && p.phase.verdict.Rejected? {
        RejectionStands(t, locks, t', locks', j, q, p.phase.verdict.reply);
      }
    }
  }

  /** Adding a coupon under a new key and code disturbs nobody. */
  lemma CreationGuarantees(t: Tables, locks: map<Uuid, nat>, r: CouponRow, locks': map<Uuid, nat>, j: nat)
    requires r.id !in t.coupons && r.normalizedCode !in t.couponByCode
    requires forall c <- locks :: locks[c] == j ==> c in locks' && locks'[c] == j
    ensures Rely(t, locks, AddCoupon(t, r), locks', j)
  {
  }

  /** Redeeming under the row lock of a coupon disturbs nobody who holds another lock. */
  lemma RedemptionGuarantees(t: Tables, locks: map<Uuid, nat>, r: RedemptionRow, n: int, locks': map<Uuid, nat>, j: nat)
    requires r.couponId in t.coupons && r.couponId in locks && locks[r.couponId] != j
    requires forall c <- locks :: locks[c] == j ==> c in locks' && locks'[c] == j
    ensures Rely(t, locks, SetUses(AddRedemption(t, r), r.couponId, n), locks', j)
  {
  }

  // ---------------------------------------------------------------- each decision is sound

  /** What makes an effect of process i acceptable to the invariant and to the serial meaning. */
  ghost predicate EffectOk(s: State, i: nat, e: Effect)
    requires s.WellFormed() && i < |s.procs|
  {
    var p, q := s.procs[i], s.requests[i];
    match e
    case Wait => true
    case Goto(phase) =>
      && ProcOk(s.tables, s.locks, i, q, p.(phase := phase))
      && (InTransaction(p.phase) ==> InTransaction(phase))
      && (HasWritten(p.phase) ==> HasWritten(phase))
    case Acquire(coupon, phase) =>
      && !LockedByOther(s, i, coupon)
      && ProcOk(s.tables, s.locks[coupon := i], i, q, p.(phase := phase))
      && InTransaction(phase) && !HasWritten(p.phase)
    case Write(writes, phase, _) =>
      && ProcOk(s.tables, s.locks, i, q, Proc(phase, writes))
      && InTransaction(phase) && HasWritten(phase)
      && (writes.redemption.Some? ==>
            || writes.redemption == p.writes.redemption
            || (writes.redemption.value.id !in s.tables.redemptions
                && !RedemptionPending(s, i, writes.redemption.value)))
      && (writes.coupon.Some? ==>
            || writes.coupon == p.writes.coupon
            || (writes.coupon.value.id !in s.tables.coupons
                && writes.coupon.value.normalizedCode !in s.tables.couponByCode
                && !CouponPending(s, i, writes.coupon.value)))
    case Leave(reply, how) => Meaning(s.tables, q, how) == (s.tables, reply)
    case Commit(reply, how) =>
      p.phase.Committing? && Meaning(s.tables, q, how) == (View(s.tables, p.writes), reply)
    case Answer(reply) => p.phase == Counting(reply)
  }

  lemma NewCouponIsLegal(q: Request)
    requires q.Create? && Valid(q)
    ensures LegalCoupon(NewCoupon(q))
  {
  }

  lemma NewRedemptionIsLegal(q: Request, row: CouponRow)
    requires q.Redeem? && Valid(q) && LegalCoupon(row) && LocatedIn(q.geo, row.countryCode)
    ensures LegalRedemption(NewRedemption(q, row.id))
  {
  }

  /** The part of the invariant that concerns one process. */
  ghost predicate LocalOk(s: State, i: nat) {
    && s.WellFormed() && i < |s.procs| && LegalCoupons(s.tables)
    && ProcOk(s.tables, s.locks, i, s.requests[i], s.procs[i])
  }

  lemma InvIsLocal(s: State, i: nat)
    requires Inv(s) && i < |s.procs|
    ensures LocalOk(s, i)
  {
  }

  lemma LockDecisionIsOk(s: State, i: nat, country: Country)
    requires LocalOk(s, i) && s.procs[i].phase == Locking(country)
    ensures EffectOk(s, i, Lock(s, i, s.requests[i], country))
  {
  }

  lemma CheckDecisionIsOk(s: State, i: nat, c: CouponRow)
    requires LocalOk(s, i) && s.procs[i].phase == Checking(c)
    ensures s.requests[i].Redeem? && EffectOk(s, i, Check(s, i, s.requests[i], c))
  {
    hide LegalCoupons, Readable, Protocol.Valid, Key;
  }

  lemma InsertDecisionIsOk(s: State, i: nat, c: CouponRow)
    requires LocalOk(s, i) && s.procs[i].phase == Inserting(c)
    ensures s.requests[i].Redeem? && s.requests[i].geo.Located?
    ensures EffectOk(s, i, Insert(s, i, NewRedemption(s.requests[i], c.id), c))
  {
    var q := s.requests[i];
    FoundUnderKey(s.tables, Key(q));
    var r := NewRedemption(q, c.id);
    assert LegalRedemption(r);
    if r.id in s.tables.redemptions {
      assert Serial(s.tables, q) == (s.tables, InternalError);
    }
  }

  lemma UpdateDecisionIsOk(s: State, i: nat, c: CouponRow)
    requires LocalOk(s, i) && s.procs[i].phase == Updating(c)
    ensures s.requests[i].Redeem? && EffectOk(s, i, Update(s, i, s.requests[i], c))
  {
    hide ProcOk, View;
    UpdateIsReady(s.tables, s.locks, i, s.requests[i], c, s.procs[i].writes);
  }

  /** Under the lock and with its row inserted, a redemption finds its own coupon unchanged and may
      take one place of it. */
  lemma UpdateIsReady(t: Tables, locks: map<Uuid, nat>, i: nat, q: Request, c: CouponRow, w: Writes)
    requires LegalCoupons(t) && ProcOk(t, locks, i, q, Proc(Updating(c), w))
    ensures q.Redeem? && c.id in locks && locks[c.id] == i && w.coupon.None?
    ensures c.id in t.coupons && t.coupons[c.id] == c && c.currentUses < c.maxUses
    ensures var v := View(t, w); c.id in v.coupons && v.coupons[c.id] == c
    ensures var n := c.currentUses + 1;
            ProcOk(t, locks, i, q, Proc(Committing(Redeemed(q.id, c.code, q.user, q.at, c.maxUses - n)),
                                        w.(uses := Some((c.id, n)))))
  {
    FoundUnderKey(t, Key(q));
  }

  lemma StoreDecisionIsOk(s: State, i: nat)
    requires LocalOk(s, i) && s.procs[i].phase == Storing
    ensures s.requests[i].Create? && EffectOk(s, i, Store(s, i, NewCoupon(s.requests[i])))
  {
  }

  lemma ReadyDecisionIsOk(s: State, i: nat)
    requires LocalOk(s, i) && s.procs[i].phase.Ready?
    ensures EffectOk(s, i, Advance(s, i))
  {
    hide LegalCoupons, FindCoupon, Readable, Protocol.Valid, SerialRedeem, SerialCreate;
  }

  lemma SnapshotDecisionIsOk(s: State, i: nat)
    requires LocalOk(s, i) && s.procs[i].phase.Snapshotting?
    ensures EffectOk(s, i, Snapshot(s.tables, s.requests[i]))
  {
    var found := FindCoupon(s.tables, Key(s.requests[i]));
    if found.Some? {
      FoundUnderKey(s.tables, Key(s.requests[i]));
      ReadableMeansListed(found.value);
    }
    hide LegalCoupons, LegalCoupon, FindCoupon, Readable, Protocol.Valid, Key;
  }

  lemma ResolveDecisionIsOk(s: State, i: nat, snapshot: CouponRow)
    requires LocalOk(s, i) && s.procs[i].phase == Resolving(snapshot)
    ensures s.requests[i].Redeem? && EffectOk(s, i, Resolve(s.requests[i], snapshot))
  {
    var found := FindCoupon(s.tables, Key(s.requests[i])).value;
    FoundUnderKey(s.tables, Key(s.requests[i]));
    ReadableMeansListed(found);
    hide LegalCoupons, LegalCoupon, FindCoupon, Readable, Protocol.Valid, Key;
  }

  /** The uncommitted rows carry keys that no committed row has. */
  predicate KeysAreNew(t: Tables, w: Writes) {
    && (w.redemption.Some? ==> w.redemption.value.id !in t.redemptions)
    && (w.coupon.Some? ==>
          w.coupon.value.id !in t.coupons && w.coupon.value.normalizedCode !in t.couponByCode)
  }

  /** The writes at COMMIT are the serial meaning of the request on the committed tables. */
  lemma CommitMeaning(t: Tables, locks: map<Uuid, nat>, i: nat, q: Request, reply: Outcome, w: Writes)
    requires LegalCoupons(t) && ProcOk(t, locks, i, q, Proc(Committing(reply), w)) && KeysAreNew(t, w)
    ensures Serial(t, q) == (View(t, w), reply)
  {
    hide LegalCoupons, Readable, Protocol.Valid, HasRedeemed, Key, AddRedemption, SetUses, AddCoupon;
  }

  /** What COMMIT installs is what the request means when it runs alone on the committed tables. */
  lemma CommitDecisionIsOk(s: State, i: nat, ch: Choice)
    requires LocalOk(s, i) && s.procs[i].phase.Committing? && !ch.Fault?
    requires KeysAreNew(s.tables, s.procs[i].writes)
    ensures EffectOk(s, i, Decide(s, i, ch))
  {
    hide ProcOk, Serial, View;
    if s.procs[i].phase.Committing? {
      CommitMeaning(s.tables, s.locks, i, s.requests[i], s.procs[i].phase.reply, s.procs[i].writes);
    }
  }

  /** Failing, and leaving a transaction that has failed. */
  lemma OtherDecisionIsOk(s: State, i: nat, ch: Choice)
    requires LocalOk(s, i)
    requires ch.Proceed? ==> s.procs[i].phase.Unwinding? || Settled(s.procs[i].phase)
    requires ch.LoseAck? ==> !s.procs[i].phase.Committing?
    ensures EffectOk(s, i, Decide(s, i, ch))
  {
    hide LegalCoupons, FindCoupon, SerialRedeem, Readable, Protocol.Valid, HasRedeemed;
  }

  /** The uncommitted keys of a process are not in the tables. */
  lemma PendingKeysAreNew(s: State, i: nat)
    requires Inv(s) && i < |s.procs|
    ensures KeysAreNew(s.tables, s.procs[i].writes)
  {
    hide Legal, Consistent, ProcsOk, LocksOk;
    assert s.procs[i].writes.redemption.Some? ==> PendingRow(s, i);
    assert s.procs[i].writes.coupon.Some? ==> PendingCoupon(s, i);
  }

  lemma DecisionIsOk(s: State, i: nat, ch: Choice)
    requires Inv(s) && i < |s.procs|
    ensures EffectOk(s, i, Decide(s, i, ch))
  {
    hide Inv, LocalOk, EffectOk, ProcOk;
    InvIsLocal(s, i);
    PendingKeysAreNew(s, i);
    if ch.Proceed? {
      match s.procs[i].phase
      case Ready => ReadyDecisionIsOk(s, i);
      case Snapshotting => SnapshotDecisionIsOk(s, i);
      case Resolving(snapshot) => ResolveDecisionIsOk(s, i, snapshot);
      case Locking(country) => LockDecisionIsOk(s, i, country);
      case Checking(c) => CheckDecisionIsOk(s, i, c);
      case Inserting(c) => InsertDecisionIsOk(s, i, c);
      case Updating(c) => UpdateDecisionIsOk(s, i, c);
      case Storing => StoreDecisionIsOk(s, i);
      case Committing(_) => CommitDecisionIsOk(s, i, ch);
      case Unwinding(_) | Counting(_) | Finished(_) => OtherDecisionIsOk(s, i, ch);
    } else if ch.LoseAck? && s.procs[i].phase.Committing? {
      CommitDecisionIsOk(s, i, ch);
    } else {
      OtherDecisionIsOk(s, i, ch);
    }
  }

  // ---------------------------------------------------------------- each effect keeps the invariant

  /** What the writes of a process at COMMIT amount to. */
  lemma CommitInstalls(s: State, i: nat)
    requires LocalOk(s, i) && s.procs[i].phase.Committing?
    ensures var q, w := s.requests[i], s.procs[i].writes;
            if q.Create? then
              w.coupon == Some(NewCoupon(q)) && View(s.tables, w) == AddCoupon(s.tables, NewCoupon(q))
            else
              && q.geo.Located? && FindCoupon(s.tables, Key(q)).Some?
              && var c := FindCoupon(s.tables, Key(q)).value;
              && c.id in s.tables.coupons && c.id in s.locks && s.locks[c.id] == i
              && View(s.tables, w) == SetUses(AddRedemption(s.tables, NewRedemption(q, c.id)), c.id, c.currentUses + 1)
  {
    if s.requests[i].Redeem? {
      FoundUnderKey(s.tables, Key(s.requests[i]));
    }
  }

  lemma CommitGuarantees(s: State, i: nat, locks': map<Uuid, nat>, j: nat)
    requires LocalOk(s, i) && s.procs[i].phase.Committing? && j != i
    requires KeysAreNew(s.tables, s.procs[i].writes)
    requires forall c <- s.locks :: s.locks[c] == j ==> c in locks' && locks'[c] == j
    ensures Rely(s.tables, s.locks, View(s.tables, s.procs[i].writes), locks', j)
  {
    hide ProcOk, Rely, View, FindCoupon, LegalCoupons;
    var q := s.requests[i];
    CommitInstalls(s, i);
    if q.Create? {
      CreationGuarantees(s.tables, s.locks, NewCoupon(q), locks', j);
    } else {
      var c := FindCoupon(s.tables, Key(q)).value;
      RedemptionGuarantees(s.tables, s.locks, NewRedemption(q, c.id), c.currentUses + 1, locks', j);
    }
  }

  lemma ApplyGuarantees(s: State, i: nat, e: Effect, j: nat)
    requires Inv(s) && i < |s.procs| && j != i && EffectOk(s, i, e)
    ensures var s' := Apply(s, i, e); Rely(s.tables, s.locks, s'.tables, s'.locks, j)
  {
    hide Inv, LocalOk, Legal, Consistent, Meaning, View, ProcOk, Rely, Apply;
    InvIsLocal(s, i);
    var s' := Apply(s, i, e);
    ApplyRespectsLocks(s, i, e, j);
    if e.Commit? {
      PendingKeysAreNew(s, i);
      CommitGuarantees(s, i, s'.locks, j);
    } else {
      SameTablesGuarantee(s.tables, s.locks, s'.locks, j);
    }
  }

  lemma ApplyRespectsLocks(s: State, i: nat, e: Effect, j: nat)
    requires s.WellFormed() && i < |s.procs| && j != i && (e.Acquire? ==> !LockedByOther(s, i, e.coupon))
    ensures var s' := Apply(s, i, e);
            && s'.tables == (if e.Commit? then View(s.tables, s.procs[i].writes) else s.tables)
            && forall c <- s.locks :: s.locks[c] == j ==> c in s'.locks && s'.locks[c] == j
  {
  }

  lemma SameTablesGuarantee(t: Tables, locks: map<Uuid, nat>, locks': map<Uuid, nat>, j: nat)
    requires forall c <- locks :: locks[c] == j ==> c in locks' && locks'[c] == j
    ensures Rely(t, locks, t, locks', j)
  {
  }

  lemma CommitKeepsTables(s: State, i: nat)
    requires LocalOk(s, i) && s.procs[i].phase.Committing? && Legal(s.tables) && Consistent(s.tables)
    requires KeysAreNew(s.tables, s.procs[i].writes)
    ensures Legal(View(s.tables, s.procs[i].writes)) && Consistent(View(s.tables, s.procs[i].writes))
  {
    hide ProcOk, View, Legal, Consistent, FindCoupon;
    var q := s.requests[i];
    CommitInstalls(s, i);
    if q.Create? {
      CreationIsValid(s, i);
      NewCouponIsLegal(q);
      AddCouponKeeps(s.tables, NewCoupon(q));
    } else {
      RedemptionIsNew(s, i);
      RedeemKeeps(s.tables, NewRedemption(q, FindCoupon(s.tables, Key(q)).value.id));
    }
  }

  lemma CreationIsValid(s: State, i: nat)
    requires LocalOk(s, i) && s.procs[i].phase.Committing? && s.requests[i].Create?
    ensures Valid(s.requests[i])
  {
  }

  lemma RedemptionIsNew(s: State, i: nat)
    requires LocalOk(s, i) && s.procs[i].phase.Committing? && s.requests[i].Redeem?
    ensures s.requests[i].geo.Located? && FindCoupon(s.tables, Key(s.requests[i])).Some?
    ensures var c := FindCoupon(s.tables, Key(s.requests[i])).value;
            var r := NewRedemption(s.requests[i], c.id);
            && LegalRedemption(r) && PairOf(r) !in s.tables.redemptionByPair
            && c.id in s.tables.coupons && s.tables.coupons[c.id] == c && c.currentUses < c.maxUses
            && s.procs[i].writes.redemption == Some(r)
  {
  }

  lemma ApplyKeepsTables(s: State, i: nat, e: Effect)
    requires Inv(s) && i < |s.procs| && EffectOk(s, i, e)
    ensures var s' := Apply(s, i, e); Legal(s'.tables) && Consistent(s'.tables)
  {
    InvIsLocal(s, i);
    hide View, Serial, RecordedAtEnd, Release, ProcOk, Consistent, LegalCoupons, LegalRedemptions;
    if e.Commit? {
      PendingKeysAreNew(s, i);
      CommitKeepsTables(s, i);
    }
  }

  lemma ApplyKeepsProcs(s: State, i: nat, e: Effect)
    requires Inv(s) && i < |s.procs| && EffectOk(s, i, e)
    ensures ProcsOk(Apply(s, i, e))
  {
    var s' := Apply(s, i, e);
    forall j | 0 <= j < |s'.procs|
      ensures ProcOk(s'.tables, s'.locks, j, s'.requests[j], s'.procs[j])
    {
      if j != i {
        assert ProcOk(s.tables, s.locks, j, s.requests[j], s.procs[j]);
        ApplyGuarantees(s, i, e, j);
        ProcOkIsStable(s.tables, s.locks, s'.tables, s'.locks, j, s.requests[j], s.procs[j]);
      }
    }
  }

  lemma ApplyKeepsLocks(s: State, i: nat, e: Effect)
    requires Inv(s) && i < |s.procs| && EffectOk(s, i, e)
    ensures LocksOk(Apply(s, i, e))
  {
  }

  lemma ApplyKeepsPendingRows(s: State, i: nat, e: Effect)
    requires s.WellFormed() && i < |s.procs| && EffectOk(s, i, e) && PendingRowsOk(s)
    ensures PendingRowsOk(Apply(s, i, e))
  {
  }

  lemma ApplyKeepsPendingCoupons(s: State, i: nat, e: Effect)
    requires s.WellFormed() && i < |s.procs| && EffectOk(s, i, e) && PendingCouponsOk(s)
    ensures PendingCouponsOk(Apply(s, i, e))
  {
    hide Meaning, Release, RecordedAtEnd, RedemptionPending, Serial;
    var s' := Apply(s, i, e);
    forall j {:trigger PendingCoupon(s', j)} | j != i ensures PendingCoupon(s', j) <==> PendingCoupon(s, j) {}
    if e.Commit? && s.procs[i].writes.coupon.Some? {
      assert PendingCoupon(s, i);
    }
  }

  /** The invariant survives every move: any process, any choice, any state satisfying it. */
  lemma StepKeepsInv(s: State, i: nat, ch: Choice, s': State)
    requires Inv(s) && i < |s.procs| && Step(s, i, ch) == Some(s')
    ensures Inv(s') && s'.requests == s.requests
  {
    var e := Decide(s, i, ch);
    DecisionIsOk(s, i, ch);
    ApplyKeepsTables(s, i, e);
    ApplyKeepsProcs(s, i, e);
    ApplyKeepsLocks(s, i, e);
    ApplyKeepsPendingRows(s, i, e);
    ApplyKeepsPendingCoupons(s, i, e);
  }

  /** A move of one process leaves every other process exactly what it relies on: its locked row,
      the redemptions of that coupon, and the identity of every coupon. */
  lemma StepGuarantees(s: State, i: nat, ch: Choice, s': State, j: nat)
    requires Inv(s) && i < |s.procs| && j != i && Step(s, i, ch) == Some(s')
    ensures Rely(s.tables, s.locks, s'.tables, s'.locks, j)
  {
    DecisionIsOk(s, i, ch);
    ApplyGuarantees(s, i, Decide(s, i, ch), j);
  }

  lemma InitialInv(s: State)
    requires Initial(s)
    ensures Inv(s)
  {
  }

  /** In every state a run can reach, mid-transaction states and states after any fault and
      rollback included, the committed tables satisfy every constraint, each counter equals the
      number of redemption rows and stays within its limit, and no user redeemed a coupon twice. */
  lemma {:induction false} EveryRunKeepsInv(s0: State, moves: seq<Move>, s: State)
    requires Initial(s0) && Run(s0, moves) == Some(s)
    ensures Inv(s) && s.requests == s0.requests
    ensures forall c <- s.tables.coupons ::
              0 <= s.tables.coupons[c].currentUses == |RedemptionsOf(s.tables, c)| <= s.tables.coupons[c].maxUses
    ensures forall a, b | a in s.tables.redemptions && b in s.tables.redemptions
                          && s.tables.redemptions[a].couponId == s.tables.redemptions[b].couponId
                          && s.tables.redemptions[a].userId == s.tables.redemptions[b].userId :: a == b
    decreases |moves|
  {
    if moves == [] {
      InitialInv(s0);
    } else {
      var m := moves[|moves| - 1];
      var before := Run(s0, moves[..|moves| - 1]).value;
      EveryRunKeepsInv(s0, moves[..|moves| - 1], before);
      StepKeepsInv(before, m.who, m.choice, s);
    }
    LegalMeansUnique(s.tables);
  }
}
