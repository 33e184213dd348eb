/** The repositories as they are written: one database session that issues statement after statement
    while other sessions do anything that respects row locks and unique keys. The protocol modules
    say what any interleaving does; with this module the code of one request is proved against the
    same serial meaning. */
module Sessions {
  import opened Wrappers
  import opened Database
  import opened Protocol
  import opened ProtocolInvariant
  import opened Outcomes
  import opened SqlFailures

  /** Result of a Java call: a value or the exception it throws, named by the reply it causes. */
  datatype Try<T> = Returned(value: T) | Threw(reply: Outcome)

  datatype World = World(tables: Tables, locks: map<Uuid, nat>)

  ghost predicate Sound(w: World) {
    Legal(w.tables) && Consistent(w.tables)
  }

  /** The row locks session me holds. */
  function OwnLocks(locks: map<Uuid, nat>, me: nat): map<Uuid, nat> {
    map c | c in locks && locks[c] == me :: locks[c]
  }

  /** What other sessions may do between two statements of session me, whose uncommitted rows are
      mine: they respect its row locks, and its pending unique keys keep them waiting. */
  ghost predicate Tolerable(before: World, after: World, me: nat, mine: Writes) {
    && Sound(after)
    && Rely(before.tables, before.locks, after.tables, after.locks, me)
    && (forall c <- after.locks :: after.locks[c] == me ==> c in before.locks && before.locks[c] == me)
    && (KeysAreNew(before.tables, mine) ==> KeysAreNew(after.tables, mine))
  }

  /** The other processes of the protocol are such sessions: each of their moves is tolerable. */
  lemma MovesAreTolerable(s: State, i: nat, ch: Choice, s': State, j: nat)
    requires Inv(s) && i < |s.procs| && j < |s.procs| && i != j && Step(s, i, ch) == Some(s')
    ensures Tolerable(World(s.tables, s.locks), World(s'.tables, s'.locks), j, s.procs[j].writes)
  {
    StepGuarantees(s, i, ch, s', j);
    StepKeepsInv(s, i, ch, s');
    OthersStay(s, i, Decide(s, i, ch), j);
    hide *;
    assert s'.procs[j].writes.redemption.Some? ==> PendingRow(s', j);
    assert s'.procs[j].writes.coupon.Some? ==> PendingCoupon(s', j);
  }

  /** Doing nothing is tolerable, and so is one tolerable thing after another. */
  lemma NothingIsTolerable(w: World, me: nat, mine: Writes)
    requires Sound(w)
    ensures Tolerable(w, w, me, mine)
  {
  }

  lemma TolerableTwice(w0: World, w1: World, w2: World, me: nat, mine: Writes)
    requires Tolerable(w0, w1, me, mine) && Tolerable(w1, w2, me, mine)
    ensures Tolerable(w0, w2, me, mine)
  {
    hide Sound, Legal, Consistent, KeysAreNew;
    GrownTwice(w0.tables, w1.tables, w2.tables);
    hide Grown;
  }

  lemma GrownTwice(t0: Tables, t1: Tables, t2: Tables)
    requires Grown(t0, t1) && Grown(t1, t2)
    ensures Grown(t0, t2)
  {
  }

  /** Everything the other processes do between two statements of process j, in any number of moves
      and with any faults, is tolerable to it and leaves it where it stands. */
  lemma {:induction false} SegmentsAreTolerable(s: State, moves: seq<Move>, s': State, j: nat)
    requires Inv(s) && j < |s.procs| && Run(s, moves) == Some(s') && forall m <- moves :: m.who != j
    ensures Inv(s') && j < |s'.procs| && s'.procs[j] == s.procs[j]
    ensures Tolerable(World(s.tables, s.locks), World(s'.tables, s'.locks), j, s.procs[j].writes)
    decreases |moves|
  {
    if moves == [] {
      NothingIsTolerable(World(s.tables, s.locks), j, s.procs[j].writes);
    } else {
      var m := moves[|moves| - 1];
      var before := Run(s, moves[..|moves| - 1]).value;
      SegmentsAreTolerable(s, moves[..|moves| - 1], before, j);
      hide Tolerable, Inv;
      MovesAreTolerable(before, m.who, m.choice, s', j);
      StepKeepsInv(before, m.who, m.choice, s');
      OthersStay(before, m.who, Decide(before, m.who, m.choice), j);
      TolerableTwice(World(s.tables, s.locks), World(before.tables, before.locks), World(s'.tables, s'.locks), j,
        s.procs[j].writes);
    }
  }

  lemma OthersStay(s: State, i: nat, e: Effect, j: nat)
    requires s.WellFormed() && i < |s.procs| && j < |s.procs| && i != j
    ensures var s' := Apply(s, i, e);
            s'.procs[j] == s.procs[j] && forall c <- s'.locks :: s'.locks[c] == j ==> c in s.locks && s.locks[c] == j
  {
  }

  // ---------------------------------------------------------------- what each statement establishes

  /** While session me runs request q in this phase with these writes, the world w suits it. */
  ghost predicate Suits(w: World, me: nat, q: Request, phase: Phase, writes: Writes) {
    ProcOk(w.tables, w.locks, me, q, Proc(phase, writes))
  }

  lemma StillSuits(before: World, w: World, me: nat, q: Request, phase: Phase, writes: Writes)
    requires LegalCoupons(before.tables) && Suits(before, me, q, phase, writes)
    requires Rely(before.tables, before.locks, w.tables, w.locks, me)
    ensures Suits(w, me, q, phase, writes)
  {
    ProcOkIsStable(before.tables, before.locks, w.tables, w.locks, me, q, Proc(phase, writes));
  }

  lemma FoundIsRight(w: World, me: nat, q: Request)
    requires LegalCoupons(w.tables) && q.Redeem? && Valid(q) && q.geo.Located?
    ensures var found := FindCoupon(w.tables, Key(q));
            match found
            case None => Serial(w.tables, q) == (w.tables, NotFound)
            case Some(c) =>
              && (!Readable(c) ==> Serial(w.tables, q) == (w.tables, InternalError))
              && (Readable(c) && c.countryCode != q.geo.country ==>
                 Serial(w.tables, q) == (w.tables, CountryNotAllowed))
              && (Readable(c) && c.countryCode == q.geo.country && c.id in w.locks && w.locks[c.id] == me ==>
                    Suits(w, me, q, Checking(c), NO_WRITES))
  {
  }

  lemma CheckIsRight(w: World, me: nat, q: Request, c: CouponRow)
    requires LegalCoupons(w.tables) && Suits(w, me, q, Checking(c), NO_WRITES)
    ensures View(w.tables, NO_WRITES) == w.tables && q.Redeem?
    ensures if HasRedeemed(w.tables, c.id, q.user) then Serial(w.tables, q) == (w.tables, AlreadyRedeemed)
            else if c.currentUses >= c.maxUses then Serial(w.tables, q) == (w.tables, Exhausted)
            else Suits(w, me, q, Inserting(c), NO_WRITES)
  {
  }

  lemma InsertIsRight(w: World, me: nat, q: Request, c: CouponRow)
    requires LegalCoupons(w.tables) && Suits(w, me, q, Inserting(c), NO_WRITES)
    ensures q.Redeem? && q.geo.Located?
    ensures var r := NewRedemption(q, c.id);
            if r.id in w.tables.redemptions then Serial(w.tables, q) == (w.tables, InternalError)
            else
              && PairOf(r) !in w.tables.redemptionByPair && r.couponId in w.tables.coupons && LegalRedemption(r)
              && Suits(w, me, q, Updating(c), Writes(None, Some(r), None))
  {
  }

  lemma UpdateIsRight(w: World, me: nat, q: Request, c: CouponRow, writes: Writes)
    requires LegalCoupons(w.tables) && Suits(w, me, q, Updating(c), writes)
    ensures q.Redeem?
    ensures var v, n := View(w.tables, writes), c.currentUses + 1;
            && c.id in v.coupons && v.coupons[c.id] == c && c.currentUses < c.maxUses
            && Suits(w, me, q, Committing(Redeemed(q.id, c.code, q.user, q.at, c.maxUses - n)),
                     writes.(uses := Some((c.id, n))))
  {
    hide ProcOk, View;
    UpdateIsReady(w.tables, w.locks, me, q, c, writes);
  }

  lemma StoreIsRight(w: World, me: nat, q: Request)
    requires q.Create? && Protocol.Valid(q)
    ensures LegalCoupon(NewCoupon(q))
    ensures var r := NewCoupon(q);
            if r.id in w.tables.coupons || r.normalizedCode in w.tables.couponByCode then
              Serial(w.tables, q) == (w.tables, CodeConflict)
            else
              && Suits(w, me, q, Committing(Created(r)), Writes(Some(r), None, None))
              && KeysAreNew(w.tables, Writes(Some(r), None, None))
  {
  }

  lemma CommitIsRight(w: World, me: nat, q: Request, reply: Outcome, writes: Writes)
    requires Sound(w) && Suits(w, me, q, Committing(reply), writes) && KeysAreNew(w.tables, writes)
    ensures Serial(w.tables, q) == (View(w.tables, writes), reply)
    ensures Sound(World(View(w.tables, writes), w.locks))
  {
    var kept := Sound(World(View(w.tables, writes), w.locks));
    hide ProcOk, Serial, View, LegalCoupons, LegalRedemptions, Consistent, KeysAreNew;
    CommitMeaning(w.tables, w.locks, me, q, reply, writes);
    SerialKeeps(w.tables, q);
    assert kept;
  }

  /** What the statements before COMMIT or ROLLBACK came to, when all of them went well or one threw. */
  function DecidedAs(t: Tables, q: Request, smooth: bool): Outcome {
    Meaning(t, q, if smooth then Normal else Faulted).1
  }

  // ---------------------------------------------------------------- the repository

  /** One database session and the world around it: the methods of JdbcCouponRedemptionRepository,
      plus COMMIT and ROLLBACK. */
  class Session {
    var tables: Tables            // committed rows
    var locks: map<Uuid, nat>     // row locks
    var writes: Writes            // uncommitted writes of this session
    var clock: nat                // statements issued so far
    const me: nat
    const others: (nat, World, Writes) -> World   // what other sessions do before statement n
    const granted: (nat, World, string) -> World        // the world in which a FOR UPDATE is granted
    const fails: nat -> bool                            // whether statement n throws
    const ackLost: nat -> bool                          // whether the acknowledgement of commit n is lost
    const wrapped: SqlError -> Throwable                // the exception that carries a server error

    ghost predicate WellBehaved() {
      && (forall n, w, mine :: Sound(w) ==> Tolerable(w, others(n, w, mine), me, mine))
      && (forall n, w, code :: Sound(w) ==>
            var w' := granted(n, w, code);
            && Tolerable(w, w', me, NO_WRITES)
            && (FindCoupon(w'.tables, code).Some? ==>
                  var c := FindCoupon(w'.tables, code).value.id; c in w'.locks ==> w'.locks[c] == me))
      && (forall e :: Reports(wrapped(e), e))
    }

    lemma Wraps(e: SqlError)
      requires WellBehaved()
      ensures forall name :: NamesConstraint(wrapped(e), name) <==> e.constraint == Some(name)
      ensures forall state :: HasState(wrapped(e), state) <==> e.state == state
    {
    }

    /** No statement issued between these two readings of the clock throws. */
    ghost predicate Smooth(from: nat, to: nat) {
      forall n :: from <= n < to ==> !fails(n)
    }

    /** The other sessions change no table. */
    ghost predicate Quiet() {
      && (forall n, w, mine :: others(n, w, mine).tables == w.tables)
      && (forall n, w, code :: granted(n, w, code).tables == w.tables)
    }

    ghost predicate Valid()
      reads this
    {
      Sound(World(tables, locks))
    }

    /** Outside a transaction: nothing written, nothing locked. */
    ghost predicate Idle()
      reads this
    {
      writes == NO_WRITES && forall c <- locks :: locks[c] != me
    }

    constructor (t: Tables, me: nat, others: (nat, World, Writes) -> World,
                 granted: (nat, World, string) -> World, fails: nat -> bool, ackLost: nat -> bool,
                 wrapped: SqlError -> Throwable)
      ensures tables == t && locks == map[] && writes == NO_WRITES && clock == 0
      ensures this.me == me && this.others == others && this.granted == granted
      ensures this.fails == fails && this.ackLost == ackLost && this.wrapped == wrapped
    {
      this.tables, this.locks, this.writes, this.clock := t, map[], NO_WRITES, 0;
      this.me, this.others, this.granted := me, others, granted;
      this.fails, this.ackLost, this.wrapped := fails, ackLost, wrapped;
    }

    /** Other sessions run. */
    method Interleave()
      requires WellBehaved() && Valid()
      modifies this`tables, this`locks, this`clock
      ensures Valid()
      ensures Tolerable(old(World(tables, locks)), World(tables, locks), me, old(writes))
      ensures clock == old(clock) + 1
      ensures Quiet() ==> tables == old(tables)
    {
      var w := others(clock, World(tables, locks), writes);
      tables, locks, clock := w.tables, w.locks, clock + 1;
    }

    /** SELECT ... WHERE normalized_code = :code, without a lock. */
    method FindSnapshot(code: string) returns (r: Try<Option<CouponRow>>)
      requires WellBehaved() && Valid()
      modifies this`tables, this`locks, this`clock
      ensures Valid() && clock == old(clock) + 1
      ensures old(Idle()) ==> Idle()
      ensures Quiet() ==> tables == old(tables)
      ensures Tolerable(old(World(tables, locks)), World(tables, locks), me, old(writes))
      ensures var row := FindCoupon(tables, code);
              r == if fails(old(clock)) || (row.Some? && !Readable(row.value)) then Threw(InternalError)
                  else Returned(row)
    {
      Interleave();
      var row := FindCoupon(tables, code);
      if fails(clock - 1) || (row.Some? && !Readable(row.value)) {
        return Threw(InternalError);
      }
      return Returned(row);
    }

    /** SELECT ... WHERE normalized_code = :code FOR UPDATE: runs once nobody else holds the row. */
    method FindForUpdate(code: string) returns (r: Try<Option<CouponRow>>)
      requires WellBehaved() && Valid() && Idle()
      modifies this`tables, this`locks, this`clock
      ensures Valid() && clock == old(clock) + 1
      ensures Quiet() ==> tables == old(tables)
      ensures Grown(old(tables), tables)
      ensures fails(old(clock)) ==> r == Threw(InternalError) && Idle()
      ensures !fails(old(clock)) ==>
                match FindCoupon(tables, code)
                case None => r == Returned(None) && Idle()
                case Some(c) =>
                  && r == (if Readable(c) then Returned(Some(c)) else Threw(InternalError))
                  && c.id in locks && locks[c.id] == me
    {
      var n := clock;
      var w := granted(n, World(tables, locks), code);
      tables, locks, clock := w.tables, w.locks, n + 1;
      if fails(n) {
        return Threw(InternalError);
      }
      var row := FindCoupon(tables, code);
      if row.None? {
        return Returned(None);
      }
      locks := locks[row.value.id := me];
      return if Readable(row.value) then Returned(row) else Threw(InternalError);
    }

    /** SELECT COUNT(*) ...: whether the user already redeemed the coupon. */
    method Exists(coupon: Uuid, user: string) returns (r: Try<bool>)
      requires WellBehaved() && Valid()
      modifies this`tables, this`locks, this`clock
      ensures Valid() && clock == old(clock) + 1
      ensures Quiet() ==> tables == old(tables)
      ensures Tolerable(old(World(tables, locks)), World(tables, locks), me, old(writes))
      ensures r == if fails(old(clock)) then Threw(InternalError)
              else Returned(HasRedeemed(View(tables, writes), coupon, user))
    {
      hide WellBehaved, Quiet, Sound, Rely;
      Interleave();
      if fails(clock - 1) {
        return Threw(InternalError);
      }
      return Returned(HasRedeemed(View(tables, writes), coupon, user));
    }

    /** INSERT INTO coupon_redemptions: a violation of the pair constraint, and only that one, is
        reported as an earlier redemption. */
    method Insert(row: RedemptionRow) returns (r: Try<()>)
      requires WellBehaved() && Valid() && writes == NO_WRITES
      modifies this`tables, this`locks, this`clock, this`writes
      ensures Valid() && clock == old(clock) + 1
      ensures Quiet() ==> tables == old(tables)
      ensures Tolerable(old(World(tables, locks)), World(tables, locks), me, old(writes))
      ensures writes == if r.Returned? then Writes(None, Some(row), None) else NO_WRITES
      ensures r == if fails(old(clock)) || row.id in tables.redemptions then Threw(InternalError)
                   else if PairOf(row) in tables.redemptionByPair then Threw(AlreadyRedeemed)
                   else if row.couponId !in tables.coupons || !LegalRedemption(row) then Threw(InternalError)
                   else Returned(())
    {
      hide WellBehaved, Quiet, Sound, Rely;
      Interleave();
      if fails(clock - 1) {
        return Threw(InternalError);
      }
      var error := RedemptionError(tables, row);
      if error.Some? {
        Wraps(error.value);
        var named := HasNamedConstraint(wrapped(error.value), USER_CONSTRAINT);
        return if named then Threw(AlreadyRedeemed) else Threw(InternalError);
      }
      writes := writes.(redemption := Some(row));
      return Returned(());
    }

    /** INSERT INTO coupons: every unique violation is reported as a conflict of codes. */
    method InsertCoupon(row: CouponRow) returns (r: Try<()>)
      requires WellBehaved() && Valid() && writes == NO_WRITES
      modifies this`tables, this`locks, this`clock, this`writes
      ensures Valid() && clock == old(clock) + 1
      ensures Quiet() ==> tables == old(tables)
      ensures Tolerable(old(World(tables, locks)), World(tables, locks), me, old(writes))
      ensures writes == if r.Returned? then Writes(Some(row), None, None) else NO_WRITES
      ensures r == if fails(old(clock)) then Threw(InternalError)
                   else if row.id in tables.coupons || row.normalizedCode in tables.couponByCode
                   then Threw(CodeConflict)
                   else if !LegalCoupon(row) then Threw(InternalError)
                   else Returned(())
    {
      hide WellBehaved, Quiet, Sound, Rely;
      Interleave();
      if fails(clock - 1) {
        return Threw(InternalError);
      }
      var error := CouponError(tables, row);
      if error.Some? {
        Wraps(error.value);
        var unique := HasSqlState(wrapped(error.value), UNIQUE_VIOLATION);
        return if unique then Threw(CodeConflict) else Threw(InternalError);
      }
      writes := writes.(coupon := Some(row));
      return Returned(());
    }

    /** UPDATE coupons SET current_uses = current_uses + 1 WHERE id = :id AND current_uses < max_uses RETURNING. */
    method IncrementIfCapacity(coupon: Uuid) returns (r: Try<Option<int>>)
      requires WellBehaved() && Valid()
      modifies this`tables, this`locks, this`clock, this`writes
      ensures Valid() && clock == old(clock) + 1
      ensures Quiet() ==> tables == old(tables)
      ensures Tolerable(old(World(tables, locks)), World(tables, locks), me, old(writes))
      ensures var v := View(tables, old(writes));
              if fails(old(clock)) then
                r == Threw(InternalError) && writes == old(writes)
              else if coupon in v.coupons && v.coupons[coupon].currentUses < v.coupons[coupon].maxUses then
                var n := v.coupons[coupon].currentUses + 1;
                r == Returned(Some(n)) && writes == old(writes).(uses := Some((coupon, n)))
              else
                r == Returned(None) && writes == old(writes)
    {
      hide WellBehaved, Quiet, Sound, Rely;
      Interleave();
      if fails(clock - 1) {
        return Threw(InternalError);
      }
      var v := View(tables, writes);
      if coupon in v.coupons && v.coupons[coupon].currentUses < v.coupons[coupon].maxUses {
        var n := v.coupons[coupon].currentUses + 1;
        writes := writes.(uses := Some((coupon, n)));
        return Returned(Some(n));
      }
      return Returned(None);
    }

    /** BEGIN, or the connection it needs. */
    method Begin() returns (r: Try<()>)
      requires WellBehaved() && Valid() && Idle()
      modifies this`tables, this`locks, this`clock
      ensures Valid() && Idle() && clock == old(clock) + 1
      ensures Quiet() ==> tables == old(tables)
      ensures r == if fails(old(clock)) then Threw(InternalError) else Returned(())
    {
      hide WellBehaved, Quiet, Sound, Rely;
      Interleave();
      return if fails(clock - 1) then Threw(InternalError) else Returned(());
    }

    /** The server undoes the transaction: writes and row locks of this session are gone, nothing else
        changes. */
    method Undo()
      requires WellBehaved() && Valid()
      modifies this`locks, this`writes
      ensures Valid() && Idle()
      ensures forall c <- locks :: c in old(locks) && old(locks)[c] == locks[c]
    {
      locks, writes := Release(locks, me), NO_WRITES;
    }

    /** ROLLBACK. When it fails the connection is given up, and the server undoes the same. */
    method Rollback() returns (r: Try<()>)
      requires WellBehaved() && Valid()
      modifies this`locks, this`writes, this`clock
      ensures Valid() && Idle() && clock == old(clock) + 1
      ensures forall c <- locks :: c in old(locks) && old(locks)[c] == locks[c]
      ensures r == if fails(old(clock)) then Threw(InternalError) else Returned(())
    {
      Undo();
      clock := clock + 1;
      return if fails(clock - 1) then Threw(InternalError) else Returned(());
    }

    /** The durable part of COMMIT: writes installed, row locks released. */
    method Install()
      requires WellBehaved() && Valid() && Sound(World(View(tables, writes), locks))
      modifies this`tables, this`locks, this`writes
      ensures Valid() && Idle() && tables == old(View(tables, writes))
    {
      ghost var sound := Sound(World(View(tables, writes), locks));
      tables, locks, writes := View(tables, writes), Release(locks, me), NO_WRITES;
      assert sound;
    }

    /** Other sessions run for the last time before COMMIT. */
    method ReachCommit(ghost q: Request, ghost reply: Outcome)
      requires WellBehaved() && Valid() && ReadyToCommit(q, reply)
      modifies this`tables, this`locks, this`clock
      ensures Valid() && clock == old(clock) + 1
      ensures Quiet() ==> tables == old(tables)
      ensures Serial(tables, q) == (View(tables, writes), reply)
      ensures Sound(World(View(tables, writes), locks))
    {
      hide ProcOk;
      ghost var before := World(tables, locks);
      Interleave();
      ghost var sound := Sound(World(View(tables, writes), locks));
      StillSuits(before, World(tables, locks), me, q, Committing(reply), writes);
      CommitIsRight(World(tables, locks), me, q, reply, writes);
      assert sound;
    }

    /** COMMIT: it fails and is rolled back, or it installs the writes; then its
        acknowledgement may still be lost. Whatever happens is the serial meaning of the request on
        the tables found at that moment. */
    method Commit(ghost q: Request, ghost reply: Outcome) returns (r: Try<()>, ghost seen: Tables,
          ghost how: Disposition)
      requires WellBehaved() && Valid() && ReadyToCommit(q, reply)
      modifies this
      ensures Valid() && Idle() && clock == old(clock) + 1
      ensures Quiet() ==> seen == old(tables)
      ensures Serial(seen, q).1 == reply
      ensures Meaning(seen, q, how) == (tables, if r.Returned? then reply else InternalError)
      ensures r.Threw? ==> r.reply == InternalError
      ensures how == if fails(old(clock)) then Faulted else if ackLost(old(clock)) then AckLost else Normal
      ensures r.Returned? <==> how.Normal?
    {
      ReachCommit(q, reply);
      seen := tables;
      ghost var installed := View(tables, writes);
      if fails(clock - 1) {
        r, how := Threw(InternalError), Faulted;
        Undo();
        assert Meaning(seen, q, Faulted) == (seen, InternalError);
      } else if ackLost(clock - 1) {
        r, how := Threw(InternalError), AckLost;
        Install();
        assert Meaning(seen, q, AckLost) == (installed, InternalError);
      } else {
        r, how := Returned(()), Normal;
        Install();
        assert Meaning(seen, q, Normal) == (installed, reply);
      }
    }

    /** Everything is written and nothing of it has become wrong. */
    ghost predicate ReadyToCommit(q: Request, reply: Outcome)
      reads this
    {
      && KeysAreNew(tables, writes)
      && Suits(World(tables, locks), me, q, Committing(reply), writes)
    }
  }
}
