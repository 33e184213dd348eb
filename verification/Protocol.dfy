/** Concurrent coupon requests over one PostgreSQL database.

    A state holds the committed tables, the row-lock table and one process per request. An adversary
    schedules the processes statement by statement, and may make any statement fail or lose the
    acknowledgement of a commit. What a request will meet outside the database (the country the
    provider answers, its fresh identifier, its clock reading) is part of the request, so a claim
    about all requests is a claim about every such answer. */
module Protocol {
  import opened Wrappers
  import opened Text
  import opened CouponDomain
  import opened Database

  /** Answer of client-address resolution followed by geolocation. */
  datatype Geo = Located(country: Country) | Unresolved

  datatype Request =
    | Redeem(code: string, user: string, geo: Geo, id: Uuid, at: Instant)
    | Create(code: string, maxUses: int, country: string, id: Uuid, at: Instant)

  datatype Outcome =
    | Redeemed(id: Uuid, code: string, user: string, at: Instant, remaining: int)
    | NotFound
    | CountryNotAllowed
    | AlreadyRedeemed
    | Exhausted
    | GeolocationUnavailable
    | InternalError
    | Created(coupon: CouponRow)
    | CodeConflict
    | InvalidRequest

  predicate LocatedIn(geo: Geo, country: string) { geo.Located? && geo.country == country }

  // ---------------------------------------------------------------- requests

  function Key(q: Request): string { CanonicalCode(q.code) }

  predicate Valid(q: Request) {
    match q
    case Redeem(code, user, _, _, _) => CodeFormat(Trim(code)) && UserIdFormat(user)
    case Create(code, maxUses, country, _, _) =>
      CodeFormat(Trim(code)) && NamesCountry(country) && 1 <= maxUses <= MAX_USES_LIMIT
  }

  function NewRedemption(q: Request, coupon: Uuid): RedemptionRow
    requires q.Redeem? && q.geo.Located?
  {
    RedemptionRow(q.id, coupon, q.user, q.geo.country, q.at)
  }

  function NewCoupon(q: Request): CouponRow
    requires q.Create?
  {
    CouponRow(q.id, Trim(q.code), Key(q), q.at, q.maxUses, 0, Upper(Trim(q.country)))
  }

  // ---------------------------------------------------------------- the sequential meaning

  /** The whole effect of a request when nothing else runs: new tables and reply. */
  function Serial(t: Tables, q: Request): (Tables, Outcome) {
    if !Valid(q) then (t, InvalidRequest)
    else if q.Redeem? then SerialRedeem(t, q)
    else SerialCreate(t, q)
  }

  function SerialRedeem(t: Tables, q: Request): (Tables, Outcome)
    requires q.Redeem?
  {
    match FindCoupon(t, Key(q))
    case None => (t, NotFound)
    case Some(c) =>
      if !Readable(c) then (t, InternalError)
      else if q.geo.Unresolved? then (t, GeolocationUnavailable)
      else if c.countryCode != q.geo.country then (t, CountryNotAllowed)
      else if HasRedeemed(t, c.id, q.user) then (t, AlreadyRedeemed)
      else if c.currentUses >= c.maxUses then (t, Exhausted)
      else if q.id in t.redemptions then (t, InternalError)
      else
        (SetUses(AddRedemption(t, NewRedemption(q, c.id)), c.id, c.currentUses + 1),
         Redeemed(q.id, c.code, q.user, q.at, c.maxUses - (c.currentUses + 1)))
  }

  /** Every unique violation of the INSERT, the primary key included, is reported as a code conflict. */
  function SerialCreate(t: Tables, q: Request): (Tables, Outcome)
    requires q.Create?
  {
    var r := NewCoupon(q);
    if r.id in t.coupons || r.normalizedCode in t.couponByCode then (t, CodeConflict)
    else (AddCoupon(t, r), Created(r))
  }

  /** How a request left the database: undisturbed, with its commit durable but unacknowledged,
      or broken off by a failing statement. */
  datatype Disposition = Normal | AckLost | Faulted

  /** The serial meaning of a request that left the database in a given way. */
  function Meaning(t: Tables, q: Request, how: Disposition): (Tables, Outcome) {
    match how
    case Normal => Serial(t, q)
    case AckLost => (Serial(t, q).0, InternalError)
    case Faulted => (t, InternalError)
  }

  // ---------------------------------------------------------------- states

  datatype Verdict = Rejected(reply: Outcome) | Crashed

  /** Where a request stands; each phase names what it does next. */
  datatype Phase =
    | Ready                             // validate the command
    | Snapshotting                      // SELECT without a lock
    | Resolving(snapshot: CouponRow)    // client address, country, early country check
    | Locking(country: Country)         // BEGIN; SELECT ... FOR UPDATE; country check
    | Checking(c: CouponRow)            // SELECT COUNT(*); capacity check on the locked copy
    | Inserting(c: CouponRow)           // INSERT INTO coupon_redemptions
    | Updating(c: CouponRow)            // conditional UPDATE ... RETURNING
    | Storing                           // BEGIN; INSERT INTO coupons
    | Committing(reply: Outcome)        // COMMIT
    | Unwinding(verdict: Verdict)       // an exception leaves the transaction: ROLLBACK
    | Counting(reply: Outcome)          // the transaction is over: one counter, then the reply
    | Finished(reply: Outcome)

  /** The database is done with the request; its reply is fixed, given or not. */
  predicate Settled(p: Phase) { p.Counting? || p.Finished? }

  datatype Proc = Proc(phase: Phase, writes: Writes)

  datatype Entry = Entry(who: nat, how: Disposition)

  /** Counters of the metrics facade. */
  datatype Metric = RedeemOutcome(kind: Kind) | CreateSuccess | CreateConflict

  datatype Kind = KSuccess | KNotFound | KCountry | KAlready | KExhausted | KGeolocation | KInternal

  datatype State = State(
    requests: seq<Request>, tables: Tables, locks: map<Uuid, nat>, procs: seq<Proc>,
    log: seq<Entry>, metrics: multiset<Metric>)
  {
    predicate WellFormed() { |procs| == |requests| }
  }

  function KindOf(o: Outcome): Kind {
    match o
    case Redeemed(_, _, _, _, _) => KSuccess
    case NotFound => KNotFound
    case CountryNotAllowed => KCountry
    case AlreadyRedeemed => KAlready
    case Exhausted => KExhausted
    case GeolocationUnavailable => KGeolocation
    case _ => KInternal
  }

  /** Whether a counter moves between the end of the transaction and the reply. Validation failures of
      a redemption are thrown before the counted block, and creations count inside their transaction. */
  predicate CountedAtEnd(q: Request, reply: Outcome) { q.Redeem? && !reply.InvalidRequest? }

  function RecordedAtEnd(q: Request, reply: Outcome): multiset<Metric> {
    if CountedAtEnd(q, reply) then multiset{RedeemOutcome(KindOf(reply))} else multiset{}
  }

  /** Where a request stands when its transaction is over. */
  function Outside(q: Request, reply: Outcome): Phase {
    if CountedAtEnd(q, reply) then Counting(reply) else Finished(reply)
  }

  // ---------------------------------------------------------------- steps

  datatype Choice = Proceed | Fault | LoseAck

  function Release(locks: map<Uuid, nat>, i: nat): map<Uuid, nat> {
    map c | c in locks && locks[c] != i :: locks[c]
  }

  predicate LockedByOther(s: State, i: nat, coupon: Uuid) {
    coupon in s.locks && s.locks[coupon] != i
  }

  /** Another open transaction has inserted a redemption with the same primary key or pair. */
  predicate RedemptionPending(s: State, i: nat, r: RedemptionRow) {
    exists j :: 0 <= j < |s.procs| && j != i && s.procs[j].writes.redemption.Some?
                && (s.procs[j].writes.redemption.value.id == r.id
                    || PairOf(s.procs[j].writes.redemption.value) == PairOf(r))
  }

  /** Another open transaction has inserted a coupon with the same primary key or code. */
  predicate CouponPending(s: State, i: nat, r: CouponRow) {
    exists j :: 0 <= j < |s.procs| && j != i && s.procs[j].writes.coupon.Some?
                && (s.procs[j].writes.coupon.value.id == r.id
                    || s.procs[j].writes.coupon.value.normalizedCode == r.normalizedCode)
  }

  /** Another open transaction has updated this coupon and not yet committed. */
  predicate UpdatePending(s: State, i: nat, coupon: Uuid) {
    exists j :: 0 <= j < |s.procs| && j != i && s.procs[j].writes.uses.Some?
                && s.procs[j].writes.uses.value.0 == coupon
  }

  /** What one move does to the state. */
  datatype Effect =
    | Wait                                                          // impossible now, or blocked
    | Goto(phase: Phase)
    | Acquire(coupon: Uuid, phase: Phase)                           // row lock taken
    | Write(writes: Writes, phase: Phase, counted: multiset<Metric>) // uncommitted write
    | Leave(reply: Outcome, how: Disposition)                       // end without durable effect
    | Commit(reply: Outcome, how: Disposition)                      // install the writes and end
    | Answer(reply: Outcome)                                        // count and reply

  function Apply(s: State, i: nat, e: Effect): State
    requires s.WellFormed() && i < |s.procs|
  {
    var p := s.procs[i];
    match e
    case Wait => s
    case Goto(phase) => s.(procs := s.procs[i := p.(phase := phase)])
    case Acquire(coupon, phase) =>
      s.(procs := s.procs[i := p.(phase := phase)], locks := s.locks[coupon := i])
    case Write(writes, phase, counted) =>
      s.(procs := s.procs[i := Proc(phase, writes)], metrics := s.metrics + counted)
    case Leave(reply, how) => End(s, i, reply, how)
    case Commit(reply, how) => End(s.(tables := View(s.tables, p.writes)), i, reply, how)
    case Answer(reply) =>
      s.(procs := s.procs[i := p.(phase := Finished(reply))],
         metrics := s.metrics + RecordedAtEnd(s.requests[i], reply))
  }

  /** The phase an effect leads to. */
  function PhaseAfter(q: Request, p: Phase, e: Effect): Phase {
    match e
    case Wait => p
    case Goto(phase) => phase
    case Acquire(_, phase) => phase
    case Write(_, phase, _) => phase
    case Leave(reply, _) => Outside(q, reply)
    case Commit(reply, _) => Outside(q, reply)
    case Answer(reply) => Finished(reply)
  }

  /** The transaction is over: its locks and uncommitted writes are gone. */
  function End(s: State, i: nat, reply: Outcome, how: Disposition): State
    requires s.WellFormed() && i < |s.procs|
  {
    s.(procs := s.procs[i := Proc(Outside(s.requests[i], reply), NO_WRITES)],
       locks := Release(s.locks, i),
       log := s.log + [Entry(i, how)])
  }

  /** What process i does when it is scheduled with choice ch. */
  function Decide(s: State, i: nat, ch: Choice): Effect
    requires s.WellFormed() && i < |s.procs|
  {
    match ch
    case Proceed => Advance(s, i)
    case Fault => Fail(s.requests[i], s.procs[i].phase)
    case LoseAck => if s.procs[i].phase.Committing? then Commit(InternalError, AckLost) else Wait
  }

  /** A statement throws, BEGIN and ROLLBACK included. Before any lock or write there is nothing to
      undo. A creation is inside its transaction from the start; a failing ROLLBACK replaces the
      exception that caused it, and the server undoes what it was to undo. */
  function Fail(q: Request, phase: Phase): Effect {
    match phase
    case Ready => if q.Create? then Leave(InternalError, Faulted) else Wait
    case Snapshotting | Resolving(_) | Locking(_) | Storing => Leave(InternalError, Faulted)
    case Checking(_) | Inserting(_) | Updating(_) | Committing(_) => Goto(Unwinding(Crashed))
    case Unwinding(_) => Leave(InternalError, Faulted)
    case Counting(_) | Finished(_) => Wait
  }

  function Advance(s: State, i: nat): Effect
    requires s.WellFormed() && i < |s.procs|
  {
    var q := s.requests[i];
    match s.procs[i].phase
    case Ready =>
      if !Valid(q) then Leave(InvalidRequest, Normal)
      else Goto(if q.Redeem? then Snapshotting else Storing)
    case Snapshotting => Snapshot(s.tables, q)
    case Resolving(snapshot) => if q.Redeem? then Resolve(q, snapshot) else Wait
    case Locking(country) => Lock(s, i, q, country)
    case Checking(c) => if q.Redeem? then Check(s, i, q, c) else Wait
    case Inserting(c) =>
      if q.Redeem? && q.geo.Located? then Insert(s, i, NewRedemption(q, c.id), c) else Wait
    case Updating(c) => if q.Redeem? then Update(s, i, q, c) else Wait
    case Storing => if q.Create? then Store(s, i, NewCoupon(q)) else Wait
    case Committing(reply) => Commit(reply, Normal)
    case Unwinding(Rejected(reply)) => Leave(reply, Normal)
    case Unwinding(Crashed) => Leave(InternalError, Faulted)
    case Counting(reply) => Answer(reply)
    case Finished(_) => Wait
  }

  function Snapshot(t: Tables, q: Request): Effect {
    match FindCoupon(t, Key(q))
    case None => Leave(NotFound, Normal)
    case Some(c) => if !Readable(c) then Leave(InternalError, Normal) else Goto(Resolving(c))
  }

  function Resolve(q: Request, snapshot: CouponRow): Effect
    requires q.Redeem?
  {
    if q.geo.Unresolved? then Leave(GeolocationUnavailable, Normal)
    else if snapshot.countryCode != q.geo.country then Leave(CountryNotAllowed, Normal)
    else Goto(Locking(q.geo.country))
  }

  /** FOR UPDATE waits for the holder and then reads the newest committed row. */
  function Lock(s: State, i: nat, q: Request, country: Country): Effect {
    match FindCoupon(s.tables, Key(q))
    case None => Leave(NotFound, Normal)
    case Some(c) =>
      if LockedByOther(s, i, c.id) then Wait
      else if !Readable(c) then Acquire(c.id, Unwinding(Rejected(InternalError)))
      else if c.countryCode != country then Acquire(c.id, Unwinding(Rejected(CountryNotAllowed)))
      else Acquire(c.id, Checking(c))
  }

  function Check(s: State, i: nat, q: Request, c: CouponRow): Effect
    requires i < |s.procs| && q.Redeem?
  {
    if HasRedeemed(View(s.tables, s.procs[i].writes), c.id, q.user)
    then Goto(Unwinding(Rejected(AlreadyRedeemed)))
    else if c.currentUses >= c.maxUses then Goto(Unwinding(Rejected(Exhausted)))
    else Goto(Inserting(c))
  }

  /** Only the pair constraint maps to AlreadyRedeemed; the key index is checked first. */
  function Insert(s: State, i: nat, r: RedemptionRow, c: CouponRow): Effect
    requires i < |s.procs|
  {
    if r.id in s.tables.redemptions then Goto(Unwinding(Rejected(InternalError)))
    else if PairOf(r) in s.tables.redemptionByPair then Goto(Unwinding(Rejected(AlreadyRedeemed)))
    else if r.couponId !in s.tables.coupons || !LegalRedemption(r)
    then Goto(Unwinding(Rejected(InternalError)))
    else if RedemptionPending(s, i, r) then Wait
    else Write(s.procs[i].writes.(redemption := Some(r)), Updating(c), multiset{})
  }

  function Update(s: State, i: nat, q: Request, c: CouponRow): Effect
    requires i < |s.procs| && q.Redeem?
  {
    var v := View(s.tables, s.procs[i].writes);
    if LockedByOther(s, i, c.id) then Wait
    else if c.id !in v.coupons || v.coupons[c.id].currentUses >= v.coupons[c.id].maxUses
    then Goto(Unwinding(Rejected(InternalError)))
    else
      var n := v.coupons[c.id].currentUses + 1;
      Write(s.procs[i].writes.(uses := Some((c.id, n))),
            Committing(Redeemed(q.id, c.code, q.user, q.at, c.maxUses - n)), multiset{})
  }

  /** The stored coupon a new row collides with; the key index is checked first. */
  function Occupant(t: Tables, r: CouponRow): Option<Uuid> {
    if r.id in t.coupons then Some(r.id)
    else if r.normalizedCode in t.couponByCode then Some(t.couponByCode[r.normalizedCode])
    else None
  }

  /** A unique check waits for whoever is changing the row it collides with. Both counters of creation
      are incremented here, before the proxy commits or rolls back. */
  function Store(s: State, i: nat, r: CouponRow): Effect
    requires i < |s.procs|
  {
    match Occupant(s.tables, r)
    case Some(c) =>
      if UpdatePending(s, i, c) then Wait
      else Write(s.procs[i].writes, Unwinding(Rejected(CodeConflict)), multiset{CreateConflict})
    case None =>
      if !LegalCoupon(r) then Leave(InternalError, Normal)
      else if CouponPending(s, i, r) then Wait
      else Write(s.procs[i].writes.(coupon := Some(r)), Committing(Created(r)), multiset{CreateSuccess})
  }

  /** One move of process i; None when the move is impossible or the statement has to wait. */
  function Step(s: State, i: nat, ch: Choice): Option<State>
    requires s.WellFormed() && i < |s.procs|
  {
    var e := Decide(s, i, ch);
    if e.Wait? then None else Some(Apply(s, i, e))
  }

  // ---------------------------------------------------------------- runs

  datatype Move = Move(who: nat, choice: Choice)

  /** The state after the moves, or None if some move was impossible when its turn came. */
  function Run(s0: State, moves: seq<Move>): (r: Option<State>) {
    if moves == [] then Some(s0)
    else
      var m := moves[|moves| - 1];
      match Run(s0, moves[..|moves| - 1])
      case None => None
      case Some(s) => if s.WellFormed() && m.who < |s.procs| then Step(s, m.who, m.choice) else None
  }

  /** The state in which the database is t and all requests are still to come. */
  function Start(t: Tables, qs: seq<Request>): State {
    State(qs, t, map[], seq(|qs|, _ => Proc(Ready, NO_WRITES)), [], multiset{})
  }

  /** Any legal database, no transaction open, every request still to come. */
  ghost predicate Initial(s: State) {
    && s.WellFormed()
    && Legal(s.tables) && Consistent(s.tables)
    && s.locks == map[] && s.log == [] && s.metrics == multiset{}
    && forall i :: 0 <= i < |s.procs| ==> s.procs[i] == Proc(Ready, NO_WRITES)
  }
}
