/** The redemption services as they are written: an outcome variable carried across try, catch and
    finally, a timer, a transaction proxy and counters on every exit path. */
module RedemptionService {
  import opened Wrappers
  import opened Text
  import opened CouponDomain
  import opened Database
  import opened Protocol
  import opened ProtocolInvariant
  import opened Sessions
  import opened SqlFailures

  /** Outcomes of the transaction timer. */
  datatype TimerOutcome = TSuccess | TNotFound | TCountry | TAlready | TExhausted | TDatabaseError

  function TimerKind(k: Kind): TimerOutcome {
    match k
    case KSuccess => TSuccess
    case KNotFound => TNotFound
    case KCountry => TCountry
    case KAlready => TAlready
    case KExhausted => TExhausted
    case KGeolocation | KInternal => TDatabaseError
  }

  /** The timer is stopped with the outcome named after the reply, and with a database error for every
      reply that has none of its own. */
  lemma TimerNamesTheReply(o: Outcome)
    ensures var x := TimerKind(KindOf(o));
            && (x.TSuccess? <==> o.Redeemed?) && (x.TNotFound? <==> o.NotFound?)
            && (x.TCountry? <==> o.CountryNotAllowed?) && (x.TAlready? <==> o.AlreadyRedeemed?)
            && (x.TExhausted? <==> o.Exhausted?)
  {
  }

  function ReplyOf(r: Try<Outcome>): Outcome {
    if r.Returned? then r.value else r.reply
  }

  /** The body of the proxied bean and the proxy around it. */
  class TransactionalCouponRedemptionService {
    const session: Session
    var timer: seq<TimerOutcome>

    constructor (session: Session)
      ensures this.session == session && timer == []
    {
      this.session := session;
      this.timer := [];
    }

    /** findForUpdate and the country check. */
    method Lock(code: string, country: Country, ghost q: Request) returns (r: Try<CouponRow>, ghost how: Disposition)
      requires session.WellBehaved() && session.Valid() && session.Idle()
      requires q.Redeem? && Protocol.Valid(q) && Key(q) == code && q.geo == Located(country)
      modifies session`tables, session`locks, session`clock
      ensures session.Valid() && session.clock == old(session.clock) + 1
      ensures session.Quiet() ==> session.tables == old(session.tables)
      ensures session.writes == NO_WRITES
      ensures r.Returned? ==> Suits(World(session.tables, session.locks), session.me, q, Checking(r.value), NO_WRITES)
      ensures r.Threw? ==> Meaning(session.tables, q, how) == (session.tables, r.reply) && !r.reply.Redeemed?
      ensures how == if session.fails(old(session.clock)) then Faulted else Normal
      ensures r.Returned? ==> how.Normal?
    {
      how := if session.fails(session.clock) then Faulted else Normal;
      var found := session.FindForUpdate(code);
      FoundIsRight(World(session.tables, session.locks), session.me, q);
      if found.Threw? {
        return Threw(found.reply), how;
      }
      if found.value.None? {
        return Threw(NotFound), how;
      }
      if found.value.value.countryCode != country {
        return Threw(CountryNotAllowed), how;
      }
      return Returned(found.value.value), how;
    }

    /** exists and the capacity check on the locked copy. */
    method Check(c: CouponRow, user: string, ghost q: Request) returns (r: Try<()>, ghost how: Disposition)
      requires session.WellBehaved() && session.Valid() && session.writes == NO_WRITES && q.Redeem? && q.user == user
      requires Suits(World(session.tables, session.locks), session.me, q, Checking(c), NO_WRITES)
      modifies session`tables, session`locks, session`clock
      ensures session.Valid() && session.clock == old(session.clock) + 1
      ensures session.Quiet() ==> session.tables == old(session.tables)
      ensures r.Returned? ==> Suits(World(session.tables, session.locks), session.me, q, Inserting(c), NO_WRITES)
      ensures r.Threw? ==> Meaning(session.tables, q, how) == (session.tables, r.reply) && !r.reply.Redeemed?
      ensures how == if session.fails(old(session.clock)) then Faulted else Normal
      ensures r.Returned? ==> how.Normal?
    {
      how := if session.fails(session.clock) then Faulted else Normal;
      ghost var before := World(session.tables, session.locks);
      var redeemed := session.Exists(c.id, user);
      StillSuits(before, World(session.tables, session.locks), session.me, q, Checking(c), NO_WRITES);
      CheckIsRight(World(session.tables, session.locks), session.me, q, c);
      if redeemed.Threw? {
        return Threw(redeemed.reply), how;
      }
      if redeemed.value {
        return Threw(AlreadyRedeemed), how;
      }
      if c.currentUses >= c.maxUses {
        return Threw(Exhausted), how;
      }
      return Returned(()), how;
    }

    /** insert. */
    method Insert(row: RedemptionRow, c: CouponRow, ghost q: Request) returns (r: Try<()>, ghost how: Disposition)
      requires session.WellBehaved() && session.Valid() && session.writes == NO_WRITES
      requires Suits(World(session.tables, session.locks), session.me, q, Inserting(c), NO_WRITES)
      requires q.Redeem? && q.geo.Located? && row == NewRedemption(q, c.id)
      modifies session`tables, session`locks, session`clock, session`writes
      ensures session.Valid() && session.clock == old(session.clock) + 1
      ensures session.Quiet() ==> session.tables == old(session.tables)
      ensures r.Returned? ==>
                && session.writes == Writes(None, Some(row), None) && KeysAreNew(session.tables, session.writes)
                && Suits(World(session.tables, session.locks), session.me, q, Updating(c), session.writes)
      ensures r.Threw? ==> Meaning(session.tables, q, how) == (session.tables, r.reply) && !r.reply.Redeemed?
      ensures how == if session.fails(old(session.clock)) then Faulted else Normal
      ensures r.Returned? ==> how.Normal?
    {
      how := if session.fails(session.clock) then Faulted else Normal;
      ghost var before := World(session.tables, session.locks);
      r := session.Insert(row);
      StillSuits(before, World(session.tables, session.locks), session.me, q, Inserting(c), NO_WRITES);
      InsertIsRight(World(session.tables, session.locks), session.me, q, c);
    }

    /** incrementIfCapacity, whose empty result would be an IllegalStateException. */
    method Increment(c: CouponRow, ghost q: Request) returns (r: Try<int>, ghost how: Disposition)
      requires session.WellBehaved() && session.Valid() && KeysAreNew(session.tables, session.writes)
      requires Suits(World(session.tables, session.locks), session.me, q, Updating(c), session.writes)
      modifies session`tables, session`locks, session`clock, session`writes
      ensures session.Valid() && session.clock == old(session.clock) + 1
      ensures session.Quiet() ==> session.tables == old(session.tables)
      ensures r.Returned? ==> session.ReadyToCommit(q, Redeemed(q.id, c.code, q.user, q.at, c.maxUses - r.value))
      ensures r.Threw? ==> Meaning(session.tables, q, how) == (session.tables, r.reply) && !r.reply.Redeemed?
      ensures how == if session.fails(old(session.clock)) then Faulted else Normal
      ensures r.Returned? ==> how.Normal?
    {
      hide ProcOk, Serial, HasRedeemed, LegalCoupons, LegalRedemptions, Consistent;
      hide Session.Quiet, Session.WellBehaved, Session.Idle;
      how := if session.fails(session.clock) then Faulted else Normal;
      ghost var before, w := World(session.tables, session.locks), session.writes;
      var uses := session.IncrementIfCapacity(c.id);
      StillSuits(before, World(session.tables, session.locks), session.me, q, Updating(c), w);
      UpdateIsRight(World(session.tables, session.locks), session.me, q, c, w);
      if uses.Threw? {
        return Threw(uses.reply), how;
      }
      return Returned(uses.value.value), how;
    }

    /** The try block: the statements in order, every early exit an exception. The success outcome
        of the timer is decided here, before the proxy commits. */
    method TryBlock(code: string, user: string, country: Country, id: Uuid, at: Instant, ghost q: Request)
      returns (r: Try<Outcome>, ghost how: Disposition)
      requires session.WellBehaved() && session.Valid() && session.Idle()
      requires q == Request.Redeem(q.code, user, Located(country), id, at) && Protocol.Valid(q) && Key(q) == code
      modifies session
      ensures session.Valid() && old(session.clock) < session.clock <= old(session.clock) + 4
      ensures r.Returned? ==> session.clock == old(session.clock) + 4
      ensures session.Quiet() ==> session.tables == old(session.tables)
      ensures r.Returned? ==> session.ReadyToCommit(q, r.value) && r.value.Redeemed? && how.Normal?
      ensures r.Threw? ==> Meaning(session.tables, q, how) == (session.tables, r.reply) && !r.reply.Redeemed?
      ensures how == if session.Smooth(old(session.clock), session.clock) then Normal else Faulted
    {
      hide ProcOk, Suits, Meaning, FindCoupon, Protocol.Valid, Key, KeysAreNew;
      hide Session.Quiet, Session.WellBehaved, Session.Valid, Session.ReadyToCommit;
      var locked;
      locked, how := Lock(code, country, q);
      if locked.Threw? {
        return Threw(locked.reply), how;
      }
      var c := locked.value;
      var checked;
      checked, how := Check(c, user, q);
      if checked.Threw? {
        return Threw(checked.reply), how;
      }
      var inserted;
      inserted, how := Insert(RedemptionRow(id, c.id, user, country, at), c, q);
      if inserted.Threw? {
        return Threw(inserted.reply), how;
      }
      var uses;
      uses, how := Increment(c, q);
      if uses.Threw? {
        return Threw(uses.reply), how;
      }
      return Returned(Redeemed(id, c.code, user, at, c.maxUses - uses.value)), how;
    }

    /** The whole bean method: the outcome starts as a database error, each catch clause sets its own,
        and the finally clause stops the timer with whatever was set. */
    method Body(code: string, user: string, country: Country, id: Uuid, at: Instant, ghost q: Request)
      returns (r: Try<Outcome>, ghost how: Disposition)
      requires session.WellBehaved() && session.Valid() && session.Idle()
      requires q == Request.Redeem(q.code, user, Located(country), id, at) && Protocol.Valid(q) && Key(q) == code
      modifies session, this`timer
      ensures session.Valid() && old(session.clock) < session.clock <= old(session.clock) + 4
      ensures r.Returned? ==> session.clock == old(session.clock) + 4
      ensures session.Quiet() ==> session.tables == old(session.tables)
      ensures r.Returned? ==> session.ReadyToCommit(q, r.value) && r.value.Redeemed? && how.Normal?
      ensures r.Threw? ==> Meaning(session.tables, q, how) == (session.tables, r.reply) && !r.reply.Redeemed?
      ensures how == if session.Smooth(old(session.clock), session.clock) then Normal else Faulted
      ensures timer == old(timer) + [TimerKind(KindOf(ReplyOf(r)))]
    {
      hide ProcOk, Suits, Meaning, FindCoupon;
      hide Session.Quiet, Session.WellBehaved, Session.Valid, Session.Idle, Session.ReadyToCommit;
      var outcome := TDatabaseError;
      r, how := TryBlock(code, user, country, id, at, q);
      if r.Returned? {
        outcome := TSuccess;
      } else if r.reply.NotFound? {
        outcome := TNotFound;
      } else if r.reply.CountryNotAllowed? {
        outcome := TCountry;
      } else if r.reply.AlreadyRedeemed? {
        outcome := TAlready;
      } else if r.reply.Exhausted? {
        outcome := TExhausted;
      }
      timer := timer + [outcome];
    }

    /** The call through the transaction proxy: without BEGIN the method is not entered; an exception
        rolls back, a result commits. The tables seen are those committed by others up to the moment
        the request is decided, and the timer has one record of that decision, whatever becomes of
        it at COMMIT or ROLLBACK. */
    method Redeem(code: string, user: string, country: Country, id: Uuid, at: Instant, ghost q: Request)
      returns (r: Try<Outcome>, ghost seen: Tables, ghost how: Disposition)
      requires session.WellBehaved() && session.Valid() && session.Idle()
      requires q == Request.Redeem(q.code, user, Located(country), id, at) && Protocol.Valid(q) && Key(q) == code
      modifies session, this`timer
      ensures session.Valid() && session.Idle() && old(session.clock) < session.clock <= old(session.clock) + 6
      ensures session.Quiet() ==> seen == old(session.tables)
      ensures Meaning(seen, q, how) == (session.tables, ReplyOf(r)) && r.Returned? == ReplyOf(r).Redeemed?
      ensures how.Faulted? <==> !session.Smooth(old(session.clock), session.clock)
      ensures if session.fails(old(session.clock)) then timer == old(timer)
              else
                var decided := DecidedAs(seen, q, session.Smooth(old(session.clock), session.clock - 1));
                && timer == old(timer) + [TimerKind(KindOf(decided))]
                && (decided.Redeemed? ==> session.clock == old(session.clock) + 6)
                && (how.AckLost? <==> decided.Redeemed? && !how.Faulted? && session.ackLost(session.clock - 1))
    {
      hide ProcOk, Suits, Serial, FindCoupon;
      hide Session.Quiet, Session.WellBehaved, Session.Valid, Session.Idle, Session.ReadyToCommit;
      var begun := session.Begin();
      if begun.Threw? {
        return Threw(begun.reply), session.tables, Faulted;
      }
      r, how := Body(code, user, country, id, at, q);
      if r.Threw? {
        seen := session.tables;
        var undone := session.Rollback();
        if undone.Threw? {
          r, how := Threw(undone.reply), Faulted;
        }
      } else {
        var done;
        done, seen, how := session.Commit(q, r.value);
        if done.Threw? {
          r := Threw(done.reply);
        }
      }
    }
  }

  /** What the unlocked snapshot decides on its own. */
  lemma SnapshotIsRight(t: Tables, q: Request)
    requires q.Redeem? && Protocol.Valid(q)
    ensures match FindCoupon(t, Key(q))
            case None => Serial(t, q) == (t, NotFound)
            case Some(c) =>
              if !Readable(c) then Serial(t, q) == (t, InternalError)
              else if q.geo.Unresolved? then Serial(t, q) == (t, GeolocationUnavailable)
              else c.countryCode != q.geo.country ==> Serial(t, q) == (t, CountryNotAllowed)
  {
  }

  lemma InvalidIsRight(t: Tables, q: Request)
    requires q.Redeem? && !Protocol.Valid(q)
    ensures Meaning(t, q, Normal) == (t, InvalidRequest)
  {
  }

  lemma ValidIsAnswered(t: Tables, q: Request, how: Disposition)
    requires q.Redeem? && Protocol.Valid(q)
    ensures !Meaning(t, q, how).1.InvalidRequest?
  {
  }

  /** What the call of both resolvers for the request amounts to in the serial meaning. */
  function GeoOf(located: Try<Country>): Geo {
    if located.Returned? then Located(located.value) else Unresolved
  }

  /** The two resolvers throw one of their own exceptions or any other. */
  predicate ResolverAnswer(located: Try<Country>) {
    located.Threw? ==> located.reply == GeolocationUnavailable || located.reply == InternalError
  }

  /** An unforeseen exception of a resolver reaches the request only if the snapshot was found. */
  predicate ResolverBreaks(located: Try<Country>, t: Tables, key: string) {
    located == Threw(InternalError) && FindCoupon(t, key).Some? && Readable(FindCoupon(t, key).value)
  }

  /** The orchestrator: snapshot, country, transaction, and one counter on every exit path. */
  class RedeemCouponService {
    const repository: Session
    const transaction: TransactionalCouponRedemptionService
    var recorded: multiset<Metric>

    constructor (transaction: TransactionalCouponRedemptionService)
      ensures this.transaction == transaction && repository == transaction.session && recorded == multiset{}
    {
      this.repository, this.transaction := transaction.session, transaction;
      this.recorded := multiset{};
    }

    /** The body of the try block. */
    method Attempt(code: string, user: string, located: Try<Country>, id: Uuid, at: Instant, ghost q: Request)
      returns (r: Try<Outcome>, ghost seen: Tables, ghost how: Disposition)
      requires transaction.session == repository && ResolverAnswer(located)
      requires repository.WellBehaved() && repository.Valid() && repository.Idle()
      requires q == Request.Redeem(q.code, user, GeoOf(located), id, at) && Protocol.Valid(q) && Key(q) == code
      modifies repository, transaction`timer
      ensures repository.Valid() && repository.Idle() && old(repository.clock) < repository.clock
      ensures repository.Quiet() ==> seen == old(repository.tables)
      ensures Meaning(seen, q, how) == (repository.tables, ReplyOf(r)) && r.Returned? == ReplyOf(r).Redeemed?
      ensures how.Faulted? <==>
              !repository.Smooth(old(repository.clock), repository.clock) || ResolverBreaks(located, seen, code)
      ensures how.AckLost? ==> repository.ackLost(repository.clock - 1)
      ensures located.Threw? ==> transaction.timer == old(transaction.timer)
    {
      hide ProcOk, Suits, Serial, Tolerable, FindCoupon, Readable, Protocol.Valid, Key;
      hide Session.Quiet, Session.WellBehaved, Session.Valid, Session.Idle, Session.ReadyToCommit;
      how := if repository.fails(repository.clock) then Faulted else Normal;
      var found := repository.FindSnapshot(code);
      seen := repository.tables;
      SnapshotIsRight(seen, q);
      if found.Threw? {
        return Threw(found.reply), seen, how;
      }
      if found.value.None? {
        return Threw(NotFound), seen, how;
      }
      if located.Threw? {
        how := if located.reply.InternalError? then Faulted else Normal;
        return Threw(located.reply), seen, how;
      }
      if found.value.value.countryCode != located.value {
        return Threw(CountryNotAllowed), seen, how;
      }
      r, seen, how := transaction.Redeem(code, user, located.value, id, at, q);
    }

    /** One call of the use case is one serial request: whatever the other sessions did, the tables
        afterwards and the reply are the meaning of the request on the tables seen at one moment,
        and exactly the counter of that reply has moved. */
    method Redeem(code: string, user: string, located: Try<Country>, id: Uuid, at: Instant)
      returns (r: Try<Outcome>, ghost seen: Tables, ghost how: Disposition)
      requires transaction.session == repository && ResolverAnswer(located)
      requires repository.WellBehaved() && repository.Valid() && repository.Idle()
      modifies this`recorded, repository, transaction`timer
      ensures repository.Valid() && repository.Idle()
      ensures repository.Quiet() ==> seen == old(repository.tables)
      ensures var q := Request.Redeem(code, user, GeoOf(located), id, at);
              && Meaning(seen, q, how) == (repository.tables, ReplyOf(r))
              && recorded == old(recorded) + RecordedAtEnd(q, ReplyOf(r))
              && (repository.clock == old(repository.clock) <==> !Protocol.Valid(q))
              && (how.Faulted? <==>
                    || !repository.Smooth(old(repository.clock), repository.clock)
                    || (Protocol.Valid(q) && ResolverBreaks(located, seen, Key(q))))
      ensures r.Returned? == ReplyOf(r).Redeemed?
      ensures how.AckLost? ==> repository.clock > old(repository.clock) && repository.ackLost(repository.clock - 1)
      ensures located.Threw? ==> transaction.timer == old(transaction.timer)
    {
      hide ProcOk, Suits, Meaning, FindCoupon;
      hide Session.Quiet, Session.WellBehaved, Session.Valid, Session.Idle, Session.ReadyToCommit;
      ghost var q := Request.Redeem(code, user, GeoOf(located), id, at);
      if !CodeFormat(Trim(code)) || !UserIdFormat(user) {
        InvalidIsRight(repository.tables, q);
        return Threw(InvalidRequest), repository.tables, Normal;
      }
      r, seen, how := Attempt(CanonicalCode(code), user, located, id, at, q);
      ValidIsAnswered(seen, q, how);
      if r.Returned? {
        recorded := recorded + multiset{RedeemOutcome(KSuccess)};
      } else if r.reply.NotFound? {
        recorded := recorded + multiset{RedeemOutcome(KNotFound)};
      } else if r.reply.CountryNotAllowed? {
        recorded := recorded + multiset{RedeemOutcome(KCountry)};
      } else if r.reply.AlreadyRedeemed? {
        recorded := recorded + multiset{RedeemOutcome(KAlready)};
      } else if r.reply.Exhausted? {
        recorded := recorded + multiset{RedeemOutcome(KExhausted)};
      } else if r.reply.GeolocationUnavailable? {
        recorded := recorded + multiset{RedeemOutcome(KGeolocation)};
      } else {
        recorded := recorded + multiset{RedeemOutcome(KInternal)};
      }
    }
  }

  /** Waiting until no other session holds a lock is tolerable. */
  lemma AloneIsTolerable(w: World, me: nat)
    requires Sound(w)
    ensures Tolerable(w, w.(locks := OwnLocks(w.locks, me)), me, NO_WRITES)
  {
    hide Legal, Consistent;
  }

  /** A session nobody interferes with. */
  method Solo(t: Tables, fails: nat -> bool) returns (session: Session)
    requires Sound(World(t, map[]))
    ensures fresh(session) && session.WellBehaved() && session.Valid() && session.Idle() && session.Quiet()
    ensures session.tables == t && session.clock == 0
    ensures session.fails == fails && forall n :: !session.ackLost(n)
  {
    hide Sound, Tolerable, Reports;
    forall e ensures Reports(Throwable(Some(e), None), e) {
      BareReports(e);
    }
    forall w, mine | Sound(w) ensures Tolerable(w, w, 0, mine) {
      NothingIsTolerable(w, 0, mine);
    }
    forall w: World | Sound(w) ensures Tolerable(w, w.(locks := OwnLocks(w.locks, 0)), 0, NO_WRITES) {
      AloneIsTolerable(w, 0);
    }
    session := new Session(t, 0, (n, w, mine) => w, (n, w: World, c) => w.(locks := OwnLocks(w.locks, 0)),
                           fails, n => false, e => Throwable(Some(e), None));
  }

  /** With no other session and no failing statement, the imperative service is the serial meaning,
      unless a resolver throws something unforeseen; in particular the assumptions above can be met. */
  method Alone(t: Tables, code: string, user: string, located: Try<Country>, id: Uuid, at: Instant)
    returns (after: Tables, reply: Outcome)
    requires Sound(World(t, map[])) && ResolverAnswer(located)
    ensures var q := Request.Redeem(code, user, GeoOf(located), id, at);
            (after, reply) == if Protocol.Valid(q) && ResolverBreaks(located, t, Key(q)) then (t, InternalError)
                              else Serial(t, q)
  {
    hide ProcOk, Suits, Serial, FindCoupon, Readable, Protocol.Valid, Key, Sound;
    hide Session.Quiet, Session.WellBehaved, Session.Valid, Session.Idle, Session.ReadyToCommit;
    var session := Solo(t, n => false);
    var transaction := new TransactionalCouponRedemptionService(session);
    var service := new RedeemCouponService(transaction);
    var r, seen, how := service.Redeem(code, user, located, id, at);
    return session.tables, ReplyOf(r);
  }

  /** Finding, at a concrete call: the COMMIT of a redemption fails, the caller gets an error and no
      row is stored, and yet the timer holds one record, of success. */
  method TimerCounterexample() returns (after: Tables, reply: Outcome, timer: seq<TimerOutcome>)
    ensures timer == [TSuccess] && reply == InternalError && after.redemptions == map[]
  {
    hide ProcOk, Suits, Serial, Meaning, FindCoupon, Protocol.Valid, Key, Sound;
    hide Session.Quiet, Session.WellBehaved, Session.Valid, Session.Idle, Session.ReadyToCommit;
    ghost var q := Request.Redeem("ABC", "user", Located("PL"), 9, 0);
    OneCouponIsSound(q);
    var session := Solo(OneCoupon("PL"), n => n == 5);
    var transaction := new TransactionalCouponRedemptionService(session);
    var r, seen, how := transaction.Redeem("ABC", "user", "PL", 9, 0, q);
    assert session.fails(5) && session.Smooth(0, session.clock - 1);
    FailsAtCommit(q, how, session.tables, ReplyOf(r), session.clock);
    return session.tables, ReplyOf(r), transaction.timer;
  }

  /** The statements up to COMMIT go well, so they decide for success; then the sixth one throws. */
  lemma FailsAtCommit(q: Request, how: Disposition, after: Tables, reply: Outcome, clock: nat)
    requires Serial(OneCoupon("PL"), q).1.Redeemed? && Meaning(OneCoupon("PL"), q, how) == (after, reply)
    requires clock <= 6 && (how.Faulted? <==> clock == 6)
    requires DecidedAs(OneCoupon("PL"), q, true).Redeemed? ==> clock == 6
    ensures DecidedAs(OneCoupon("PL"), q, true).Redeemed? && reply == InternalError && after == OneCoupon("PL")
  {
    hide Serial;
  }

  lemma OneCouponIsSound(q: Request)
    requires q == Request.Redeem("ABC", "user", Located("PL"), 9, 0)
    ensures Sound(World(OneCoupon("PL"), map[]))
    ensures Protocol.Valid(q) && Key(q) == "ABC" && Serial(OneCoupon("PL"), q).1.Redeemed?
  {
    WellFormedIsTrimmed("ABC");
    assert Upper("ABC") == "ABC";
    OneCouponIsLegal("PL");
    ReadableMeansListed(OneCoupon("PL").coupons[7]);
  }
}
