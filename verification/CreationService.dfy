/** Coupon creation as it is written: one INSERT inside a proxied transaction, no check before it,
    and a success counter that moves before the proxy commits. */
module CreationService {
  import opened Text
  import opened CouponDomain
  import opened Database
  import opened Protocol
  import opened ProtocolInvariant
  import opened Sessions

  /** What the counters gain by the outcome of the INSERT. */
  function Counted(decided: Outcome): multiset<Metric> {
    if decided.Created? then multiset{CreateSuccess}
    else if decided.CodeConflict? then multiset{CreateConflict}
    else multiset{}
  }

  class CreateCouponService {
    const session: Session
    var recorded: multiset<Metric>

    constructor (session: Session)
      ensures this.session == session && recorded == multiset{}
    {
      this.session := session;
      this.recorded := multiset{};
    }

    /** The method body with its catch clause. */
    method Body(code: string, maxUses: int, country: string, id: Uuid, at: Instant, ghost q: Request)
      returns (r: Try<CouponRow>, ghost how: Disposition)
      requires session.WellBehaved() && session.Valid() && session.Idle()
      requires q == Request.Create(code, maxUses, country, id, at)
      modifies session, this`recorded
      ensures session.Valid() && old(session.clock) <= session.clock <= old(session.clock) + 1
      ensures session.Quiet() ==> session.tables == old(session.tables)
      ensures r.Returned? ==>
                && session.ReadyToCommit(q, Created(r.value)) && how.Normal?
                && session.clock == old(session.clock) + 1
      ensures r.Threw? ==> Meaning(session.tables, q, how) == (session.tables, r.reply) && !r.reply.Created?
      ensures how == if session.Smooth(old(session.clock), session.clock) then Normal else Faulted
      ensures recorded == old(recorded) + Counted(if r.Returned? then Created(r.value) else r.reply)
    {
      hide ProcOk, Suits, Tolerable, Rely, LegalCoupon, KeysAreNew, CodeFormat, NamesCountry;
      hide Session.Quiet, Session.WellBehaved, Session.Valid;
      if !CodeFormat(Trim(code)) || !(1 <= maxUses <= MAX_USES_LIMIT) || !NamesCountry(country) {
        return Threw(InvalidRequest), Normal;
      }
      var coupon := CouponRow(id, Trim(code), CanonicalCode(code), at, maxUses, 0, Upper(Trim(country)));
      how := if session.fails(session.clock) then Faulted else Normal;
      var inserted := session.InsertCoupon(coupon);
      StoreIsRight(World(session.tables, session.locks), session.me, q);
      if inserted.Threw? {
        if inserted.reply.CodeConflict? {
          recorded := recorded + multiset{CreateConflict};
        }
        return Threw(inserted.reply), how;
      }
      recorded := recorded + multiset{CreateSuccess};
      return Returned(coupon), how;
    }

    /** The call through the transaction proxy is one serial creation. The counters follow what the
        INSERT decided, whatever becomes of it at COMMIT or ROLLBACK. */
    method Create(code: string, maxUses: int, country: string, id: Uuid, at: Instant)
      returns (reply: Outcome, ghost seen: Tables, ghost how: Disposition)
      requires session.WellBehaved() && session.Valid() && session.Idle()
      modifies session, this`recorded
      ensures session.Valid() && session.Idle() && old(session.clock) < session.clock <= old(session.clock) + 3
      ensures session.Quiet() ==> seen == old(session.tables)
      ensures Meaning(seen, Request.Create(code, maxUses, country, id, at), how) == (session.tables, reply)
      ensures how.Faulted? <==> !session.Smooth(old(session.clock), session.clock)
      ensures if session.fails(old(session.clock)) then recorded == old(recorded)
              else
                var q := Request.Create(code, maxUses, country, id, at);
                var decided := DecidedAs(seen, q, session.Smooth(old(session.clock), session.clock - 1));
                && recorded == old(recorded) + Counted(decided)
                && (how.AckLost? <==> decided.Created? && !how.Faulted? && session.ackLost(session.clock - 1))
    {
      hide ProcOk, Suits, Serial, Session.Quiet, Session.WellBehaved, Session.Valid;
      hide Session.Idle, Session.ReadyToCommit;
      ghost var q := Request.Create(code, maxUses, country, id, at);
      var begun := session.Begin();
      if begun.Threw? {
        return begun.reply, session.tables, Faulted;
      }
      var r;
      r, how := Body(code, maxUses, country, id, at, q);
      if r.Threw? {
        seen := session.tables;
        reply := r.reply;
        var undone := session.Rollback();
        if undone.Threw? {
          reply, how := undone.reply, Faulted;
        }
      } else {
        var done;
        done, seen, how := session.Commit(q, Created(r.value));
        reply := if done.Returned? then Created(r.value) else done.reply;
      }
    }
  }
}
