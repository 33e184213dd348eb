/** Counters, rows and the remaining-use numbers returned to callers. */
module Accounting {
  import opened Wrappers
  import opened Database
  import opened Protocol
  import opened ProtocolInvariant
  import opened SerialEquivalence
  import opened Outcomes
  import opened ExactOutcomes
  import opened Progress

  // ---------------------------------------------------------------- one counter per finished attempt

  predicate CountedAs(s: State, i: int, kind: Kind)
    requires s.WellFormed()
  {
    && 0 <= i < |s.procs| && s.requests[i].Redeem? && s.procs[i].phase.Finished?
    && !s.procs[i].phase.reply.InvalidRequest? && KindOf(s.procs[i].phase.reply) == kind
  }

  ghost function Ended(s: State, kind: Kind): set<int>
    requires s.WellFormed()
  {
    set i | 0 <= i < |s.procs| && CountedAs(s, i, kind)
  }

  /** The redemption counters are exactly the tallies of the replies given. */
  ghost predicate CountersMatch(s: State) {
    s.WellFormed() && forall kind :: s.metrics[RedeemOutcome(kind)] == |Ended(s, kind)|
  }

  lemma RecordsOnce(q: Request, reply: Outcome, kind: Kind)
    ensures RecordedAtEnd(q, reply)[RedeemOutcome(kind)]
            == if q.Redeem? && !reply.InvalidRequest? && KindOf(reply) == kind then 1 else 0
  {
  }

  lemma EndedGrows(s: State, s': State, i: nat, reply: Outcome, kind: Kind)
    requires s.WellFormed() && i < |s.procs| && !s.procs[i].phase.Finished?
    requires s'.requests == s.requests && s'.procs == s.procs[i := s.procs[i].(phase := Finished(reply))]
    ensures |Ended(s', kind)| == |Ended(s, kind)|
            + if s.requests[i].Redeem? && !reply.InvalidRequest? && KindOf(reply) == kind then 1 else 0
  {
    forall j | j != i ensures CountedAs(s', j, kind) <==> CountedAs(s, j, kind) {}
    if CountedAs(s', i, kind) {
      assert Ended(s', kind) == Ended(s, kind) + {i};
    } else {
      assert Ended(s', kind) == Ended(s, kind);
    }
  }

  /** Whatever a request does before its reply moves no redemption counter and gives no reply. */
  lemma CountsNothingYet(s: State, i: nat, ch: Choice)
    requires s.WellFormed() && i < |s.procs| && !Decide(s, i, ch).Wait? && !Decide(s, i, ch).Answer?
    ensures var s' := Apply(s, i, Decide(s, i, ch));
            && s'.WellFormed() && s'.requests == s.requests && |s'.procs| == |s.procs|
            && (forall kind :: s'.metrics[RedeemOutcome(kind)] == s.metrics[RedeemOutcome(kind)])
            && (forall j :: 0 <= j < |s.procs| && j != i ==> s'.procs[j] == s.procs[j])
            && !s.procs[i].phase.Finished? && !HasAnswer(s', i)
  {
    hide Decide, Apply;
    var e := Decide(s, i, ch);
    SettlingIsFinal(s, i, ch);
    if e.Leave? || e.Commit? {
      EndingEffect(s, i, e);
    } else {
      OpenEffect(s, i, e);
      WritesCountNoRedemption(s, i, ch);
    }
  }

  lemma ApplyCounts(s: State, i: nat, ch: Choice, kind: Kind)
    requires s.WellFormed() && i < |s.procs| && !Decide(s, i, ch).Wait?
    requires s.metrics[RedeemOutcome(kind)] == |Ended(s, kind)|
    ensures var s' := Apply(s, i, Decide(s, i, ch)); s'.metrics[RedeemOutcome(kind)] == |Ended(s', kind)|
  {
    hide Decide, Apply;
    var e := Decide(s, i, ch);
    SettlingIsFinal(s, i, ch);
    var s' := Apply(s, i, e);
    if e.Answer? {
      AnsweringEffect(s, i, e.reply);
      RecordsOnce(s.requests[i], e.reply, kind);
      EndedGrows(s, s', i, e.reply, kind);
    } else {
      CountsNothingYet(s, i, ch);
      forall j ensures CountedAs(s', j, kind) <==> CountedAs(s, j, kind) {}
      assert Ended(s', kind) == Ended(s, kind);
    }
  }

  lemma WritesCountNoRedemption(s: State, i: nat, ch: Choice)
    requires s.WellFormed() && i < |s.procs|
    ensures Decide(s, i, ch).Write? ==> forall kind :: Decide(s, i, ch).counted[RedeemOutcome(kind)] == 0
  {
  }

  lemma {:induction false} CountersAlwaysMatch(s0: State, moves: seq<Move>, s: State)
    requires Initial(s0) && Run(s0, moves) == Some(s)
    ensures CountersMatch(s)
    decreases |moves|
  {
    if moves == [] {
      forall kind ensures s.metrics[RedeemOutcome(kind)] == |Ended(s, kind)| {
        assert Ended(s, kind) == {};
      }
    } else {
      var m := moves[|moves| - 1];
      var before := Run(s0, moves[..|moves| - 1]).value;
      CountersAlwaysMatch(s0, moves[..|moves| - 1], before);
      forall kind ensures s.metrics[RedeemOutcome(kind)] == |Ended(s, kind)| {
        ApplyCounts(before, m.who, m.choice, kind);
      }
    }
  }

  function Total(metrics: multiset<Metric>): nat {
    metrics[RedeemOutcome(KSuccess)] + metrics[RedeemOutcome(KNotFound)] + metrics[RedeemOutcome(KCountry)]
    + metrics[RedeemOutcome(KAlready)] + metrics[RedeemOutcome(KExhausted)]
    + metrics[RedeemOutcome(KGeolocation)] + metrics[RedeemOutcome(KInternal)]
  }

  predicate HasAnswer(s: State, i: int)
    requires s.WellFormed()
  {
    && 0 <= i < |s.procs| && s.requests[i].Redeem? && s.procs[i].phase.Finished?
    && !s.procs[i].phase.reply.InvalidRequest?
  }

  ghost function Answered(s: State): set<int>
    requires s.WellFormed()
  {
    set i | 0 <= i < |s.procs| && HasAnswer(s, i)
  }

  lemma AnsweredGrows(s: State, s': State, i: nat, reply: Outcome)
    requires s.WellFormed() && i < |s.procs| && !s.procs[i].phase.Finished?
    requires s'.requests == s.requests && s'.procs == s.procs[i := s.procs[i].(phase := Finished(reply))]
    ensures |Answered(s')| == |Answered(s)| + if s.requests[i].Redeem? && !reply.InvalidRequest? then 1 else 0
  {
    forall j | j != i ensures HasAnswer(s', j) <==> HasAnswer(s, j) {}
    if HasAnswer(s', i) {
      assert Answered(s') == Answered(s) + {i};
    } else {
      assert Answered(s') == Answered(s);
    }
  }

  lemma TotalGrows(metrics: multiset<Metric>, q: Request, reply: Outcome)
    ensures Total(metrics + RecordedAtEnd(q, reply))
            == Total(metrics) + if q.Redeem? && !reply.InvalidRequest? then 1 else 0
  {
  }

  lemma {:induction false} TotalAlwaysMatches(s0: State, moves: seq<Move>, s: State)
    requires Initial(s0) && Run(s0, moves) == Some(s)
    ensures s.WellFormed() && Total(s.metrics) == |Answered(s)|
    decreases |moves|
  {
    if moves == [] {
      assert Answered(s) == {};
    } else {
      hide Decide, Apply, Total, Answered, Legal, Consistent;
      var m := moves[|moves| - 1];
      var before := Run(s0, moves[..|moves| - 1]).value;
      TotalAlwaysMatches(s0, moves[..|moves| - 1], before);
      TotalStep(before, m.who, m.choice);
    }
  }

  lemma TotalStep(s: State, i: nat, ch: Choice)
    requires s.WellFormed() && i < |s.procs| && !Decide(s, i, ch).Wait?
    requires Total(s.metrics) == |Answered(s)|
    ensures var s' := Apply(s, i, Decide(s, i, ch)); s'.WellFormed() && Total(s'.metrics) == |Answered(s')|
  {
    hide Decide, Apply, RecordedAtEnd;
    var e := Decide(s, i, ch);
    SettlingIsFinal(s, i, ch);
    var s' := Apply(s, i, e);
    if e.Answer? {
      AnsweringEffect(s, i, e.reply);
      AnsweredGrows(s, s', i, e.reply);
      TotalGrows(s.metrics, s.requests[i], e.reply);
    } else {
      CountsNothingYet(s, i, ch);
      forall j ensures HasAnswer(s', j) <==> HasAnswer(s, j) {}
      assert Answered(s') == Answered(s);
    }
  }

  /** In every reachable state each redemption counter equals the attempts that were given that
      reply, and together they equal the attempts that passed validation and have their reply. */
  lemma CountersConserveAttempts(s0: State, moves: seq<Move>, s: State)
    requires Initial(s0) && Run(s0, moves) == Some(s)
    ensures s.WellFormed()
    ensures forall kind :: s.metrics[RedeemOutcome(kind)] == |Ended(s, kind)|
    ensures Total(s.metrics) == |Answered(s)|
  {
    CountersAlwaysMatch(s0, moves, s);
    TotalAlwaysMatches(s0, moves, s);
  }

  /** The counter is named after the reply. */
  predicate NamedAfter(kind: Kind, o: Outcome) {
    && (kind.KSuccess? <==> o.Redeemed?) && (kind.KNotFound? <==> o.NotFound?)
    && (kind.KCountry? <==> o.CountryNotAllowed?) && (kind.KAlready? <==> o.AlreadyRedeemed?)
    && (kind.KExhausted? <==> o.Exhausted?) && (kind.KGeolocation? <==> o.GeolocationUnavailable?)
    && (kind.KInternal? <==> o.InternalError?)
  }

  /** The redemptions that were given the reply the counter is named after. */
  ghost function RepliedWith(s: State, kind: Kind): set<int>
    requires s.WellFormed()
  {
    set i | 0 <= i < |s.procs| && s.requests[i].Redeem? && s.procs[i].phase.Finished?
            && NamedAfter(kind, s.procs[i].phase.reply)
  }

  lemma RedemptionReplies(t: Tables, q: Request, how: Disposition, kind: Kind)
    requires q.Redeem?
    ensures var o := Meaning(t, q, how).1; NamedAfter(kind, o) <==> !o.InvalidRequest? && KindOf(o) == kind
  {
  }

  /** The same, reply by reply: in every reachable state each counter of the use case equals the number
      of redemptions that were given the reply it is named after. */
  lemma CountersByReply(s0: State, moves: seq<Move>, s: State, kind: Kind)
    requires Initial(s0) && Run(s0, moves) == Some(s)
    ensures s.WellFormed() && s.metrics[RedeemOutcome(kind)] == |RepliedWith(s, kind)|
  {
    CountersAlwaysMatch(s0, moves, s);
    hide NamedAfter, Initial, Run;
    forall i: nat | i < |s.procs| && s.requests[i].Redeem? && s.procs[i].phase.Finished?
      ensures NamedAfter(kind, s.procs[i].phase.reply) <==> CountedAs(s, i, kind)
    {
      var k := AnswerIsLogged(s0, moves, s, i);
      RedemptionReplies(Replay(s0.tables, s.requests, s.log[..k]), s.requests[i], s.log[k].how, kind);
    }
    assert RepliedWith(s, kind) == Ended(s, kind);
  }

  // ---------------------------------------------------------------- rows against successes

  ghost predicate Took(t0: Tables, qs: seq<Request>, log: seq<Entry>, k: int) {
    && 0 <= k < |log| && log[k].who < |qs| && !log[k].how.Faulted?
    && Target(Replay(t0, qs, log[..k]), qs[log[k].who]).Some?
  }

  ghost function Taken(t0: Tables, qs: seq<Request>, log: seq<Entry>): set<int> {
    set k | 0 <= k < |log| && Took(t0, qs, log, k)
  }

  lemma RowsGrow(t: Tables, q: Request, how: Disposition)
    ensures |Meaning(t, q, how).0.redemptions|
            == |t.redemptions| + if !how.Faulted? && Target(t, q).Some? then 1 else 0
  {
    if Target(t, q).Some? {
      TakingTables(t, q);
      OneMoreRow(t, NewRedemption(q, FindCoupon(t, Key(q)).value.id));
    } else {
      OtherTables(t, q);
    }
    hide Serial, Target, FindCoupon, Valid, AddRedemption;
  }

  lemma OneMoreRow(t: Tables, r: RedemptionRow)
    requires r.id !in t.redemptions
    ensures |AddRedemption(t, r).redemptions| == |t.redemptions| + 1
  {
    assert AddRedemption(t, r).redemptions.Keys == t.redemptions.Keys + {r.id};
  }

  lemma TookByPrefix(t0: Tables, qs: seq<Request>, log: seq<Entry>, e: Entry, k: int)
    requires e.who < |qs|
    ensures Took(t0, qs, log + [e], k) <==>
              if k == |log| then !e.how.Faulted? && Target(Replay(t0, qs, log), qs[e.who]).Some?
              else Took(t0, qs, log, k)
  {
    var l := log + [e];
    if 0 <= k <= |log| {
      assert l[..k] == log[..k];
      assert log[..|log|] == log;
    }
  }

  lemma TakenGrows(t0: Tables, qs: seq<Request>, log: seq<Entry>, e: Entry)
    requires e.who < |qs|
    ensures |Taken(t0, qs, log + [e])| == |Taken(t0, qs, log)|
            + if !e.how.Faulted? && Target(Replay(t0, qs, log), qs[e.who]).Some? then 1 else 0
  {
    var now, before := Taken(t0, qs, log + [e]), Taken(t0, qs, log);
    var took := !e.how.Faulted? && Target(Replay(t0, qs, log), qs[e.who]).Some?;
    forall k ensures k in now <==> k in before || (k == |log| && took) {
      TookByPrefix(t0, qs, log, e, k);
    }
    assert now == before + (if took then {|log|} else {});
  }

  /** Every redemption row of the replay comes from exactly one logged request. */
  lemma {:induction false} RowsComeFromTakers(t0: Tables, qs: seq<Request>, log: seq<Entry>)
    requires forall k :: 0 <= k < |log| ==> log[k].who < |qs|
    ensures |Replay(t0, qs, log).redemptions| == |t0.redemptions| + |Taken(t0, qs, log)|
    decreases |log|
  {
    if log == [] {
      assert Taken(t0, qs, log) == {};
    } else {
      var front, e := log[..|log| - 1], log[|log| - 1];
      assert log == front + [e];
      RowsComeFromTakers(t0, qs, front);
      RowsGrow(Replay(t0, qs, front), qs[e.who], e.how);
      TakenGrows(t0, qs, front, e);
    }
  }

  /** Redemptions that are durable although their caller was told InternalError. */
  ghost function LostCommits(t0: Tables, s: State): set<int> {
    set k | k in Taken(t0, s.requests, s.log) && s.log[k].how.AckLost?
  }

  /** Redemption i was acknowledged by its COMMIT, whether it has been counted already or not. */
  predicate Acknowledged(s: State, i: int)
    requires s.WellFormed()
  {
    && 0 <= i < |s.procs| && s.requests[i].Redeem? && Settled(s.procs[i].phase)
    && s.procs[i].phase.reply.Redeemed?
  }

  /** Redemptions committed and acknowledged whose counter is still to move. */
  ghost function Uncounted(s: State): set<int>
    requires s.WellFormed()
  {
    set i | 0 <= i < |s.procs| && Acknowledged(s, i) && s.procs[i].phase.Counting?
  }

  lemma TakingIsSucceeding(t0: Tables, s: State, k: nat)
    requires Serialized(t0, s) && k < |s.log| && s.log[k].who < |s.procs|
    ensures k in Taken(t0, s.requests, s.log) - LostCommits(t0, s) <==> Acknowledged(s, s.log[k].who)
  {
    hide Replay;
    var t, e := Replay(t0, s.requests, s.log[..k]), s.log[k];
    assert Replied(s.requests[e.who], s.procs[e.who].phase, ReplyAt(t0, s.requests, s.log, k));
    TakingIsTold(t, s.requests[e.who], e.how);
    hide Serialized, Meaning, Target;
  }

  lemma TakingIsTold(t: Tables, q: Request, how: Disposition)
    ensures how.Normal? && Target(t, q).Some? <==> q.Redeem? && Meaning(t, q, how).1.Redeemed?
  {
    hide FindCoupon, Readable, Valid, HasRedeemed;
  }

  lemma SuccessesAreAcknowledged(t0: Tables, s: State)
    requires Serialized(t0, s)
    ensures |Ended(s, KSuccess)| + |Uncounted(s)| == |Taken(t0, s.requests, s.log) - LostCommits(t0, s)|
  {
    hide Uncounted, Ended, Replay, ReplyAt, Target;
    var normal := Taken(t0, s.requests, s.log) - LostCommits(t0, s);
    var acknowledged := set i | 0 <= i < |s.procs| && Acknowledged(s, i);
    var log := s.log;
    var f := k => if 0 <= k < |log| then log[k].who as int else -1;
    forall k | k in normal ensures f(k) in acknowledged {
      TakingIsSucceeding(t0, s, k);
    }
    forall i | i in acknowledged ensures exists k :: k in normal && f(k) == i {
      assert Logged(s, i);
      var k :| 0 <= k < |s.log| && s.log[k].who == i;
      TakingIsSucceeding(t0, s, k);
      assert f(k) == i;
    }
    SameSize(normal, f, acknowledged);
    CountedOrNot(s, acknowledged);
  }

  lemma CountedOrNot(s: State, acknowledged: set<int>)
    requires s.WellFormed() && forall i :: i in acknowledged <==> Acknowledged(s, i)
    ensures |acknowledged| == |Ended(s, KSuccess)| + |Uncounted(s)|
  {
    assert acknowledged == Ended(s, KSuccess) + Uncounted(s);
  }

  /** Conservation, in every reachable state: rows committed during the run are the successes counted,
      plus the acknowledged commits still to be counted, plus the commits whose acknowledgement was
      lost. */
  lemma RowsAreCounted(s0: State, moves: seq<Move>, s: State)
    requires Initial(s0) && Run(s0, moves) == Some(s)
    ensures s.WellFormed()
    ensures |s.tables.redemptions| - |s0.tables.redemptions|
            == s.metrics[RedeemOutcome(KSuccess)] + |Uncounted(s)| + |LostCommits(s0.tables, s)|
  {
    EveryRunIsSerial(s0, moves, s);
    CountersAlwaysMatch(s0, moves, s);
    hide Initial, Run, Serialized, Ended, LostCommits, Uncounted;
    SerializedRows(s0.tables, s);
  }

  lemma SerializedRows(t0: Tables, s: State)
    requires Serialized(t0, s)
    ensures |s.tables.redemptions| - |t0.redemptions|
            == |Ended(s, KSuccess)| + |Uncounted(s)| + |LostCommits(t0, s)|
  {
    RowsComeFromTakers(t0, s.requests, s.log);
    SuccessesAreAcknowledged(t0, s);
    hide Took, Replay, Ended, Uncounted;
    var taken, lost := Taken(t0, s.requests, s.log), LostCommits(t0, s);
    assert taken == (taken - lost) + lost;
  }

  lemma {:induction false} NoAckLost(s0: State, moves: seq<Move>, s: State)
    requires Initial(s0) && Run(s0, moves) == Some(s) && forall m <- moves :: !m.choice.LoseAck?
    ensures forall k :: 0 <= k < |s.log| ==> !s.log[k].how.AckLost?
    decreases |moves|
  {
    if moves != [] {
      var m := moves[|moves| - 1];
      var before := Run(s0, moves[..|moves| - 1]).value;
      NoAckLost(s0, moves[..|moves| - 1], before);
      assert m in moves;
      OnlyLoseAckLosesAcks(before, m.who, m.choice);
    }
  }

  lemma OnlyLoseAckLosesAcks(s: State, i: nat, ch: Choice)
    requires s.WellFormed() && i < |s.procs| && !ch.LoseAck?
    ensures var e := Decide(s, i, ch); e.Leave? || e.Commit? ==> !e.how.AckLost?
  {
  }

  /** With reliable acknowledgements the success counter is never ahead of the rows, and in a
      reachable state it equals the rows committed if and only if no request stands between its
      COMMIT and its counter. */
  lemma SuccessCounterIsRows(s0: State, moves: seq<Move>, s: State)
    requires Initial(s0) && Run(s0, moves) == Some(s) && forall m <- moves :: !m.choice.LoseAck?
    ensures s.WellFormed()
    ensures s.metrics[RedeemOutcome(KSuccess)] <= |s.tables.redemptions| - |s0.tables.redemptions|
    ensures s.metrics[RedeemOutcome(KSuccess)] == |s.tables.redemptions| - |s0.tables.redemptions| <==>
              Uncounted(s) == {}
  {
    NothingIsLost(s0, moves, s);
    RowsAreCounted(s0, moves, s);
    hide Uncounted, LostCommits;
  }

  /** Finding: such a moment is real for every redemption that can succeed. Run alone and
      undisturbed, it passes through a state in which its row is committed and no success counted. */
  lemma CounterLags(t: Tables, q: Request) returns (moves: seq<Move>, s: State)
    requires Legal(t) && Consistent(t) && q.Redeem? && Serial(t, q).1.Redeemed?
    ensures Undisturbed(moves) && Run(Start(t, [q]), moves) == Some(s)
    ensures |s.tables.redemptions| == |t.redemptions| + 1 && s.metrics[RedeemOutcome(KSuccess)] == 0
  {
    hide Initial, Serial, Legal, Consistent, Serialized, Step, Ended, Uncounted, LostCommits;
    var s0 := Start(t, [q]);
    var all, end := AloneSucceeds(t, q);
    moves := all[..|all| - 1];
    s := Run(s0, moves).value;
    EveryRunIsSerial(s0, moves, s);
    RowsAreCounted(s0, moves, s);
    BeforeTheReply(s, 0, end);
    NothingIsLost(s0, moves, s);
    CountersAlwaysMatch(s0, moves, s);
    OneUncounted(s);
  }

  lemma NothingIsLost(s0: State, moves: seq<Move>, s: State)
    requires Initial(s0) && Run(s0, moves) == Some(s) && forall m <- moves :: !m.choice.LoseAck?
    ensures LostCommits(s0.tables, s) == {}
  {
    NoAckLost(s0, moves, s);
  }

  lemma OneUncounted(s: State)
    requires s.WellFormed() && |s.procs| == 1 && s.requests[0].Redeem?
    requires s.procs[0].phase.Counting? && s.procs[0].phase.reply.Redeemed?
    ensures |Ended(s, KSuccess)| == 0 && |Uncounted(s)| == 1
  {
    assert Ended(s, KSuccess) == {};
    assert Uncounted(s) == {0};
  }

  lemma AloneSucceeds(t: Tables, q: Request) returns (moves: seq<Move>, s: State)
    requires Legal(t) && Consistent(t) && q.Redeem? && Serial(t, q).1.Redeemed?
    ensures Initial(Start(t, [q])) && Undisturbed(moves) && moves != [] && forall m <- moves :: m.who == 0
    ensures Run(Start(t, [q]), moves) == Some(s)
    ensures s.requests == [q] && s.WellFormed() && s.procs[0].phase == Finished(Serial(t, q).1)
  {
    hide Serial, Legal, Consistent, Inv;
    var s0 := Start(t, [q]);
    InitialInv(s0);
    moves, s := AloneToTheEnd(s0, 0);
    UndisturbedRunBreaksNothing(s0, moves, s);
    var k := AnswerIsLogged(s0, moves, s, 0);
    assert k == 0;
  }

  /** The last thing before a counted reply is the moment of counting. */
  lemma BeforeTheReply(s: State, i: nat, s': State)
    requires s.WellFormed() && i < |s.procs| && s.requests[i].Redeem? && Step(s, i, Proceed) == Some(s')
    requires i < |s'.procs| && s'.procs[i].phase.Finished? && !s'.procs[i].phase.reply.InvalidRequest?
    ensures s.procs[i].phase == Counting(s'.procs[i].phase.reply)
  {
    hide Decide, Apply;
    var e := Decide(s, i, Proceed);
    SettlingIsFinal(s, i, Proceed);
    if e.Leave? || e.Commit? {
      EndingEffect(s, i, e);
    } else if e.Answer? {
      AnsweringEffect(s, i, e.reply);
    } else {
      OpenEffect(s, i, e);
    }
  }

  // ---------------------------------------------------------------- remaining uses

  /** The remaining-use numbers computed for coupon c, in commit order. */
  ghost function RemainingOf(t0: Tables, qs: seq<Request>, log: seq<Entry>, c: Uuid): seq<int> {
    if log == [] then []
    else
      var front, e := log[..|log| - 1], log[|log| - 1];
      var r := RemainingOf(t0, qs, front, c);
      if e.who < |qs| then r + Taking(Replay(t0, qs, front), qs[e.who], e.how, c) else r
  }

  /** The remaining uses one request is told if it durably takes from coupon c. */
  function Taking(t: Tables, q: Request, how: Disposition, c: Uuid): seq<int> {
    if !how.Faulted? && Target(t, q) == Some(c) then [Serial(t, q).1.remaining] else []
  }

  lemma TakingAnswers(t: Tables, q: Request, c: Uuid)
    requires Legal(t) && c in t.coupons && Target(t, q) == Some(c)
    ensures Serial(t, q).1.Redeemed?
    ensures Serial(t, q).1.remaining == t.coupons[c].maxUses - t.coupons[c].currentUses - 1
    ensures t.coupons[c].currentUses < t.coupons[c].maxUses
  {
  }

  /** The numbers in r step down by one from the capacity of coupon c in t0, and t has used as
      many places as there are numbers. */
  ghost predicate CountedDown(t0: Tables, t: Tables, r: seq<int>, c: Uuid)
    requires c in t0.coupons
  {
    var capacity := t0.coupons[c].maxUses - t0.coupons[c].currentUses;
    && Legal(t) && Consistent(t) && c in t.coupons && SameIdentity(t0.coupons[c], t.coupons[c])
    && t.coupons[c].currentUses == t0.coupons[c].currentUses + |r|
    && |r| <= capacity
    && forall n :: 0 <= n < |r| ==> r[n] == capacity - 1 - n
  }

  lemma CountedDownAfter(t0: Tables, t: Tables, r: seq<int>, c: Uuid, q: Request, how: Disposition)
    requires c in t0.coupons && CountedDown(t0, t, r, c)
    ensures CountedDown(t0, Meaning(t, q, how).0, r + Taking(t, q, how, c), c)
  {
    CountedIsLegal(t0, t, r, c);
    hide Meaning, Taking, Legal, Consistent, CountedDown, SameIdentity;
    TakingUses(t, q, how, c);
    CountedOneMore(t0, t, Meaning(t, q, how).0, r, Taking(t, q, how, c), c);
  }

  /** A request tells at most one number for coupon c, the places it leaves. */
  lemma TakingUses(t: Tables, q: Request, how: Disposition, c: Uuid)
    requires Legal(t) && Consistent(t) && c in t.coupons
    ensures var t', more := Meaning(t, q, how).0, Taking(t, q, how, c);
            && Legal(t') && Consistent(t')
            && c in t'.coupons && SameIdentity(t.coupons[c], t'.coupons[c])
            && |more| <= 1 && t'.coupons[c].currentUses == t.coupons[c].currentUses + |more|
            && (|more| == 1 ==> more[0] == t'.coupons[c].maxUses - t'.coupons[c].currentUses)
  {
    hide Serial, Target, Legal, Consistent, Wins, Users;
    if !how.Faulted? {
      SerialKeeps(t, q);
      WinningIsTaking(t, c, q);
      EffectOnCoupon(t, c, q);
      if Target(t, q) == Some(c) {
        TakingAnswers(t, q, c);
      }
    }
  }

  lemma CountedIsLegal(t0: Tables, t: Tables, r: seq<int>, c: Uuid)
    requires c in t0.coupons && CountedDown(t0, t, r, c)
    ensures Legal(t) && Consistent(t) && c in t.coupons
  {
  }

  lemma CountedOneMore(t0: Tables, t: Tables, t': Tables, r: seq<int>, more: seq<int>, c: Uuid)
    requires c in t0.coupons && CountedDown(t0, t, r, c) && Legal(t') && Consistent(t')
    requires c in t.coupons && c in t'.coupons && SameIdentity(t.coupons[c], t'.coupons[c]) && |more| <= 1
    requires t'.coupons[c].currentUses == t.coupons[c].currentUses + |more|
    requires |more| == 1 ==> more[0] == t'.coupons[c].maxUses - t'.coupons[c].currentUses
    ensures CountedDown(t0, t', r + more, c)
  {
    hide Legal, Consistent;
    FitsInCoupon(t', c);
  }

  /** In commit order the remaining uses of a coupon step down by exactly one, from the capacity
      left at the start minus one, and never below zero. */
  lemma {:induction false} RemainingCountsDown(t0: Tables, qs: seq<Request>, log: seq<Entry>, c: Uuid)
    requires Legal(t0) && Consistent(t0) && c in t0.coupons
    ensures CountedDown(t0, Replay(t0, qs, log), RemainingOf(t0, qs, log, c), c)
    decreases |log|
  {
    if log != [] {
      LastOfLog(t0, qs, log, c);
      hide Meaning, CountedDown, Legal, Consistent, Replay, RemainingOf, Taking;
      var front, e := log[..|log| - 1], log[|log| - 1];
      RemainingCountsDown(t0, qs, front, c);
      if e.who < |qs| {
        CountedDownAfter(t0, Replay(t0, qs, front), RemainingOf(t0, qs, front, c), c, qs[e.who], e.how);
      }
    }
  }

  /** What the last entry of a log adds. */
  lemma LastOfLog(t0: Tables, qs: seq<Request>, log: seq<Entry>, c: Uuid)
    requires log != []
    ensures var front, e := log[..|log| - 1], log[|log| - 1];
            var t, r := Replay(t0, qs, front), RemainingOf(t0, qs, front, c);
            && Replay(t0, qs, log) == (if e.who < |qs| then Meaning(t, qs[e.who], e.how).0 else t)
            && RemainingOf(t0, qs, log, c) == (if e.who < |qs| then r + Taking(t, qs[e.who], e.how, c) else r)
  {
    hide Meaning, Taking;
  }

  /** The same for runs: in the order of the commits the numbers count down, and each undisturbed
      request that took from the coupon was told the number at its own place in that order. */
  lemma RemainingUsesOfARun(s0: State, moves: seq<Move>, s: State, c: Uuid)
    requires Initial(s0) && Run(s0, moves) == Some(s) && c in s0.tables.coupons
    ensures s.WellFormed() && s.requests == s0.requests
    ensures CountedDown(s0.tables, s.tables, RemainingOf(s0.tables, s.requests, s.log, c), c)
    ensures forall k | 0 <= k < |s.log| && TookFrom(s0.tables, s.requests, s.log, k, c) && s.log[k].how.Normal? ::
              s.log[k].who < |s.procs| && ToldPlace(s0.tables, s, k, c)
  {
    EveryRunIsSerial(s0, moves, s);
    RemainingCountsDown(s0.tables, s.requests, s.log, c);
    forall k | 0 <= k < |s.log| && TookFrom(s0.tables, s.requests, s.log, k, c) && s.log[k].how.Normal?
      ensures s.log[k].who < |s.procs| && ToldPlace(s0.tables, s, k, c)
    {
      PlaceIsTold(s0.tables, s, k, c);
    }
  }

  /** Entry k of the log durably took from coupon c. */
  predicate TookFrom(t0: Tables, qs: seq<Request>, log: seq<Entry>, k: int, c: Uuid) {
    && 0 <= k < |log| && log[k].who < |qs| && !log[k].how.Faulted?
    && Target(Replay(t0, qs, log[..k]), qs[log[k].who]) == Some(c)
  }

  /** The reply of entry k names the remaining uses that its place among the takers of c leaves. */
  ghost predicate ToldPlace(t0: Tables, s: State, k: nat, c: Uuid)
    requires s.WellFormed() && k < |s.log| && s.log[k].who < |s.procs| && c in t0.coupons
  {
    var p := s.procs[s.log[k].who].phase;
    && Settled(p) && p.reply.Redeemed?
    && p.reply.remaining == t0.coupons[c].maxUses - t0.coupons[c].currentUses - 1
                            - |RemainingOf(t0, s.requests, s.log[..k], c)|
  }

  lemma PlaceIsTold(t0: Tables, s: State, k: nat, c: Uuid)
    requires Serialized(t0, s) && Legal(t0) && Consistent(t0) && c in t0.coupons
    requires TookFrom(t0, s.requests, s.log, k, c) && s.log[k].how.Normal?
    ensures s.log[k].who < |s.procs| && ToldPlace(t0, s, k, c)
  {
    hide Serial, Target, Legal, Consistent, Replay;
    var t, q := Replay(t0, s.requests, s.log[..k]), s.requests[s.log[k].who];
    assert Replied(q, s.procs[s.log[k].who].phase, Serial(t, q).1);
    hide Serialized;
    RemainingCountsDown(t0, s.requests, s.log[..k], c);
    CountedIsLegal(t0, t, RemainingOf(t0, s.requests, s.log[..k], c), c);
    TakingAnswers(t, q, c);
  }
}
