/** Every interleaving has the effect and the replies of running the requests one after another. */
module SerialEquivalence {
  import opened Wrappers
  import opened Database
  import opened Protocol
  import opened ProtocolInvariant

  /** The tables after running the logged requests one at a time, in log order. */
  function Replay(t0: Tables, qs: seq<Request>, log: seq<Entry>): Tables {
    if log == [] then t0
    else
      var e := log[|log| - 1];
      var t := Replay(t0, qs, log[..|log| - 1]);
      if e.who < |qs| then Meaning(t, qs[e.who], e.how).0 else t
  }

  /** The reply the k-th logged request gets in that sequential run. */
  function ReplyAt(t0: Tables, qs: seq<Request>, log: seq<Entry>, k: nat): Outcome
    requires k < |log| && log[k].who < |qs|
  {
    Meaning(Replay(t0, qs, log[..k]), qs[log[k].who], log[k].how).1
  }

  /** A request stands after its transaction with this reply; only redemptions still have to count it. */
  predicate Replied(q: Request, p: Phase, reply: Outcome) {
    p == Finished(reply) || (q.Redeem? && p == Counting(reply))
  }

  /** The log is a serial explanation of s: same tables, same replies, each settled request once. */
  ghost predicate Serialized(t0: Tables, s: State) {
    && s.WellFormed()
    && s.tables == Replay(t0, s.requests, s.log)
    && (forall k :: 0 <= k < |s.log| ==>
          s.log[k].who < |s.procs|
          && Replied(s.requests[s.log[k].who], s.procs[s.log[k].who].phase, ReplyAt(t0, s.requests, s.log, k)))
    && (forall k, l :: 0 <= k < l < |s.log| ==> s.log[k].who != s.log[l].who)
    && (forall i :: 0 <= i < |s.procs| && Settled(s.procs[i].phase) ==> Logged(s, i))
  }

  ghost predicate Logged(s: State, i: nat) {
    exists k :: 0 <= k < |s.log| && s.log[k].who == i
  }

  lemma ReplayGrows(t0: Tables, qs: seq<Request>, log: seq<Entry>, e: Entry)
    requires e.who < |qs|
    ensures Replay(t0, qs, log + [e]) == Meaning(Replay(t0, qs, log), qs[e.who], e.how).0
    ensures forall k :: 0 <= k < |log| && log[k].who < |qs| ==>
              ReplyAt(t0, qs, log + [e], k) == ReplyAt(t0, qs, log, k)
    ensures ReplyAt(t0, qs, log + [e], |log|) == Meaning(Replay(t0, qs, log), qs[e.who], e.how).1
  {
    assert (log + [e])[..|log|] == log;
    forall k | 0 <= k < |log| && log[k].who < |qs|
      ensures ReplyAt(t0, qs, log + [e], k) == ReplyAt(t0, qs, log, k)
    {
      assert (log + [e])[..k] == log[..k];
    }
  }

  /** A process settles only by leaving or committing; after that it only gives its reply, once. */
  lemma SettlingIsFinal(s: State, i: nat, ch: Choice)
    requires s.WellFormed() && i < |s.procs| && !Decide(s, i, ch).Wait?
    ensures var e, p := Decide(s, i, ch), s.procs[i].phase;
            && !p.Finished? && (Settled(p) ==> e == Answer(p.reply)) && (e.Answer? ==> p == Counting(e.reply))
            && (e.Goto? || e.Acquire? || e.Write? ==> !Settled(e.phase))
  {
    hide View, HasRedeemed, FindCoupon, Readable, Valid, LegalCoupon, LegalRedemption, RedemptionPending, CouponPending;
    hide LockedByOther, RecordedAtEnd, Release, NewCoupon, NewRedemption, Key;
  }

  /** What an effect that ends nothing leaves alone. */
  lemma OpenEffect(s: State, i: nat, e: Effect)
    requires s.WellFormed() && i < |s.procs| && !e.Leave? && !e.Commit? && !e.Answer?
    ensures var s' := Apply(s, i, e);
            && s'.WellFormed() && s'.requests == s.requests && |s'.procs| == |s.procs|
            && (!e.Wait? ==> s'.procs[i].phase == e.phase) && s'.tables == s.tables && s'.log == s.log
            && (forall j :: 0 <= j < |s.procs| && j != i ==> s'.procs[j] == s.procs[j])
            && s'.metrics == s.metrics + (if e.Write? then e.counted else multiset{})
  {
  }

  /** What an effect that ends the transaction does. */
  lemma EndingEffect(s: State, i: nat, e: Effect)
    requires s.WellFormed() && i < |s.procs| && (e.Leave? || e.Commit?)
    ensures var s' := Apply(s, i, e);
            && s'.WellFormed() && s'.requests == s.requests && s'.metrics == s.metrics
            && s'.procs == s.procs[i := Proc(Outside(s.requests[i], e.reply), NO_WRITES)]
  {
  }

  /** What giving the reply does. */
  lemma AnsweringEffect(s: State, i: nat, reply: Outcome)
    requires s.WellFormed() && i < |s.procs|
    ensures var s' := Apply(s, i, Answer(reply));
            && s'.WellFormed() && s'.requests == s.requests && s'.tables == s.tables && s'.log == s.log
            && s'.procs == s.procs[i := s.procs[i].(phase := Finished(reply))]
            && s'.metrics == s.metrics + RecordedAtEnd(s.requests[i], reply)
  {
  }

  /** Ending extends the serial explanation by one request. */
  lemma EndKeepsSerialized(t0: Tables, s: State, i: nat, t': Tables, reply: Outcome, how: Disposition)
    requires Serialized(t0, s) && i < |s.procs| && !Settled(s.procs[i].phase)
    requires Meaning(s.tables, s.requests[i], how) == (t', reply)
    ensures Serialized(t0, End(s.(tables := t'), i, reply, how))
  {
    hide Replay, ReplyAt, Meaning, Release;
    var s' := End(s.(tables := t'), i, reply, how);
    ReplayGrows(t0, s.requests, s.log, Entry(i, how));
    forall j | 0 <= j < |s'.procs| && Settled(s'.procs[j].phase) ensures Logged(s', j) {
      if j == i {
        assert s'.log[|s.log|].who == i;
      } else {
        assert Logged(s, j);
        var k :| 0 <= k < |s.log| && s.log[k].who == j;
        assert s'.log[k].who == j;
      }
    }
  }

  lemma ApplyKeepsSerialized(t0: Tables, s: State, i: nat, e: Effect)
    requires Serialized(t0, s) && i < |s.procs| && EffectOk(s, i, e)
    requires !e.Wait? && (Settled(s.procs[i].phase) ==> e == Answer(s.procs[i].phase.reply))
    requires e.Answer? ==> s.procs[i].phase == Counting(e.reply)
    requires e.Goto? || e.Acquire? || e.Write? ==> !Settled(e.phase)
    ensures Serialized(t0, Apply(s, i, e))
  {
    hide View, Meaning, ProcOk, End, Replied, Replay, ReplyAt;
    if e.Leave? {
      EndKeepsSerialized(t0, s, i, s.tables, e.reply, e.how);
      assert s.(tables := s.tables) == s;
    } else if e.Commit? {
      EndKeepsSerialized(t0, s, i, View(s.tables, s.procs[i].writes), e.reply, e.how);
    } else {
      hide Apply, EffectOk;
      if e.Answer? {
        AnsweringEffect(s, i, e.reply);
      } else {
        OpenEffect(s, i, e);
      }
      SameLogStaysSerialized(t0, s, i, Apply(s, i, e));
    }
  }

  /** Nothing but settling needs a place in the log, and a counted reply stays the same reply. */
  lemma SameLogStaysSerialized(t0: Tables, s: State, i: nat, s': State)
    requires Serialized(t0, s) && i < |s.procs| && s'.WellFormed()
    requires s'.requests == s.requests && s'.tables == s.tables && s'.log == s.log
    requires forall j :: 0 <= j < |s.procs| && j != i ==> s'.procs[j] == s.procs[j]
    requires var p, p' := s.procs[i].phase, s'.procs[i].phase;
             if Settled(p) then p.Counting? && p' == Finished(p.reply) else !Settled(p')
    ensures Serialized(t0, s')
  {
    hide Replay, ReplyAt;
    forall j | 0 <= j < |s'.procs| && Settled(s'.procs[j].phase) ensures Logged(s', j) {
      assert Logged(s, j);
    }
  }

  /** Serial equivalence: any interleaving of any requests on any coupons, with faults and lost
      acknowledgements anywhere, leaves the tables and the replies of the sequential run of its log. */
  lemma {:induction false} EveryRunIsSerial(s0: State, moves: seq<Move>, s: State)
    requires Initial(s0) && Run(s0, moves) == Some(s)
    ensures Serialized(s0.tables, s) && s.requests == s0.requests
    decreases |moves|
  {
    if moves == [] {
      InitialIsSerialized(s0);
    } else {
      hide Inv, Initial, Step, Serialized;
      var m := moves[|moves| - 1];
      var before := Run(s0, moves[..|moves| - 1]).value;
      EveryRunIsSerial(s0, moves[..|moves| - 1], before);
      EveryRunKeepsInv(s0, moves[..|moves| - 1], before);
      StepKeepsInv(before, m.who, m.choice, s);
      StepKeepsSerialized(s0.tables, before, m.who, m.choice, s);
    }
  }

  lemma InitialIsSerialized(s: State)
    requires Initial(s)
    ensures Serialized(s.tables, s)
  {
  }

  lemma StepKeepsSerialized(t0: Tables, s: State, i: nat, ch: Choice, s': State)
    requires Serialized(t0, s) && Inv(s) && s.WellFormed() && i < |s.procs| && Step(s, i, ch) == Some(s')
    ensures Serialized(t0, s')
  {
    hide Inv, Decide, Apply, Serialized, EffectOk;
    DecisionIsOk(s, i, ch);
    SettlingIsFinal(s, i, ch);
    ApplyKeepsSerialized(t0, s, i, Decide(s, i, ch));
  }

  // ---------------------------------------------------------------- real-time order

  lemma {:induction false} RunsCompose(s0: State, a: seq<Move>, s1: State, b: seq<Move>, s2: State)
    requires Run(s0, a) == Some(s1) && Run(s1, b) == Some(s2)
    ensures Run(s0, a + b) == Some(s2)
    decreases |b|
  {
    if b == [] {
      assert a + b == a;
    } else {
      var front := b[..|b| - 1];
      FrontOfSum(a, b);
      RunsCompose(s0, a, s1, front, Run(s1, front).value);
      hide Step;
    }
  }

  lemma FrontOfSum(a: seq<Move>, b: seq<Move>)
    requires b != []
    ensures (a + b)[..|a + b| - 1] == a + b[..|b| - 1] && (a + b)[|a + b| - 1] == b[|b| - 1]
  {
  }

  lemma RunExtends(s0: State, moves: seq<Move>, s: State, m: Move, s': State)
    requires Run(s0, moves) == Some(s) && s.WellFormed() && m.who < |s.procs| && Step(s, m.who, m.choice) == Some(s')
    ensures Run(s0, moves + [m]) == Some(s')
  {
  }

  lemma ThreeSteps(s0: State, s1: State, s2: State, s3: State, m: Move)
    requires s0.WellFormed() && m.who < |s0.procs| && Step(s0, m.who, m.choice) == Some(s1)
    requires s1.WellFormed() && m.who < |s1.procs| && Step(s1, m.who, m.choice) == Some(s2)
    requires s2.WellFormed() && m.who < |s2.procs| && Step(s2, m.who, m.choice) == Some(s3)
    ensures Run(s0, [m, m, m]) == Some(s3)
  {
    hide Step, State.WellFormed;
    RunExtends(s0, [], s0, m, s1);
    RunExtends(s0, [] + [m], s1, m, s2);
    RunExtends(s0, [] + [m] + [m], s2, m, s3);
    assert [m, m, m] == [] + [m] + [m] + [m];
  }

  /** A run only ever appends to the log, a settled request keeps its reply, and a finished one stays
      as it is. */
  lemma {:induction false} LogOnlyGrows(s: State, moves: seq<Move>, s': State)
    requires s.WellFormed() && Run(s, moves) == Some(s')
    ensures s'.WellFormed() && |s'.procs| == |s.procs| && s.log <= s'.log
    ensures forall i :: 0 <= i < |s.procs| && s.procs[i].phase.Finished? ==> s'.procs[i] == s.procs[i]
    ensures forall i :: 0 <= i < |s.procs| && Settled(s.procs[i].phase) ==>
              Settled(s'.procs[i].phase) && s'.procs[i].phase.reply == s.procs[i].phase.reply
    decreases |moves|
  {
    if moves != [] {
      var m := moves[|moves| - 1];
      var before := Run(s, moves[..|moves| - 1]).value;
      LogOnlyGrows(s, moves[..|moves| - 1], before);
      hide Decide;
      SettlingIsFinal(before, m.who, m.choice);
    }
  }

  /** The serial order never contradicts real time: a request that was over in the database, and all
      the more one that had its reply, while another one was not, comes before it. */
  lemma SerialOrderRespectsRealTime(s0: State, a: seq<Move>, s1: State, b: seq<Move>, s2: State, k: nat, l: nat)
    requires Initial(s0) && Run(s0, a) == Some(s1) && Run(s1, b) == Some(s2)
    requires k < |s2.log| && l < |s2.log|
    requires s2.log[k].who < |s1.procs| && Settled(s1.procs[s2.log[k].who].phase)
    requires s2.log[l].who < |s1.procs| && !Settled(s1.procs[s2.log[l].who].phase)
    ensures k < l
  {
    hide Initial, Run, Replay, ReplyAt;
    RunsCompose(s0, a, s1, b, s2);
    EveryRunIsSerial(s0, a, s1);
    EveryRunIsSerial(s0, a + b, s2);
    LogOnlyGrows(s1, b, s2);
    assert Logged(s1, s2.log[k].who);
    var k1 :| 0 <= k1 < |s1.log| && s1.log[k1].who == s2.log[k].who;
    assert s2.log[k1].who == s2.log[k].who;
    assert k == k1;
    assert forall m :: 0 <= m < |s1.log| ==> s2.log[m] == s1.log[m];
  }
}
