/** Exact replies and counts of concurrent runs, carried over from the serial run of their log. */
module ExactOutcomes {
  import opened Wrappers
  import opened Database
  import opened Protocol
  import opened SerialEquivalence
  import opened Outcomes

  lemma SerializedIsLog(t0: Tables, s: State)
    requires Serialized(t0, s)
    ensures LogOf(s.requests, s.log)
  {
  }

  /** Where the reply of a settled request stands in the serial order. */
  lemma AnswerIsLogged(s0: State, moves: seq<Move>, s: State, i: nat) returns (k: nat)
    requires Initial(s0) && Run(s0, moves) == Some(s)
    requires s.WellFormed() && i < |s.procs| && Settled(s.procs[i].phase)
    ensures Legal(s0.tables) && Consistent(s0.tables) && s.requests == s0.requests && LogOf(s.requests, s.log)
    ensures k < |s.log| && s.log[k].who == i && s.tables == Replay(s0.tables, s.requests, s.log)
    ensures s.procs[i].phase.reply == Meaning(Replay(s0.tables, s.requests, s.log[..k]), s.requests[i], s.log[k].how).1
  {
    EveryRunIsSerial(s0, moves, s);
    SerializedIsLog(s0.tables, s);
    assert Logged(s, i);
    k :| 0 <= k < |s.log| && s.log[k].who == i;
    assert Replied(s.requests[i], s.procs[i].phase, ReplyAt(s0.tables, s.requests, s.log, k));
  }

  /** In every reachable state: the fresh users who got coupon c are exactly as many as there were
      places or fresh triers, whichever is less; and every undisturbed attempt was told what this
      set of winners dictates. Faults, lost acknowledgements and traffic on other coupons may occur
      anywhere. */
  lemma WinnersAreExact(s0: State, moves: seq<Move>, s: State, c: Uuid)
    requires Initial(s0) && Run(s0, moves) == Some(s)
    requires c in s0.tables.coupons && FreshIds(s0.tables, s0.requests)
    ensures s.WellFormed() && s.requests == s0.requests && LogOf(s.requests, s.log)
    ensures var winners := Users(s.tables, c) - Users(s0.tables, c);
            var tried := Fresh(s0.tables, s.requests, s.log, c);
            var row := s0.tables.coupons[c];
            && winners <= tried
            && |winners| == Min(row.maxUses - row.currentUses, |tried|)
    ensures forall k | 0 <= k < |s.log| && s.log[k].how.Normal? && Attempted(s0.tables, s.requests, s.log, c, k) ::
              Told(s0.tables, s, c, k)
  {
    hide Told, Attempted, Legal, Consistent, FreshIds, Run, LogOf;
    EveryRunIsSerial(s0, moves, s);
    SerializedIsLog(s0.tables, s);
    CountOfWinners(s0.tables, s.requests, s.log, c);
    forall k | 0 <= k < |s.log| && s.log[k].how.Normal? && Attempted(s0.tables, s.requests, s.log, c, k)
      ensures Told(s0.tables, s, c, k)
    {
      AttemptIsTold(s0.tables, s, c, k);
    }
  }

  lemma AttemptIsTold(t0: Tables, s: State, c: Uuid, k: nat)
    requires Serialized(t0, s) && LogOf(s.requests, s.log) && Legal(t0) && Consistent(t0) && c in t0.coupons
    requires FreshIds(t0, s.requests) && k < |s.log| && s.log[k].how.Normal? && Attempted(t0, s.requests, s.log, c, k)
    ensures Told(t0, s, c, k)
  {
    hide Legal, Consistent, FreshIds, Serial, Replay, Users, FirstAttempt, Contender;
    AnswerOfAttempt(t0, s.requests, s.log, c, k);
  }

  /** The reply of the attempt logged at k: the first attempt of a winner succeeds, every other
      attempt of a winner or of an earlier redeemer is a duplicate, everyone else finds it used up. */
  ghost predicate Told(t0: Tables, s: State, c: Uuid, k: nat)
    requires s.WellFormed() && LogOf(s.requests, s.log) && c in t0.coupons
    requires k < |s.log| && Attempted(t0, s.requests, s.log, c, k)
  {
    var i := s.log[k].who;
    var u := s.requests[i].user;
    && Settled(s.procs[i].phase)
    && var reply := s.procs[i].phase.reply;
       if u in Users(t0, c) then reply == AlreadyRedeemed
       else if u !in Users(s.tables, c) then reply == Exhausted
       else if FirstAttempt(t0, s.requests, s.log, c, k) then reply.Redeemed?
       else reply == AlreadyRedeemed
  }

  // ---------------------------------------------------------------- undisturbed runs

  predicate Undisturbed(moves: seq<Move>) {
    forall m <- moves :: m.choice.Proceed?
  }

  /** Without injected faults nothing crashes and every request leaves the database normally. */
  ghost predicate NothingBroke(s: State) {
    && (forall i :: 0 <= i < |s.procs| ==> s.procs[i].phase != Unwinding(Crashed))
    && (forall k :: 0 <= k < |s.log| ==> s.log[k].how.Normal?)
  }

  lemma ProceedBreaksNothing(s: State, i: nat)
    requires s.WellFormed() && i < |s.procs| && s.procs[i].phase != Unwinding(Crashed)
    ensures var e := Advance(s, i);
            && (e.Leave? || e.Commit? ==> e.how.Normal?)
            && (e.Goto? || e.Acquire? || e.Write? ==> e.phase != Unwinding(Crashed))
  {
  }

  lemma {:induction false} UndisturbedRunBreaksNothing(s0: State, moves: seq<Move>, s: State)
    requires Initial(s0) && Run(s0, moves) == Some(s) && Undisturbed(moves)
    ensures NothingBroke(s)
    decreases |moves|
  {
    if moves != [] {
      var m := moves[|moves| - 1];
      var before := Run(s0, moves[..|moves| - 1]).value;
      UndisturbedRunBreaksNothing(s0, moves[..|moves| - 1], before);
      assert m in moves;
      ProceedBreaksNothing(before, m.who);
    }
  }

  // ---------------------------------------------------------------- counting successes

  /** A one-to-one correspondence between two sets makes them equally large. */
  lemma {:induction false} SameSize<A, B>(xs: set<A>, f: A -> B, ys: set<B>)
    requires forall x, y :: x in xs && y in xs && f(x) == f(y) ==> x == y
    requires forall x :: x in xs ==> f(x) in ys
    requires forall y :: y in ys ==> exists x :: x in xs && f(x) == y
    ensures |xs| == |ys|
    decreases |xs|
  {
    if xs == {} {
      assert ys == {};
    } else {
      var x :| x in xs;
      SameSize(xs - {x}, f, ys - {f(x)});
    }
  }

  function Successes(s: State): set<nat> {
    set i: nat | i < |s.procs| && s.procs[i].phase.Finished? && s.procs[i].phase.reply.Redeemed?
  }

  ghost function Applicants(t0: Tables, qs: seq<Request>, c: Uuid): set<string> {
    (set i | 0 <= i < |qs| && qs[i].Redeem? :: qs[i].user) - Users(t0, c)
  }

  lemma {:induction false} SomeAttemptIsFirst(t0: Tables, qs: seq<Request>, log: seq<Entry>, c: Uuid,
        k: nat) returns (l: nat)
    requires c in t0.coupons && k < |log| && Attempted(t0, qs, log, c, k)
    ensures l <= k && Attempted(t0, qs, log, c, l) && FirstAttempt(t0, qs, log, c, l)
    ensures qs[log[l].who].user == qs[log[k].who].user
  {
    if FirstAttempt(t0, qs, log, c, k) {
      l := k;
    } else {
      var j :| 0 <= j < k && Attempted(t0, qs, log, c, j) && qs[log[j].who].user == qs[log[k].who].user;
      l := SomeAttemptIsFirst(t0, qs, log, c, j);
    }
  }

  /** Every request is finished, undisturbed, and aimed at coupon c from its country. */
  ghost predicate RaceIsOver(s0: State, s: State, c: Uuid)
    requires c in s0.tables.coupons
  {
    && Serialized(s0.tables, s) && s.requests == s0.requests && NothingBroke(s)
    && (forall i :: 0 <= i < |s.procs| ==> s.procs[i].phase.Finished?)
    && (forall i :: 0 <= i < |s.requests| ==> Contender(s0.tables, c, s.requests[i]))
  }

  lemma LoggedAttempt(s0: State, s: State, c: Uuid, i: nat) returns (k: nat)
    requires c in s0.tables.coupons && RaceIsOver(s0, s, c) && i < |s.requests|
    ensures k < |s.log| && s.log[k].who == i && s.log[k].how.Normal?
    ensures Attempted(s0.tables, s.requests, s.log, c, k)
  {
    assert Logged(s, i);
    k :| 0 <= k < |s.log| && s.log[k].who == i;
  }

  lemma TriersAreApplicants(s0: State, s: State, c: Uuid)
    requires c in s0.tables.coupons && RaceIsOver(s0, s, c)
    ensures Fresh(s0.tables, s.requests, s.log, c) == Applicants(s0.tables, s.requests, c)
  {
    forall u | u in Applicants(s0.tables, s.requests, c)
      ensures u in Fresh(s0.tables, s.requests, s.log, c)
    {
      var i: nat :| i < |s.requests| && s.requests[i].Redeem? && s.requests[i].user == u;
      var k := LoggedAttempt(s0, s, c, i);
      assert Attempted(s0.tables, s.requests, s.log, c, k) && s.requests[s.log[k].who].user == u;
    }
  }

  /** A request succeeded exactly when it is the first attempt of a winner. */
  lemma SuccessIsFirst(s0: State, s: State, c: Uuid, i: nat) returns (k: nat)
    requires c in s0.tables.coupons && RaceIsOver(s0, s, c) && i < |s.requests|
    requires LogOf(s.requests, s.log)
    requires forall k | 0 <= k < |s.log| && s.log[k].how.Normal? && Attempted(s0.tables, s.requests, s.log, c, k) ::
               Told(s0.tables, s, c, k)
    ensures k < |s.log| && s.log[k].who == i && Attempted(s0.tables, s.requests, s.log, c, k)
    ensures i in Successes(s) <==>
              s.requests[i].user in Users(s.tables, c) - Users(s0.tables, c)
              && FirstAttempt(s0.tables, s.requests, s.log, c, k)
  {
    k := LoggedAttempt(s0, s, c, i);
    assert Told(s0.tables, s, c, k);
  }

  lemma SuccessesMatchWinners(s0: State, s: State, c: Uuid)
    requires c in s0.tables.coupons && RaceIsOver(s0, s, c) && LogOf(s.requests, s.log)
    requires Users(s.tables, c) - Users(s0.tables, c) <= Fresh(s0.tables, s.requests, s.log, c)
    requires forall k | 0 <= k < |s.log| && s.log[k].how.Normal? && Attempted(s0.tables, s.requests, s.log, c, k) ::
               Told(s0.tables, s, c, k)
    ensures |Successes(s)| == |Users(s.tables, c) - Users(s0.tables, c)|
  {
    var winners := Users(s.tables, c) - Users(s0.tables, c);
    var qs := s.requests;
    var f := (i: nat) => if i < |qs| && qs[i].Redeem? then qs[i].user else "";
    forall i, j | i in Successes(s) && j in Successes(s) && f(i) == f(j) ensures i == j {
      var k := SuccessIsFirst(s0, s, c, i);
      var l := SuccessIsFirst(s0, s, c, j);
    }
    forall i | i in Successes(s) ensures f(i) in winners {
      var k := SuccessIsFirst(s0, s, c, i);
    }
    forall u | u in winners ensures exists i :: i in Successes(s) && f(i) == u {
      var k :| 0 <= k < |s.log| && Attempted(s0.tables, qs, s.log, c, k) && qs[s.log[k].who].user == u;
      var l := SomeAttemptIsFirst(s0.tables, qs, s.log, c, k);
      var l' := SuccessIsFirst(s0, s, c, s.log[l].who);
      assert s.log[l].who in Successes(s) && f(s.log[l].who) == u;
    }
    SameSize(Successes(s), f, winners);
  }

  /** Any number of undisturbed requests for one coupon, in any interleaving: once all have their
      replies, the successes are min(remaining capacity, distinct fresh users). */
  lemma SuccessesAreExact(s0: State, moves: seq<Move>, s: State, c: Uuid)
    requires Initial(s0) && Run(s0, moves) == Some(s) && Undisturbed(moves)
    requires c in s0.tables.coupons && FreshIds(s0.tables, s0.requests)
    requires forall i :: 0 <= i < |s0.requests| ==> Contender(s0.tables, c, s0.requests[i])
    requires forall i :: 0 <= i < |s.procs| ==> s.procs[i].phase.Finished?
    ensures var row := s0.tables.coupons[c];
            |Successes(s)| == Min(row.maxUses - row.currentUses, |Applicants(s0.tables, s0.requests, c)|)
  {
    WinnersAreExact(s0, moves, s, c);
    EveryRunIsSerial(s0, moves, s);
    UndisturbedRunBreaksNothing(s0, moves, s);
    TriersAreApplicants(s0, s, c);
    SuccessesMatchWinners(s0, s, c);
  }
}
