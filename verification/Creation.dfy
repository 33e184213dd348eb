/** Concurrent creation: uniqueness of the canonical code decides, and the stored row is found again. */
module Creation {
  import opened Wrappers
  import opened Text
  import opened CouponDomain
  import opened Database
  import opened Protocol
  import opened ProtocolInvariant
  import opened SerialEquivalence
  import opened Outcomes
  import opened ExactOutcomes
  import opened Defenses

  /** Coupon identifiers are fresh: new to the database and never drawn twice. */
  ghost predicate FreshCouponIds(t0: Tables, qs: seq<Request>) {
    && (forall i :: 0 <= i < |qs| && qs[i].Create? ==> qs[i].id !in t0.coupons)
    && (forall i, j :: 0 <= i < j < |qs| && qs[i].Create? && qs[j].Create? ==> qs[i].id != qs[j].id)
  }

  /** Entry k is a valid creation of this code that no fault broke off. */
  predicate Filed(qs: seq<Request>, log: seq<Entry>, key: string, k: int) {
    && 0 <= k < |log| && log[k].who < |qs| && !log[k].how.Faulted?
    && qs[log[k].who].Create? && Valid(qs[log[k].who]) && Key(qs[log[k].who]) == key
  }

  ghost predicate FirstFiled(qs: seq<Request>, log: seq<Entry>, key: string, k: int) {
    Filed(qs, log, key, k) && forall l :: 0 <= l < k ==> !Filed(qs, log, key, l)
  }

  predicate Brought(qs: seq<Request>, log: seq<Entry>, k: int, id: Uuid) {
    0 <= k < |log| && log[k].who < |qs| && qs[log[k].who].Create? && qs[log[k].who].id == id
  }

  /** Every coupon key of the tables was there before or brought by a logged creation. */
  ghost predicate CouponsKnown(t0: Tables, t: Tables, qs: seq<Request>, log: seq<Entry>) {
    forall id <- t.coupons :: id in t0.coupons || exists k :: Brought(qs, log, k, id)
  }

  /** What a prefix of the log has made of the code: absent until the first creation is filed,
      then the coupon of that first creation. */
  ghost predicate Decided(t: Tables, qs: seq<Request>, log: seq<Entry>, key: string) {
    && (key in t.couponByCode <==> exists k :: Filed(qs, log, key, k))
    && (forall k :: FirstFiled(qs, log, key, k) ==>
          FindCoupon(t, key).Some? && SameIdentity(FindCoupon(t, key).value, NewCoupon(qs[log[k].who])))
  }

  lemma FiledByPrefix(qs: seq<Request>, log: seq<Entry>, e: Entry, key: string, k: int)
    requires e.who < |qs|
    ensures Filed(qs, log + [e], key, k) <==>
              if k == |log| then !e.how.Faulted? && qs[e.who].Create? && Valid(qs[e.who]) && Key(qs[e.who]) == key
              else Filed(qs, log, key, k)
  {
  }

  lemma FirstFiledByPrefix(qs: seq<Request>, log: seq<Entry>, e: Entry, key: string, k: int)
    requires e.who < |qs| && FirstFiled(qs, log + [e], key, k)
    ensures if k < |log| then FirstFiled(qs, log, key, k) else k == |log| && forall j :: !Filed(qs, log, key, j)
  {
    FiledByPrefix(qs, log, e, key, k);
    forall j | 0 <= j < k && j < |log| ensures !Filed(qs, log, key, j) {
      assert !Filed(qs, log + [e], key, j);
      FiledByPrefix(qs, log, e, key, j);
    }
  }

  lemma PresenceGrows(t: Tables, qs: seq<Request>, log: seq<Entry>, e: Entry, key: string)
    requires e.who < |qs| && Legal(t) && Decided(t, qs, log, key)
    requires qs[e.who].Create? ==> qs[e.who].id !in t.coupons
    ensures key in Meaning(t, qs[e.who], e.how).0.couponByCode <==> exists k :: Filed(qs, log + [e], key, k)
  {
    var t', l := Meaning(t, qs[e.who], e.how).0, log + [e];
    hide Legal, FindCoupon, SameIdentity, Meaning, FirstFiled;
    CodesAfter(t, qs[e.who], e.how, key);
    var filed := !e.how.Faulted? && qs[e.who].Create? && Valid(qs[e.who]) && Key(qs[e.who]) == key;
    forall k ensures Filed(qs, l, key, k) <==> if k == |log| then filed else Filed(qs, log, key, k) {
      FiledByPrefix(qs, log, e, key, k);
    }
    hide Filed;
    if filed {
      assert Filed(qs, l, key, |log|);
    } else if k :| Filed(qs, log, key, k) {
      assert k != |log| ==> Filed(qs, l, key, k);
    }
  }

  lemma DecidedGrows(t: Tables, qs: seq<Request>, log: seq<Entry>, e: Entry, key: string)
    requires e.who < |qs| && Legal(t) && Decided(t, qs, log, key)
    requires qs[e.who].Create? ==> qs[e.who].id !in t.coupons
    ensures Decided(Meaning(t, qs[e.who], e.how).0, qs, log + [e], key)
  {
    var t', l := Meaning(t, qs[e.who], e.how).0, log + [e];
    hide Meaning, FindCoupon, Legal, Filed, FirstFiled, NewCoupon, Valid, Key;
    PresenceGrows(t, qs, log, e, key);
    CodesAfter(t, qs[e.who], e.how, key);
    FiledByPrefix(qs, log, e, key, |log|);
    forall k | FirstFiled(qs, l, key, k)
      ensures FindCoupon(t', key).Some? && SameIdentity(FindCoupon(t', key).value, NewCoupon(qs[l[k].who]))
    {
      FirstFiledByPrefix(qs, log, e, key, k);
      FiledByPrefix(qs, log, e, key, k);
    }
  }

  lemma CouponsStayKnown(t0: Tables, t: Tables, qs: seq<Request>, log: seq<Entry>, e: Entry)
    requires e.who < |qs| && Legal(t) && CouponsKnown(t0, t, qs, log)
    ensures CouponsKnown(t0, Meaning(t, qs[e.who], e.how).0, qs, log + [e])
  {
    var t', l := Meaning(t, qs[e.who], e.how).0, log + [e];
    hide Meaning, FindCoupon, Legal, SameIdentity, Valid, Key, NewCoupon, Brought;
    CodesAfter(t, qs[e.who], e.how, "");
    forall id | id in t'.coupons && id !in t0.coupons ensures exists k :: Brought(qs, l, k, id) {
      if id in t.coupons {
        var k :| Brought(qs, log, k, id);
        BroughtByPrefix(qs, log, e, k, id);
      } else {
        BroughtByPrefix(qs, log, e, |log|, id);
      }
    }
  }

  lemma BroughtByPrefix(qs: seq<Request>, log: seq<Entry>, e: Entry, k: int, id: Uuid)
    requires e.who < |qs|
    ensures Brought(qs, log + [e], k, id) <==>
              if k == |log| then qs[e.who].Create? && qs[e.who].id == id else Brought(qs, log, k, id)
  {
  }

  /** The fresh id of a creation not yet logged is not in the tables. */
  lemma CouponIdIsUnused(t0: Tables, t: Tables, qs: seq<Request>, log: seq<Entry>, e: Entry)
    requires LogOf(qs, log + [e]) && FreshCouponIds(t0, qs) && CouponsKnown(t0, t, qs, log)
    ensures e.who < |qs|
    ensures qs[e.who].Create? ==> qs[e.who].id !in t.coupons
  {
    assert (log + [e])[|log|] == e;
    forall k | qs[e.who].Create? ensures !Brought(qs, log, k, qs[e.who].id) {
      if 0 <= k < |log| {
        assert (log + [e])[k].who != (log + [e])[|log|].who;
      }
    }
  }

  lemma {:induction false} CodeIsDecided(t0: Tables, qs: seq<Request>, log: seq<Entry>, key: string)
    requires Legal(t0) && Consistent(t0) && LogOf(qs, log) && FreshCouponIds(t0, qs) && key !in t0.couponByCode
    ensures var t := Replay(t0, qs, log); Legal(t) && Decided(t, qs, log, key) && CouponsKnown(t0, t, qs, log)
    decreases |log|
  {
    if log != [] {
      var front, e := log[..|log| - 1], log[|log| - 1];
      assert log == front + [e];
      var t := Replay(t0, qs, front);
      CodeIsDecided(t0, qs, front, key);
      CouponIdIsUnused(t0, t, qs, front, e);
      ReplayKeeps(t0, qs, log);
      DecidedGrows(t, qs, front, e, key);
      CouponsStayKnown(t0, t, qs, front, e);
    }
  }

  lemma CreationAnswer(t: Tables, q: Request)
    requires q.Create? && Valid(q) && q.id !in t.coupons
    ensures Serial(t, q).1 == if Key(q) in t.couponByCode then CodeConflict else Created(NewCoupon(q))
  {
  }

  lemma KeyIsTaken(t: Tables, qs: seq<Request>, log: seq<Entry>, key: string)
    requires Decided(t, qs, log, key)
    ensures key in t.couponByCode <==> exists k :: Filed(qs, log, key, k)
  {
  }

  lemma FirstMeansNoneBefore(qs: seq<Request>, log: seq<Entry>, key: string, k: nat)
    requires k < |log| && Filed(qs, log, key, k)
    ensures FirstFiled(qs, log, key, k) <==> !exists l :: Filed(qs, log[..k], key, l)
  {
    forall l | 0 <= l < k ensures Filed(qs, log[..k], key, l) <==> Filed(qs, log, key, l) {
      assert log[..k][l] == log[l];
    }
  }

  /** What the creation logged at k is told: the first one filed gets the code, the rest conflict. */
  lemma AnswerOfCreation(t0: Tables, qs: seq<Request>, log: seq<Entry>, key: string, k: nat)
    requires Legal(t0) && Consistent(t0) && LogOf(qs, log) && FreshCouponIds(t0, qs) && key !in t0.couponByCode
    requires k < |log| && Filed(qs, log, key, k)
    ensures AnswerAt(t0, qs, log, k)
            == if FirstFiled(qs, log, key, k) then Created(NewCoupon(qs[log[k].who])) else CodeConflict
  {
    hide Serial, Replay, CouponsKnown, Legal, Consistent, Decided, FirstFiled, FreshCouponIds, LogOf, NewCoupon, Valid;
    var front := log[..k];
    PrefixIsLog(qs, log, k);
    CodeIsDecided(t0, qs, front, key);
    PrefixIsLog(qs, log, k + 1);
    NextPrefix(log, k);
    CouponIdIsUnused(t0, Replay(t0, qs, front), qs, front, log[k]);
    CreationAnswer(Replay(t0, qs, front), qs[log[k].who]);
    FirstMeansNoneBefore(qs, log, key, k);
    KeyIsTaken(Replay(t0, qs, front), qs, front, key);
    assert Key(qs[log[k].who]) == key;
  }

  lemma {:induction false} SomeIsFirst(qs: seq<Request>, log: seq<Entry>, key: string, k: int) returns (f: int)
    requires Filed(qs, log, key, k)
    ensures FirstFiled(qs, log, key, f)
    decreases k
  {
    if FirstFiled(qs, log, key, k) {
      f := k;
    } else {
      var l :| 0 <= l < k && Filed(qs, log, key, l);
      f := SomeIsFirst(qs, log, key, l);
    }
  }

  /** Concurrent creation of one unused code, in any interleaving with anything else: of the
      undisturbed creations exactly the first one logged succeeds, all others conflict, and the
      code then belongs to that coupon for good. */
  lemma ExactlyOneCreates(s0: State, moves: seq<Move>, s: State, key: string)
    requires Initial(s0) && Run(s0, moves) == Some(s)
    requires FreshCouponIds(s0.tables, s0.requests) && key !in s0.tables.couponByCode
    ensures s.WellFormed() && s.requests == s0.requests && LogOf(s.requests, s.log)
    ensures forall k | 0 <= k < |s.log| && Filed(s.requests, s.log, key, k) && s.log[k].how.Normal? ::
              s.procs[s.log[k].who].phase
              == Finished(if FirstFiled(s.requests, s.log, key, k) then Created(NewCoupon(s.requests[s.log[k].who]))
                          else CodeConflict)
    ensures forall k | 0 <= k < |s.log| && FirstFiled(s.requests, s.log, key, k) ::
              FindCoupon(s.tables, key).Some?
              && SameIdentity(FindCoupon(s.tables, key).value, NewCoupon(s.requests[s.log[k].who]))
    ensures key in s.tables.couponByCode <==> exists k :: FirstFiled(s.requests, s.log, key, k)
  {
    EveryRunIsSerial(s0, moves, s);
    SerializedIsLog(s0.tables, s);
    CodeIsDecided(s0.tables, s.requests, s.log, key);
    forall k | 0 <= k < |s.log| && Filed(s.requests, s.log, key, k) && s.log[k].how.Normal?
      ensures s.procs[s.log[k].who].phase
              == Finished(if FirstFiled(s.requests, s.log, key, k) then Created(NewCoupon(s.requests[s.log[k].who]))
                          else CodeConflict)
    {
      AnswerOfCreation(s0.tables, s.requests, s.log, key, k);
    }
    if k :| Filed(s.requests, s.log, key, k) {
      var f := SomeIsFirst(s.requests, s.log, key, k);
    }
  }

  predicate ToldCreated(s: State, key: string, i: nat) {
    && i < |s.procs| && i < |s.requests| && Key(s.requests[i]) == key
    && s.procs[i].phase.Finished? && s.procs[i].phase.reply.Created?
  }

  ghost function CreatedFor(s: State, key: string): set<nat> {
    set i: nat | i < |s.procs| && ToldCreated(s, key, i)
  }

  /** In numbers: when all requests of an undisturbed run have their replies and at least one of them
      is a valid creation of an unused code, exactly one is told that it created the coupon. */
  lemma OneCreationSucceeds(s0: State, moves: seq<Move>, s: State, key: string, i: nat)
    requires Initial(s0) && Run(s0, moves) == Some(s) && Undisturbed(moves)
    requires FreshCouponIds(s0.tables, s0.requests) && key !in s0.tables.couponByCode
    requires forall j :: 0 <= j < |s.procs| ==> s.procs[j].phase.Finished?
    requires i < |s0.requests| && s0.requests[i].Create? && Valid(s0.requests[i]) && Key(s0.requests[i]) == key
    ensures |CreatedFor(s, key)| == 1
  {
    ExactlyOneCreates(s0, moves, s, key);
    hide FreshCouponIds, FirstFiled;
    var k := FiledWhenFinished(s0, moves, s, i);
    var f := SomeIsFirst(s.requests, s.log, key, k);
    FirstIsFiled(s.requests, s.log, key, f);
    var winner: nat := s.log[f].who;
    UndisturbedRunBreaksNothing(s0, moves, s);
    hide Initial, Run, Undisturbed, NothingBroke;
    forall j: nat ensures ToldCreated(s, key, j) <==> j == winner {
      if ToldCreated(s, key, j) {
        var l := FiledWhenFinished(s0, moves, s, j);
        FirstIsUnique(s.requests, s.log, key, f, l);
      }
    }
    OnlyWinner(s, key, winner);
  }

  lemma OnlyWinner(s: State, key: string, winner: nat)
    requires forall j: nat :: ToldCreated(s, key, j) <==> j == winner
    ensures |CreatedFor(s, key)| == 1
  {
    assert ToldCreated(s, key, winner);
    forall j: nat ensures j in CreatedFor(s, key) <==> j == winner {
      assert ToldCreated(s, key, j) <==> j == winner;
    }
    assert CreatedFor(s, key) == {winner};
  }

  /** The log entry of a finished valid creation. */
  lemma FiledWhenFinished(s0: State, moves: seq<Move>, s: State, i: nat) returns (k: nat)
    requires Initial(s0) && Run(s0, moves) == Some(s) && Undisturbed(moves)
    requires s.WellFormed() && i < |s.procs| && s.procs[i].phase.Finished?
    requires (s.requests[i].Create? && Valid(s.requests[i])) || s.procs[i].phase.reply.Created?
    ensures k < |s.log| && s.log[k].who == i && s.log[k].how.Normal? && Filed(s.requests, s.log, Key(s.requests[i]), k)
  {
    UndisturbedRunBreaksNothing(s0, moves, s);
    k := AnswerIsLogged(s0, moves, s, i);
    CreatedIsValid(Replay(s0.tables, s.requests, s.log[..k]), s.requests[i]);
  }

  lemma CreatedIsValid(t: Tables, q: Request)
    ensures Serial(t, q).1.Created? ==> q.Create? && Valid(q)
  {
  }

  lemma FirstIsFiled(qs: seq<Request>, log: seq<Entry>, key: string, f: int)
    requires FirstFiled(qs, log, key, f)
    ensures Filed(qs, log, key, f)
  {
  }

  lemma FirstIsUnique(qs: seq<Request>, log: seq<Entry>, key: string, f: int, l: int)
    requires FirstFiled(qs, log, key, f) && FirstFiled(qs, log, key, l)
    ensures f == l
  {
    assert Filed(qs, log, key, f) && Filed(qs, log, key, l);
  }

  // ---------------------------------------------------------------- what a conflict means

  /** Finding: a creation is told of a code conflict although its code is free exactly when its
      identifier is taken, because every unique violation is reported as a conflict of codes. */
  lemma MisreportedConflict(t: Tables, q: Request)
    requires q.Create? && Valid(q)
    ensures Serial(t, q).1 == CodeConflict && Key(q) !in t.couponByCode <==>
              q.id in t.coupons && Key(q) !in t.couponByCode
  {
  }

  /** Such a run: code DEF is free, identifier 7 is taken, and the creation of DEF is told that its
      code is in conflict. */
  lemma MisreportedConflictRun() returns (s0: State, moves: seq<Move>, s: State)
    ensures Initial(s0) && Undisturbed(moves) && Run(s0, moves) == Some(s)
    ensures |s.procs| == 1 && s.procs[0].phase == Finished(CodeConflict)
    ensures s.requests == [Create("DEF", 1, "PL", 7, 0)] && "DEF" !in s.tables.couponByCode
  {
    var q := Create("DEF", 1, "PL", 7, 0);
    OneCouponIsLegal("PL");
    SecondIsValid(q);
    s0 := Start(OneCoupon("PL"), [q]);
    hide Legal, Consistent, Valid;
    moves, s := TakenIdConflicts(s0, q);
    assert "DEF" != "ABC";
  }

  lemma SecondIsValid(q: Request)
    requires q == Create("DEF", 1, "PL", 7, 0)
    ensures Valid(q)
  {
    WellFormedIsTrimmed("DEF");
    ListedIsTrimmed("PL");
  }

  lemma StoreConflicts(s: State, q: Request)
    requires q.Create? && s.requests == [q] && s.procs == [Proc(Storing, NO_WRITES)] && q.id in s.tables.coupons
    ensures Store(s, 0, NewCoupon(q)) == Write(NO_WRITES, Unwinding(Rejected(CodeConflict)), multiset{CreateConflict})
  {
  }

  lemma TakenIdConflicts(s0: State, q: Request) returns (moves: seq<Move>, s: State)
    requires q.Create? && Valid(q) && s0.requests == [q] && s0.procs == [Proc(Ready, NO_WRITES)]
    requires q.id in s0.tables.coupons
    ensures Undisturbed(moves) && Run(s0, moves) == Some(s)
    ensures s.requests == [q] && s.procs == [Proc(Finished(CodeConflict), NO_WRITES)] && s.tables == s0.tables
  {
    hide Valid, Key, Store;
    var m := Move(0, Proceed);
    var s1 := Apply(s0, 0, Goto(Storing));
    var s2 := Apply(s1, 0, Write(NO_WRITES, Unwinding(Rejected(CodeConflict)), multiset{CreateConflict}));
    s := Apply(s2, 0, Leave(CodeConflict, Normal));
    StoreConflicts(s1, q);
    assert Step(s0, 0, Proceed) == Some(s1) && Step(s1, 0, Proceed) == Some(s2) && Step(s2, 0, Proceed) == Some(s);
    hide Step, Apply;
    ThreeSteps(s0, s1, s2, s, m);
    moves := [m, m, m];
  }

  /** With fresh identifiers a conflict is what it says: in any run, the code of a creation that was
      told CodeConflict belongs to a coupon. */
  lemma ConflictsAreConflicts(s0: State, moves: seq<Move>, s: State, i: nat)
    requires Initial(s0) && Run(s0, moves) == Some(s) && FreshCouponIds(s0.tables, s0.requests)
    requires s.WellFormed() && i < |s.procs| && s.procs[i].phase == Finished(CodeConflict)
    ensures s.requests[i].Create? && Key(s.requests[i]) in s.tables.couponByCode
  {
    var k := AnswerIsLogged(s0, moves, s, i);
    hide Initial, Run, Serialized, Meaning, Replay, Legal, Consistent, FreshCouponIds, CouponsKnown, LogOf, Key;
    var t, e := Replay(s0.tables, s.requests, s.log[..k]), s.log[k];
    PrefixIsLog(s.requests, s.log, k);
    PrefixIsLog(s.requests, s.log, k + 1);
    NextPrefix(s.log, k);
    CouponsAreKnown(s0.tables, s.requests, s.log[..k]);
    CouponIdIsUnused(s0.tables, t, s.requests, s.log[..k], e);
    ConflictMeansTaken(t, s.requests[i], e.how);
    CodesStay(s0.tables, s.requests, s.log, k, Key(s.requests[i]));
  }

  lemma ConflictMeansTaken(t: Tables, q: Request, how: Disposition)
    requires Meaning(t, q, how).1 == CodeConflict
    ensures q.Create? && (q.id in t.coupons || Key(q) in t.couponByCode)
  {
  }

  lemma {:induction false} CouponsAreKnown(t0: Tables, qs: seq<Request>, log: seq<Entry>)
    requires Legal(t0) && Consistent(t0) && LogOf(qs, log)
    ensures CouponsKnown(t0, Replay(t0, qs, log), qs, log)
    decreases |log|
  {
    if log != [] {
      var front, e := log[..|log| - 1], log[|log| - 1];
      assert log == front + [e];
      CouponsAreKnown(t0, qs, front);
      ReplayKeeps(t0, qs, front);
      CouponsStayKnown(t0, Replay(t0, qs, front), qs, front, e);
    }
  }

  /** A code once taken stays taken. */
  lemma {:induction false} CodesStay(t0: Tables, qs: seq<Request>, log: seq<Entry>, k: nat, key: string)
    requires Legal(t0) && Consistent(t0) && LogOf(qs, log) && k <= |log|
    requires key in Replay(t0, qs, log[..k]).couponByCode
    ensures key in Replay(t0, qs, log).couponByCode
    decreases |log|
  {
    if k == |log| {
      assert log[..k] == log;
    } else {
      var front, e := log[..|log| - 1], log[|log| - 1];
      assert log[..k] == front[..k];
      hide Legal, Consistent, Meaning;
      CodesStay(t0, qs, front, k, key);
      ReplayKeeps(t0, qs, front);
      CodeStaysOnce(Replay(t0, qs, front), qs[e.who], e.how, key);
    }
  }

  lemma CodeStaysOnce(t: Tables, q: Request, how: Disposition, key: string)
    requires Legal(t) && key in t.couponByCode
    ensures key in Meaning(t, q, how).0.couponByCode
  {
    CodesAfter(t, q, how, key);
  }

  // ---------------------------------------------------------------- what creation stores

  /** A created coupon is found again, readable and with its own values, by every padded or
      re-cased spelling of its code; reading the stored code back yields the same code and key. */
  lemma CreatedIsFoundByVariants(t: Tables, q: Request, before: string, variant: string, after: string)
    requires LegalCoupons(t) && q.Create? && Valid(q) && FindCoupon(t, Key(q)).Some?
    requires SameIdentity(FindCoupon(t, Key(q)).value, NewCoupon(q))
    requires Padding(before) && Padding(after) && CodeFormat(variant) && SameLetters(variant, Trim(q.code))
    ensures CodeFormat(Trim(before + variant + after))
    ensures var found := FindCoupon(t, CanonicalCode(before + variant + after));
            && found.Some? && Readable(found.value)
            && found.value.(currentUses := 0) == NewCoupon(q)
            && Trim(found.value.code) == Trim(q.code) && CanonicalCode(found.value.code) == Key(q)
  {
    VariantsShareTheKey(q.code, variant, before, after);
    ReadableMeansListed(FindCoupon(t, Key(q)).value);
    WellFormedIsTrimmed(Trim(q.code));
  }

  // ---------------------------------------------------------------- the success counter of creation

  predicate AwaitsCommit(s: State, i: int)
    requires s.WellFormed()
  {
    0 <= i < |s.procs| && s.requests[i].Create? && s.procs[i].phase.Committing?
  }

  ghost function Awaiting(s: State): set<int>
    requires s.WellFormed()
  {
    set i | 0 <= i < |s.procs| && AwaitsCommit(s, i)
  }

  /** How often a creation that was already counted as a success failed at its COMMIT. */
  ghost function CommitFaults(s0: State, moves: seq<Move>): nat {
    if moves == [] then 0
    else
      var front, m := moves[..|moves| - 1], moves[|moves| - 1];
      var before := Run(s0, front);
      CommitFaults(s0, front)
      + if before.Some? && before.value.WellFormed() && m.choice.Fault? && AwaitsCommit(before.value, m.who)
        then 1 else 0
  }

  lemma AwaitingAfter(s: State, s': State, i: nat)
    requires s.WellFormed() && s'.WellFormed() && s'.requests == s.requests && i < |s.procs|
    requires s'.procs == s.procs[i := s'.procs[i]]
    ensures |Awaiting(s')| == |Awaiting(s)|
            - (if AwaitsCommit(s, i) then 1 else 0) + (if AwaitsCommit(s', i) then 1 else 0)
  {
    hide State.WellFormed;
    var others := set j | 0 <= j < |s.procs| && AwaitsCommit(s, j) && j != i;
    forall j ensures j in Awaiting(s') <==> j in others || (j == i && AwaitsCommit(s', i)) {
      assert j != i ==> (AwaitsCommit(s', j) <==> AwaitsCommit(s, j));
    }
    SizeWith(Awaiting(s), others, i, AwaitsCommit(s, i));
    SizeWith(Awaiting(s'), others, i, AwaitsCommit(s', i));
  }

  /** The balance between the success counter, the coupons and the creations awaiting COMMIT. */
  function Balance(s: State, awaiting: nat): int {
    s.metrics[CreateSuccess] - |s.tables.coupons| - awaiting
  }

  lemma CommitAddsCoupon(s: State, i: nat)
    requires Inv(s) && i < |s.procs| && s.procs[i].phase.Committing?
    ensures |View(s.tables, s.procs[i].writes).coupons| == |s.tables.coupons| + if s.requests[i].Create? then 1 else 0
  {
    assert LocalOk(s, i);
    CommitInstalls(s, i);
    var t' := View(s.tables, s.procs[i].writes);
    if s.requests[i].Create? {
      assert PendingCoupon(s, i);
      assert t'.coupons.Keys == s.tables.coupons.Keys + {s.requests[i].id};
    } else {
      assert t'.coupons.Keys == s.tables.coupons.Keys;
    }
  }

  /** Counting a success and starting to await COMMIT are the same decision. */
  lemma CountedWhenStored(s: State, i: nat, ch: Choice)
    requires LocalOk(s, i)
    ensures var e, q := Decide(s, i, ch), s.requests[i];
            && (e.Write? ==> e.counted[CreateSuccess] == if q.Create? && e.phase.Committing? then 1 else 0)
            && (e.Goto? || e.Acquire? ==> !e.phase.Committing?)
            && (s.procs[i].phase.Committing? ==> e.Commit? || (e.Goto? && ch.Fault?))
            && (ch.Fault? ==> !e.Write? && !e.Commit?)
            && (e.Answer? ==> s.procs[i].phase.Counting?)
  {
    hide View, HasRedeemed, FindCoupon, Readable, Valid, LegalCoupon, LegalRedemption, RedemptionPending, CouponPending;
    hide LockedByOther, Serial, NewCoupon, NewRedemption, Key, LegalCoupons;
  }

  /** What an effect does to the success counter, the coupons and the phase. */
  lemma ApplyTotals(s: State, i: nat, e: Effect)
    requires s.WellFormed() && i < |s.procs|
    ensures var s' := Apply(s, i, e);
            && s'.metrics[CreateSuccess]
               == s.metrics[CreateSuccess] + (if e.Write? then e.counted[CreateSuccess] else 0)
            && s'.tables == (if e.Commit? then View(s.tables, s.procs[i].writes) else s.tables)
            && s'.WellFormed() && i < |s'.procs| && s'.requests == s.requests
            && s'.procs[i].phase == PhaseAfter(s.requests[i], s.procs[i].phase, e)
  {
  }

  /** What CountedWhenStored and CommitAddsCoupon say of an effect. */
  ghost predicate Counts(s: State, i: nat, e: Effect, fault: bool)
    requires s.WellFormed() && i < |s.procs|
  {
    var create := s.requests[i].Create?;
    && (e.Write? ==> e.counted[CreateSuccess] == if create && e.phase.Committing? then 1 else 0)
    && (e.Goto? || e.Acquire? ==> !e.phase.Committing?)
    && (s.procs[i].phase.Committing? ==> e.Commit? || (e.Goto? && fault))
    && (fault ==> !e.Write? && !e.Commit?)
    && (e.Answer? ==> s.procs[i].phase.Counting?)
    && (e.Commit? ==> s.procs[i].phase.Committing?
                      && |View(s.tables, s.procs[i].writes).coupons| == |s.tables.coupons| + if create then 1 else 0)
  }

  lemma EffectBalance(s: State, i: nat, e: Effect, fault: bool)
    requires s.WellFormed() && i < |s.procs| && !e.Wait? && Counts(s, i, e, fault)
    ensures var s' := Apply(s, i, e);
            && s'.WellFormed()
            && Balance(s', |Awaiting(s')|) == Balance(s, |Awaiting(s)|)
               + if fault && AwaitsCommit(s, i) then 1 else 0
  {
    var s' := Apply(s, i, e);
    assert s'.procs == s.procs[i := s'.procs[i]] by {
      hide View, Release, RecordedAtEnd;
    }
    hide View, Apply, Awaiting, State.WellFormed;
    ApplyTotals(s, i, e);
    AwaitingAfter(s, s', i);
    if e.Commit? {
    } else if e.Write? {
    } else {
      assert s'.metrics[CreateSuccess] == s.metrics[CreateSuccess] && s'.tables == s.tables;
    }
  }

  lemma StepBalance(s: State, i: nat, ch: Choice, s': State)
    requires Inv(s) && i < |s.procs| && Step(s, i, ch) == Some(s')
    ensures s'.WellFormed()
    ensures Balance(s', |Awaiting(s')|) == Balance(s, |Awaiting(s)|)
            + if ch.Fault? && AwaitsCommit(s, i) then 1 else 0
  {
    InvIsLocal(s, i);
    hide Inv, LocalOk, View, Decide, Awaiting, AwaitsCommit, Apply, Balance;
    var e := Decide(s, i, ch);
    CountedWhenStored(s, i, ch);
    if e.Commit? {
      CommitsComeFromCommitting(s, i, ch);
      CommitAddsCoupon(s, i);
    }
    EffectBalance(s, i, e, ch.Fault?);
  }

  lemma CommitsComeFromCommitting(s: State, i: nat, ch: Choice)
    requires s.WellFormed() && i < |s.procs| && Decide(s, i, ch).Commit?
    ensures s.procs[i].phase.Committing?
  {
  }

  /** Finding: the counter of successful creations is incremented before the commit, so in every
      reachable state it exceeds the coupons gained by the creations still awaiting COMMIT and by
      those whose COMMIT failed. At rest it equals the new coupons if and only if no COMMIT of a
      creation failed. */
  lemma {:induction false} CreateCounterOvercounts(s0: State, moves: seq<Move>, s: State)
    requires Initial(s0) && Run(s0, moves) == Some(s)
    ensures s.WellFormed()
    ensures s.metrics[CreateSuccess]
            == |s.tables.coupons| - |s0.tables.coupons| + |Awaiting(s)| + CommitFaults(s0, moves)
    ensures (forall i :: 0 <= i < |s.procs| ==> s.procs[i].phase.Finished?) ==>
              (s.metrics[CreateSuccess] == |s.tables.coupons| - |s0.tables.coupons| <==> CommitFaults(s0, moves) == 0)
    decreases |moves|
  {
    if moves == [] {
      assert Awaiting(s) == {};
    } else {
      hide Decide, Apply, Awaiting, AwaitsCommit, Inv, Legal, Consistent;
      var m := moves[|moves| - 1];
      var before := Run(s0, moves[..|moves| - 1]).value;
      CreateCounterOvercounts(s0, moves[..|moves| - 1], before);
      EveryRunKeepsInv(s0, moves[..|moves| - 1], before);
      StepBalance(before, m.who, m.choice, s);
    }
    NobodyAwaits(s);
  }

  lemma NobodyAwaits(s: State)
    requires s.WellFormed()
    ensures (forall i :: 0 <= i < |s.procs| ==> s.procs[i].phase.Finished?) ==> |Awaiting(s)| == 0
  {
    if forall i :: 0 <= i < |s.procs| ==> s.procs[i].phase.Finished? {
      assert Awaiting(s) == {};
    }
  }

  /** The failing case is real: one valid creation whose COMMIT fails leaves the counter at one and
      no coupon. */
  lemma CreateCounterCounterexample() returns (s0: State, moves: seq<Move>, s: State)
    ensures Initial(s0) && Run(s0, moves) == Some(s) && s.WellFormed()
    ensures forall i :: 0 <= i < |s.procs| ==> s.procs[i].phase.Finished?
    ensures s.metrics[CreateSuccess] == 1 && s.tables.coupons == map[]
  {
    var q := Create("ABC", 1, "PL", 7, 0);
    WellFormedIsTrimmed("ABC");
    ListedIsTrimmed("PL");
    assert Valid(q);
    s0 := State([q], Tables(map[], map[], map[], map[]), map[], [Proc(Ready, NO_WRITES)], [], multiset{});
    assert RedemptionsOf(s0.tables, 0) == {};
    moves, s := FailedCreation(s0, q);
  }

  lemma FailedCreation(s0: State, q: Request) returns (moves: seq<Move>, s: State)
    requires q.Create? && Valid(q) && s0.requests == [q] && s0.procs == [Proc(Ready, NO_WRITES)]
    requires s0.metrics == multiset{} && s0.tables.coupons == map[] && s0.tables.couponByCode == map[]
    ensures Run(s0, moves) == Some(s) && s.WellFormed()
    ensures |s.procs| == 1 && s.procs[0].phase.Finished?
    ensures s.metrics[CreateSuccess] == 1 && s.tables.coupons == map[]
  {
    NewCouponIsLegal(q);
    var r := NewCoupon(q);
    var stored := Apply(s0, 0, Goto(Storing));
    assert Step(s0, 0, Proceed) == Some(stored);
    var counted := Apply(stored, 0,
        Write(Writes(Some(r), None, None), Committing(Created(r)), multiset{CreateSuccess}));
    assert Step(stored, 0, Proceed) == Some(counted);
    var crashed := Apply(counted, 0, Goto(Unwinding(Crashed)));
    assert Step(counted, 0, Fault) == Some(crashed);
    s := Apply(crashed, 0, Leave(InternalError, Faulted));
    assert Step(crashed, 0, Proceed) == Some(s);
    var p, f := Move(0, Proceed), Move(0, Fault);
    RunExtends(s0, [], s0, p, stored);
    RunExtends(s0, [] + [p], stored, p, counted);
    RunExtends(s0, [] + [p] + [p], counted, f, crashed);
    RunExtends(s0, [] + [p] + [p] + [f], crashed, p, s);
    moves := [] + [p] + [p] + [f] + [p];
  }

  // ---------------------------------------------------------------- the conflict counter of creation

  predicate ConflictPhase(p: Phase) {
    p == Finished(CodeConflict) || (p.Unwinding? && p.verdict.Rejected?)
  }

  /** A creation that has been told of a conflict, or is on its way to be told. */
  predicate InConflict(s: State, i: int)
    requires s.WellFormed()
  {
    0 <= i < |s.procs| && s.requests[i].Create? && ConflictPhase(s.procs[i].phase)
  }

  ghost function Conflicted(s: State): set<int>
    requires s.WellFormed()
  {
    set i | 0 <= i < |s.procs| && InConflict(s, i)
  }

  ghost function ToldOfConflict(s: State): set<int>
    requires s.WellFormed()
  {
    set i | 0 <= i < |s.procs| && s.requests[i].Create? && s.procs[i].phase == Finished(CodeConflict)
  }

  predicate RollsBackConflict(s: State, i: int)
    requires s.WellFormed()
  {
    InConflict(s, i) && s.procs[i].phase.Unwinding?
  }

  /** How often the ROLLBACK of a creation that had met a conflict failed. */
  ghost function RollbackFaults(s0: State, moves: seq<Move>): nat {
    if moves == [] then 0
    else
      var front, m := moves[..|moves| - 1], moves[|moves| - 1];
      var before := Run(s0, front);
      RollbackFaults(s0, front)
      + if before.Some? && before.value.WellFormed() && m.choice.Fault? && RollsBackConflict(before.value, m.who)
        then 1 else 0
  }

  lemma ConflictedAfter(s: State, s': State, i: nat)
    requires s.WellFormed() && s'.WellFormed() && s'.requests == s.requests && i < |s.procs|
    requires s'.procs == s.procs[i := s'.procs[i]]
    ensures |Conflicted(s')| == |Conflicted(s)|
            - (if InConflict(s, i) then 1 else 0) + (if InConflict(s', i) then 1 else 0)
  {
    hide State.WellFormed, ConflictPhase;
    var others := set j | 0 <= j < |s.procs| && InConflict(s, j) && j != i;
    forall j ensures j in Conflicted(s') <==> j in others || (j == i && InConflict(s', i)) {
      assert j != i ==> (InConflict(s', j) <==> InConflict(s, j));
    }
    SizeWith(Conflicted(s), others, i, InConflict(s, i));
    SizeWith(Conflicted(s'), others, i, InConflict(s', i));
  }

  function CountedConflicts(e: Effect): nat { if e.Write? then e.counted[CreateConflict] else 0 }

  /** A conflict is counted when the INSERT meets it, and only a failing ROLLBACK loses its reply. */
  lemma ConflictDecision(s: State, i: nat, ch: Choice)
    requires LocalOk(s, i) && !Decide(s, i, ch).Wait?
    ensures var e, q, p := Decide(s, i, ch), s.requests[i], s.procs[i].phase;
            CountedConflicts(e) + (if q.Create? && ConflictPhase(p) then 1 else 0)
              == (if q.Create? && ConflictPhase(PhaseAfter(q, p, e)) then 1 else 0)
                 + (if q.Create? && ConflictPhase(p) && p.Unwinding? && ch.Fault? then 1 else 0)
  {
    hide View, HasRedeemed, FindCoupon, Readable, Valid, LegalCoupon, LegalRedemption, RedemptionPending, CouponPending;
    hide LockedByOther, Serial, NewCoupon, NewRedemption, Key, LegalCoupons, UpdatePending;
  }

  lemma ApplyConflicts(s: State, i: nat, e: Effect)
    requires s.WellFormed() && i < |s.procs|
    ensures var s' := Apply(s, i, e);
            && s'.metrics[CreateConflict] == s.metrics[CreateConflict] + CountedConflicts(e)
            && s'.WellFormed() && s'.requests == s.requests && s'.procs == s.procs[i := s'.procs[i]]
            && s'.procs[i].phase == PhaseAfter(s.requests[i], s.procs[i].phase, e)
  {
    hide View, Release;
  }

  lemma StepConflicts(s: State, i: nat, ch: Choice, s': State)
    requires Inv(s) && i < |s.procs| && Step(s, i, ch) == Some(s')
    requires s.WellFormed()
    ensures s'.WellFormed()
    ensures s'.metrics[CreateConflict] - |Conflicted(s')|
            == s.metrics[CreateConflict] - |Conflicted(s)|
               + if ch.Fault? && RollsBackConflict(s, i) then 1 else 0
  {
    InvIsLocal(s, i);
    hide Inv, LocalOk, Decide, Apply, Conflicted, CountedConflicts, ConflictPhase;
    var e := Decide(s, i, ch);
    ConflictDecision(s, i, ch);
    ApplyConflicts(s, i, e);
    ConflictedAfter(s, s', i);
  }

  /** Finding: the counter of conflicts is incremented before the rollback, so in every reachable state
      it equals the creations that were told of a conflict or are about to be, plus those whose
      ROLLBACK failed. At rest it equals the conflicts told if and only if no such ROLLBACK failed. */
  lemma {:induction false} ConflictCounter(s0: State, moves: seq<Move>, s: State)
    requires Initial(s0) && Run(s0, moves) == Some(s)
    ensures s.WellFormed() && s.metrics[CreateConflict] == |Conflicted(s)| + RollbackFaults(s0, moves)
    ensures (forall i :: 0 <= i < |s.procs| ==> s.procs[i].phase.Finished?) ==>
              (s.metrics[CreateConflict] == |ToldOfConflict(s)| <==> RollbackFaults(s0, moves) == 0)
    decreases |moves|
  {
    if moves == [] {
      assert Conflicted(s) == {};
    } else {
      hide Step, Conflicted, Inv, Legal, Consistent, RollsBackConflict;
      var m := moves[|moves| - 1];
      var before := Run(s0, moves[..|moves| - 1]).value;
      ConflictCounter(s0, moves[..|moves| - 1], before);
      EveryRunKeepsInv(s0, moves[..|moves| - 1], before);
      StepConflicts(before, m.who, m.choice, s);
    }
    ConflictsAreTold(s);
  }

  lemma ConflictsAreTold(s: State)
    requires s.WellFormed()
    ensures (forall i :: 0 <= i < |s.procs| ==> s.procs[i].phase.Finished?) ==> Conflicted(s) == ToldOfConflict(s)
  {
  }

  /** The failing case is real: the creation of the free code DEF with the taken identifier 7, whose
      ROLLBACK fails, is counted as a conflict and told of an internal error. */
  lemma ConflictCounterCounterexample() returns (s0: State, moves: seq<Move>, s: State)
    ensures Initial(s0) && Run(s0, moves) == Some(s) && s.WellFormed()
    ensures |s.procs| == 1 && s.procs[0].phase == Finished(InternalError)
    ensures s.metrics[CreateConflict] == 1 && ToldOfConflict(s) == {}
  {
    var q := Create("DEF", 1, "PL", 7, 0);
    OneCouponIsLegal("PL");
    SecondIsValid(q);
    s0 := Start(OneCoupon("PL"), [q]);
    hide Legal, Consistent, Valid;
    moves, s := FailedRollback(s0, q);
  }

  lemma FailedRollback(s0: State, q: Request) returns (moves: seq<Move>, s: State)
    requires q.Create? && Valid(q) && s0.requests == [q] && s0.procs == [Proc(Ready, NO_WRITES)]
    requires q.id in s0.tables.coupons && s0.metrics == multiset{}
    ensures Run(s0, moves) == Some(s) && s.WellFormed()
    ensures s.requests == [q] && s.procs == [Proc(Finished(InternalError), NO_WRITES)]
    ensures s.metrics[CreateConflict] == 1
  {
    hide Valid, Key, Store;
    var p, f := Move(0, Proceed), Move(0, Fault);
    var s1 := Apply(s0, 0, Goto(Storing));
    var s2 := Apply(s1, 0, Write(NO_WRITES, Unwinding(Rejected(CodeConflict)), multiset{CreateConflict}));
    s := Apply(s2, 0, Leave(InternalError, Faulted));
    StoreConflicts(s1, q);
    assert Step(s0, 0, Proceed) == Some(s1) && Step(s1, 0, Proceed) == Some(s2) && Step(s2, 0, Fault) == Some(s);
    hide Step, Apply;
    RunExtends(s0, [], s0, p, s1);
    RunExtends(s0, [] + [p], s1, p, s2);
    RunExtends(s0, [] + [p] + [p], s2, f, s);
    moves := [] + [p] + [p] + [f];
  }
}
