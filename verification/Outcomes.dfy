/** Who wins: exact replies and counts for one coupon, for any order of any requests. */
module Outcomes {
  import opened Wrappers
  import opened Database
  import opened Protocol
  import opened ProtocolInvariant
  import opened SerialEquivalence

  // ---------------------------------------------------------------- one request, seen from one coupon

  function Users(t: Tables, c: Uuid): set<string> {
    set pair | pair in t.redemptionByPair && pair.0 == c :: pair.1
  }

  /** A valid redemption of coupon c from the country the coupon allows. */
  predicate Contender(t: Tables, c: Uuid, q: Request)
    requires c in t.coupons
  {
    q.Redeem? && Valid(q) && Key(q) == t.coupons[c].normalizedCode && LocatedIn(q.geo, t.coupons[c].countryCode)
  }

  predicate Wins(t: Tables, c: Uuid, q: Request)
    requires c in t.coupons
  {
    && Contender(t, c, q)
    && q.user !in Users(t, c)
    && t.coupons[c].currentUses < t.coupons[c].maxUses
    && q.id !in t.redemptions
  }

  lemma MembersOfUsers(t: Tables, c: Uuid, u: string)
    ensures u in Users(t, c) <==> HasRedeemed(t, c, u)
  {
  }

  /** The only redemption of coupon c is one that finds c by its code. */
  lemma RedeemingFinds(t: Tables, c: Uuid, q: Request)
    requires LegalCoupons(t) && c in t.coupons && q.Redeem?
    ensures Key(q) == t.coupons[c].normalizedCode ==> FindCoupon(t, Key(q)) == Some(t.coupons[c])
    ensures FindCoupon(t, Key(q)).Some? && FindCoupon(t, Key(q)).value.id == c ==>
              FindCoupon(t, Key(q)).value == t.coupons[c] && Key(q) == t.coupons[c].normalizedCode
  {
  }

  /** The reply a contender gets, in the order of the checks under the lock. */
  lemma ContenderReply(t: Tables, c: Uuid, q: Request)
    requires Legal(t) && c in t.coupons && Contender(t, c, q)
    ensures var o := Serial(t, q).1;
            var row := t.coupons[c];
            && (q.user in Users(t, c) ==> o == AlreadyRedeemed)
            && (q.user !in Users(t, c) && row.currentUses == row.maxUses ==> o == Exhausted)
            && (Wins(t, c, q) ==> o == Redeemed(q.id, row.code, q.user, q.at, row.maxUses - row.currentUses - 1))
  {
    RedeemingFinds(t, c, q);
    ReadableMeansListed(FindCoupon(t, Key(q)).value);
    MembersOfUsers(t, c, q.user);
    assert LegalCoupon(t.coupons[c]);
  }

  /** The coupon a successful redemption takes from. */
  function Target(t: Tables, q: Request): Option<Uuid> {
    if Valid(q) && q.Redeem? && SerialRedeem(t, q).1.Redeemed? then Some(FindCoupon(t, Key(q)).value.id) else None
  }

  lemma WinningIsTaking(t: Tables, c: Uuid, q: Request)
    requires Legal(t) && c in t.coupons
    ensures Wins(t, c, q) <==> Target(t, q) == Some(c)
  {
    ReadableMeansListed(t.coupons[c]);
  }

  lemma TakingEffect(t: Tables, r: RedemptionRow, c: Uuid)
    requires c in t.coupons && r.couponId in t.coupons
    ensures var t' := SetUses(AddRedemption(t, r), r.couponId, t.coupons[r.couponId].currentUses + 1);
            && c in t'.coupons && SameIdentity(t.coupons[c], t'.coupons[c])
            && t'.coupons[c].currentUses == t.coupons[c].currentUses + (if c == r.couponId then 1 else 0)
            && Users(t', c) == Users(t, c) + (if c == r.couponId then {r.userId} else {})
            && t'.redemptions.Keys == t.redemptions.Keys + {r.id}
  {
  }

  lemma TakingTables(t: Tables, q: Request)
    requires Target(t, q).Some?
    ensures FindCoupon(t, Key(q)).Some? && q.geo.Located?
    ensures var row := FindCoupon(t, Key(q)).value;
            && row.currentUses < row.maxUses && q.id !in t.redemptions && q.geo.country == row.countryCode
            && !HasRedeemed(t, row.id, q.user)
            && Serial(t, q).0 == SetUses(AddRedemption(t, NewRedemption(q, row.id)), row.id, row.currentUses + 1)
  {
  }

  lemma OtherTables(t: Tables, q: Request)
    requires Target(t, q).None?
    ensures Serial(t, q).0
            == if q.Create? && Valid(q) && q.id !in t.coupons && Key(q) !in t.couponByCode
               then AddCoupon(t, NewCoupon(q)) else t
  {
  }

  lemma TakingKeeps(t: Tables, q: Request, row: CouponRow)
    requires Legal(t) && Consistent(t) && q.Redeem? && Valid(q) && LocatedIn(q.geo, row.countryCode)
    requires FindCoupon(t, Key(q)) == Some(row) && row.currentUses < row.maxUses
    requires q.id !in t.redemptions && !HasRedeemed(t, row.id, q.user)
    ensures var t' := SetUses(AddRedemption(t, NewRedemption(q, row.id)), row.id, row.currentUses + 1);
            Legal(t') && Consistent(t')
  {
    hide LegalCoupons, LegalRedemptions, Consistent, FindCoupon;
    FoundUnderKey(t, Key(q));
    NewRedemptionIsLegal(q, row);
    hide Legal, Protocol.Valid, SetUses, AddRedemption, LegalRedemption;
    RedeemKeeps(t, NewRedemption(q, row.id));
  }

  lemma AddingKeeps(t: Tables, q: Request)
    requires Legal(t) && Consistent(t) && q.Create? && Valid(q)
    requires NewCoupon(q).id !in t.coupons && NewCoupon(q).normalizedCode !in t.couponByCode
    ensures Legal(AddCoupon(t, NewCoupon(q))) && Consistent(AddCoupon(t, NewCoupon(q)))
  {
    hide Legal, Consistent, LegalCoupon;
    NewCouponIsLegal(q);
    AddCouponKeeps(t, NewCoupon(q));
  }

  /** Running any request alone keeps the constraints and the counters. */
  lemma SerialKeeps(t: Tables, q: Request)
    requires Legal(t) && Consistent(t)
    ensures Legal(Serial(t, q).0) && Consistent(Serial(t, q).0)
  {
    hide Legal, Consistent, Serial, FindCoupon, SerialRedeem;
    if Target(t, q).Some? {
      TakingTables(t, q);
      TakingKeeps(t, q, FindCoupon(t, Key(q)).value);
    } else if Serial(t, q).0 != t {
      OtherTables(t, q);
      AddingKeeps(t, q);
    }
  }

  lemma {:induction false} ReplayKeeps(t0: Tables, qs: seq<Request>, log: seq<Entry>)
    requires Legal(t0) && Consistent(t0)
    ensures Legal(Replay(t0, qs, log)) && Consistent(Replay(t0, qs, log))
    decreases |log|
  {
    if log != [] {
      var front, e := log[..|log| - 1], log[|log| - 1];
      var t := Replay(t0, qs, log);
      var kept := Legal(t) && Consistent(t);
      ReplayKeeps(t0, qs, front);
      if e.who < |qs| {
        SerialKeeps(Replay(t0, qs, front), qs[e.who]);
      }
      assert kept;
    }
  }

  /** What any request does to coupon c: a win adds one user and one use, nothing else shows. */
  lemma EffectOnCoupon(t: Tables, c: Uuid, q: Request)
    requires Legal(t) && c in t.coupons
    ensures var t' := Serial(t, q).0;
            && c in t'.coupons && SameIdentity(t.coupons[c], t'.coupons[c])
            && t'.coupons[c].currentUses == t.coupons[c].currentUses + (if Wins(t, c, q) then 1 else 0)
            && Users(t', c) == Users(t, c) + (if Wins(t, c, q) then {q.user} else {})
            && t.redemptions.Keys <= t'.redemptions.Keys <= t.redemptions.Keys + (if q.Redeem? then {q.id} else {})
  {
    hide Serial, SerialRedeem, LegalCoupon, LegalRedemptions, HasRedeemed, FindCoupon, SetUses, AddRedemption;
    hide Valid, Key, Wins;
    WinningIsTaking(t, c, q);
    if Target(t, q).Some? {
      TakingTables(t, q);
      FoundUnderKey(t, Key(q));
      TakingEffect(t, NewRedemption(q, Target(t, q).value), c);
    } else {
      OtherTables(t, q);
      assert Users(Serial(t, q).0, c) == Users(t, c);
    }
  }

  /** A request adds a creation's own code and key or none, and keeps every coupon's identity. */
  lemma CodesAfter(t: Tables, q: Request, how: Disposition, key: string)
    requires Legal(t)
    ensures var t' := Meaning(t, q, how).0;
            var adds := !how.Faulted? && q.Create? && Valid(q) && q.id !in t.coupons && Key(q) !in t.couponByCode;
            && (key in t'.couponByCode <==> key in t.couponByCode || (adds && Key(q) == key))
            && (FindCoupon(t, key).Some? ==>
                  FindCoupon(t', key).Some? && SameIdentity(FindCoupon(t, key).value, FindCoupon(t', key).value))
            && (adds && Key(q) == key ==> FindCoupon(t', key) == Some(NewCoupon(q)))
            && t'.coupons.Keys == t.coupons.Keys + (if adds then {q.id} else {})
  {
    hide Serial, SerialRedeem, LegalCoupons, LegalRedemptions, HasRedeemed, NewRedemption, FindCoupon, SetUses;
    hide AddRedemption, AddCoupon, Valid, Key;
    if how.Faulted? {
    } else if Target(t, q).Some? {
      TakingTables(t, q);
      FoundUnderKey(t, Key(q));
      CodesAfterTaking(t, NewRedemption(q, FindCoupon(t, Key(q)).value.id), FindCoupon(t, Key(q)).value, key);
    } else {
      OtherTables(t, q);
      if q.Create? && Valid(q) && q.id !in t.coupons && Key(q) !in t.couponByCode {
        CodesAfterAdding(t, NewCoupon(q), key);
      }
    }
  }

  lemma CodesAfterAdding(t: Tables, r: CouponRow, key: string)
    requires Legal(t) && r.id !in t.coupons && r.normalizedCode !in t.couponByCode
    ensures var t' := AddCoupon(t, r);
            && (key in t'.couponByCode <==> key in t.couponByCode || r.normalizedCode == key)
            && t'.coupons.Keys == t.coupons.Keys + {r.id}
            && FindCoupon(t', key) == (if r.normalizedCode == key then Some(r) else FindCoupon(t, key))
            && (r.normalizedCode == key ==> FindCoupon(t, key).None?)
  {
  }

  lemma CodesAfterTaking(t: Tables, r: RedemptionRow, row: CouponRow, key: string)
    requires row.id in t.coupons && t.coupons[row.id] == row
    ensures var t' := SetUses(AddRedemption(t, r), row.id, row.currentUses + 1);
            && t'.couponByCode == t.couponByCode && t'.coupons.Keys == t.coupons.Keys
            && (FindCoupon(t, key).Some? ==>
                  FindCoupon(t', key).Some? && SameIdentity(FindCoupon(t, key).value, FindCoupon(t', key).value))
  {
  }

  // ---------------------------------------------------------------- a whole serial run, seen from one coupon

  /** The log names requests, each at most once. */
  ghost predicate LogOf(qs: seq<Request>, log: seq<Entry>) {
    && (forall k :: 0 <= k < |log| ==> log[k].who < |qs|)
    && (forall k, l :: 0 <= k < l < |log| ==> log[k].who != log[l].who)
  }

  /** Redemption identifiers are fresh: new to the database and never drawn twice. */
  ghost predicate FreshIds(t0: Tables, qs: seq<Request>) {
    && (forall i :: 0 <= i < |qs| && qs[i].Redeem? ==> qs[i].id !in t0.redemptions)
    && (forall i, j :: 0 <= i < j < |qs| && qs[i].Redeem? && qs[j].Redeem? ==> qs[i].id != qs[j].id)
  }

  /** Entry k is an attempt on coupon c that no fault broke off. */
  ghost predicate Attempted(t0: Tables, qs: seq<Request>, log: seq<Entry>, c: Uuid, k: int)
    requires c in t0.coupons
  {
    0 <= k < |log| && log[k].who < |qs| && !log[k].how.Faulted? && Contender(t0, c, qs[log[k].who])
  }

  ghost function Fresh(t0: Tables, qs: seq<Request>, log: seq<Entry>, c: Uuid): set<string>
    requires c in t0.coupons
  {
    set k | 0 <= k < |log| && Attempted(t0, qs, log, c, k) && qs[log[k].who].user !in Users(t0, c)
      :: qs[log[k].who].user
  }

  ghost function Winners(t0: Tables, qs: seq<Request>, log: seq<Entry>, c: Uuid): set<string> {
    Users(Replay(t0, qs, log), c) - Users(t0, c)
  }

  function Min(a: int, b: int): int { if a <= b then a else b }

  predicate Drew(qs: seq<Request>, log: seq<Entry>, k: int, id: Uuid) {
    0 <= k < |log| && log[k].who < |qs| && qs[log[k].who].Redeem? && qs[log[k].who].id == id
  }

  /** Every redemption key of the replayed tables was there before or drawn by a logged request. */
  ghost predicate KeysKnown(t0: Tables, qs: seq<Request>, log: seq<Entry>) {
    forall id <- Replay(t0, qs, log).redemptions :: id in t0.redemptions || exists k :: Drew(qs, log, k, id)
  }

  /** The users gained so far all tried, they are as many as the uses gained, and while there is
      room nobody who tried is left out. */
  ghost predicate Balanced(before: set<string>, now: set<string>, tried: set<string>, gained: int, full: bool) {
    && before <= now
    && |now - before| == gained
    && now - before <= tried
    && (full || tried <= now - before)
  }

  /** What has become of coupon c since the tables t0, when the users in tried have tried. */
  ghost predicate TallyAt(t0: Tables, t: Tables, tried: set<string>, c: Uuid)
    requires c in t0.coupons
  {
    && Legal(t) && Consistent(t)
    && c in t.coupons && SameIdentity(t0.coupons[c], t.coupons[c])
    && Balanced(Users(t0, c), Users(t, c), tried,
                t.coupons[c].currentUses - t0.coupons[c].currentUses,
                t.coupons[c].currentUses == t.coupons[c].maxUses)
  }

  ghost predicate Tally(t0: Tables, qs: seq<Request>, log: seq<Entry>, c: Uuid)
    requires c in t0.coupons
  {
    TallyAt(t0, Replay(t0, qs, log), Fresh(t0, qs, log, c), c)
  }

  lemma TallyStarts(t0: Tables, qs: seq<Request>, c: Uuid)
    requires Legal(t0) && Consistent(t0) && c in t0.coupons
    ensures Tally(t0, qs, [], c)
  {
  }

  /** Contending depends only on what never changes of the coupon. */
  lemma ContenderIsStable(t0: Tables, t: Tables, c: Uuid, q: Request)
    requires c in t0.coupons && c in t.coupons && SameIdentity(t0.coupons[c], t.coupons[c])
    ensures Contender(t0, c, q) <==> Contender(t, c, q)
  {
  }

  lemma FitsInCoupon(t: Tables, c: Uuid)
    requires Legal(t) && c in t.coupons
    ensures t.coupons[c].currentUses <= t.coupons[c].maxUses
  {
  }

  /** One logged request, however it left the database, seen from coupon c. */
  lemma MeaningOnCoupon(t0: Tables, t: Tables, c: Uuid, q: Request, how: Disposition)
    requires Legal(t) && Consistent(t) && c in t0.coupons
    requires c in t.coupons && SameIdentity(t0.coupons[c], t.coupons[c])
    requires q.Redeem? ==> q.id !in t.redemptions
    ensures var t' := Meaning(t, q, how).0;
            var contends := !how.Faulted? && Contender(t0, c, q);
            var row := t.coupons[c];
            && Legal(t') && Consistent(t')
            && c in t'.coupons && SameIdentity(t0.coupons[c], t'.coupons[c])
            && var wins := contends && q.user !in Users(t, c) && row.currentUses != row.maxUses;
            && Users(t', c) == Users(t, c) + (if wins then {q.user} else {})
            && t'.coupons[c].currentUses == row.currentUses + (if wins then 1 else 0)
  {
    hide LegalCoupon, LegalRedemptions, Consistent, Serial, Users;
    ContenderIsStable(t0, t, c, q);
    if !how.Faulted? {
      SerialKeeps(t, q);
      EffectOnCoupon(t, c, q);
      FitsInCoupon(t, c);
    }
  }

  lemma FreshGrows(t0: Tables, qs: seq<Request>, log: seq<Entry>, e: Entry, c: Uuid)
    requires c in t0.coupons && e.who < |qs|
    ensures Fresh(t0, qs, log + [e], c) == Fresh(t0, qs, log, c)
            + (if !e.how.Faulted? && Contender(t0, c, qs[e.who]) && qs[e.who].user !in Users(t0, c)
               then {qs[e.who].user} else {})
  {
    hide Valid, Key, LocatedIn, Users;
    var l := log + [e];
    assert forall k :: Attempted(t0, qs, log, c, k) ==> l[k] == log[k] && Attempted(t0, qs, l, c, k);
    assert forall k :: k != |log| && Attempted(t0, qs, l, c, k) ==> l[k] == log[k] && Attempted(t0, qs, log, c, k);
    assert l[|log|] == e;
    assert Attempted(t0, qs, l, c, |log|) <==> !e.how.Faulted? && Contender(t0, c, qs[e.who]);
    var tries := !e.how.Faulted? && Contender(t0, c, qs[e.who]) && qs[e.who].user !in Users(t0, c);
    var extra := if tries then {qs[e.who].user} else {};
    forall u | u in Fresh(t0, qs, l, c) ensures u in Fresh(t0, qs, log, c) + extra {
      var k :| 0 <= k < |l| && Attempted(t0, qs, l, c, k) && qs[l[k].who].user !in Users(t0, c)
          && u == qs[l[k].who].user;
      assert k == |log| || Attempted(t0, qs, log, c, k);
    }
    forall u | u in Fresh(t0, qs, log, c) + extra ensures u in Fresh(t0, qs, l, c) {
      if u in Fresh(t0, qs, log, c) {
        var k :| 0 <= k < |log| && Attempted(t0, qs, log, c, k) && qs[log[k].who].user !in Users(t0, c)
            && u == qs[log[k].who].user;
        assert Attempted(t0, qs, l, c, k);
      } else {
        assert Attempted(t0, qs, l, c, |log|);
      }
    }
  }

  lemma MeaningDraws(t: Tables, q: Request, how: Disposition)
    ensures Meaning(t, q, how).0.redemptions.Keys <= t.redemptions.Keys + (if q.Redeem? then {q.id} else {})
  {
  }

  lemma KeysStayKnown(t0: Tables, qs: seq<Request>, log: seq<Entry>, e: Entry)
    requires e.who < |qs| && KeysKnown(t0, qs, log)
    ensures KeysKnown(t0, qs, log + [e])
  {
    ReplayGrows(t0, qs, log, e);
    var t := Replay(t0, qs, log);
    MeaningDraws(t, qs[e.who], e.how);
    hide Replay, Serial, Meaning;
    forall id | id in Replay(t0, qs, log + [e]).redemptions && id !in t0.redemptions
      ensures exists k :: Drew(qs, log + [e], k, id)
    {
      if id in t.redemptions {
        var k :| Drew(qs, log, k, id);
        assert Drew(qs, log + [e], k, id);
      } else {
        assert Drew(qs, log + [e], |log|, id);
      }
    }
  }

  /** The fresh id of a request not yet logged is not in the tables. */
  lemma IdIsUnused(t0: Tables, qs: seq<Request>, log: seq<Entry>, e: Entry)
    requires LogOf(qs, log + [e]) && FreshIds(t0, qs) && KeysKnown(t0, qs, log)
    ensures e.who < |qs|
    ensures qs[e.who].Redeem? ==> qs[e.who].id !in Replay(t0, qs, log).redemptions
  {
    assert (log + [e])[|log|] == e;
    forall k | qs[e.who].Redeem? ensures !Drew(qs, log, k, qs[e.who].id) {
      if 0 <= k < |log| {
        assert (log + [e])[k].who != (log + [e])[|log|].who;
      }
    }
  }

  lemma BalancedAfter(before: set<string>, now: set<string>, tried: set<string>, gained: int, full: bool,
                      user: string, contends: bool, full': bool)
    requires Balanced(before, now, tried, gained, full)
    requires !(contends && user !in now && !full) ==> full' == full
    ensures var wins := contends && user !in now && !full;
            Balanced(before, now + (if wins then {user} else {}),
                     tried + (if contends && user !in before then {user} else {}),
                     gained + (if wins then 1 else 0), full')
  {
  }

  lemma TallyAfter(t0: Tables, t: Tables, tried: set<string>, c: Uuid, q: Request, how: Disposition)
    requires c in t0.coupons && TallyAt(t0, t, tried, c)
    requires q.Redeem? ==> q.id !in t.redemptions
    ensures var tries := !how.Faulted? && Contender(t0, c, q) && q.user !in Users(t0, c);
            TallyAt(t0, Meaning(t, q, how).0, tried + (if tries then {q.user} else {}), c)
  {
    var t' := Meaning(t, q, how).0;
    MeaningOnCoupon(t0, t, c, q, how);
    BalancedAfter(Users(t0, c), Users(t, c), tried,
                  t.coupons[c].currentUses - t0.coupons[c].currentUses,
                  t.coupons[c].currentUses == t.coupons[c].maxUses,
                  if q.Redeem? then q.user else "", !how.Faulted? && Contender(t0, c, q),
                  t'.coupons[c].currentUses == t'.coupons[c].maxUses);
  }

  /** Running one more logged request keeps the tally of coupon c. */
  lemma TallyGrows(t0: Tables, qs: seq<Request>, log: seq<Entry>, e: Entry, c: Uuid)
    requires c in t0.coupons && Tally(t0, qs, log, c)
    requires e.who < |qs| && (qs[e.who].Redeem? ==> qs[e.who].id !in Replay(t0, qs, log).redemptions)
    ensures Tally(t0, qs, log + [e], c)
  {
    ReplayGrows(t0, qs, log, e);
    FreshGrows(t0, qs, log, e, c);
    TallyAfter(t0, Replay(t0, qs, log), Fresh(t0, qs, log, c), c, qs[e.who], e.how);
  }

  lemma {:induction false} TallyOfLog(t0: Tables, qs: seq<Request>, log: seq<Entry>, c: Uuid)
    requires Legal(t0) && Consistent(t0) && c in t0.coupons && LogOf(qs, log) && FreshIds(t0, qs)
    ensures Tally(t0, qs, log, c) && KeysKnown(t0, qs, log)
    decreases |log|
  {
    if log == [] {
      TallyStarts(t0, qs, c);
    } else {
      hide Legal, Consistent, Tally, KeysKnown, FreshIds, LogOf, Replay;
      var front, e := log[..|log| - 1], log[|log| - 1];
      FrontOf(log, 0);
      PrefixIsLog(qs, log, |log| - 1);
      TallyOfLog(t0, qs, front, c);
      IdIsUnused(t0, qs, front, e);
      TallyGrows(t0, qs, front, e, c);
      KeysStayKnown(t0, qs, front, e);
    }
  }

  lemma PrefixIsLog(qs: seq<Request>, log: seq<Entry>, k: nat)
    requires LogOf(qs, log) && k <= |log|
    ensures LogOf(qs, log[..k])
  {
  }

  /** Users of a coupon only accumulate, and once it is full they stay the same. */
  ghost predicate Onward(t: Tables, t': Tables, c: Uuid) {
    && c in t.coupons && c in t'.coupons && t.coupons[c].maxUses == t'.coupons[c].maxUses
    && Users(t, c) <= Users(t', c)
    && (t.coupons[c].currentUses == t.coupons[c].maxUses ==>
          Users(t, c) == Users(t', c) && t'.coupons[c].currentUses == t'.coupons[c].maxUses)
  }

  lemma OnwardStep(t0: Tables, t: Tables, t1: Tables, c: Uuid, q: Request, how: Disposition)
    requires Legal(t1) && Consistent(t1) && c in t0.coupons
    requires c in t1.coupons && SameIdentity(t0.coupons[c], t1.coupons[c]) && Onward(t, t1, c)
    requires q.Redeem? ==> q.id !in t1.redemptions
    ensures Onward(t, Meaning(t1, q, how).0, c)
  {
    hide Legal, Consistent, Meaning, Users, Onward;
    MeaningOnCoupon(t0, t1, c, q, how);
    OnwardByGrowth(t, t1, Meaning(t1, q, how).0, c);
  }

  lemma OnwardByGrowth(t: Tables, t1: Tables, t2: Tables, c: Uuid)
    requires Onward(t, t1, c) && c in t2.coupons && SameIdentity(t1.coupons[c], t2.coupons[c])
    requires Users(t1, c) <= Users(t2, c)
    requires t1.coupons[c].currentUses == t1.coupons[c].maxUses ==>
               Users(t1, c) == Users(t2, c) && t2.coupons[c].currentUses == t1.coupons[c].currentUses
    ensures Onward(t, t2, c)
  {
  }

  lemma {:induction false} ReplayIsOnward(t0: Tables, qs: seq<Request>, log: seq<Entry>, c: Uuid, k: nat)
    requires Legal(t0) && Consistent(t0) && c in t0.coupons && LogOf(qs, log) && FreshIds(t0, qs) && k <= |log|
    ensures Onward(Replay(t0, qs, log[..k]), Replay(t0, qs, log), c)
    decreases |log|
  {
    hide Onward, Legal, Consistent, Replay, KeysKnown, LogOf, FreshIds, Meaning, Balanced, Fresh, Users, SameIdentity;
    if k == |log| {
      WholePrefix(log);
      TallyOfLog(t0, qs, log, c);
      OnwardItself(Replay(t0, qs, log), c);
    } else {
      var front, e := log[..|log| - 1], log[|log| - 1];
      FrontOf(log, k);
      PrefixIsLog(qs, log, |log| - 1);
      ReplayIsOnward(t0, qs, front, c, k);
      TallyOfLog(t0, qs, front, c);
      IdIsUnused(t0, qs, front, e);
      ReplayGrows(t0, qs, front, e);
      OnwardStep(t0, Replay(t0, qs, front[..k]), Replay(t0, qs, front), c, qs[e.who], e.how);
    }
  }

  lemma OnwardItself(t: Tables, c: Uuid)
    requires c in t.coupons
    ensures Onward(t, t, c)
  {
  }

  lemma NextPrefix(log: seq<Entry>, k: nat)
    requires k < |log|
    ensures log[..k + 1] == log[..k] + [log[k]]
  {
  }

  lemma WholePrefix(log: seq<Entry>)
    ensures log[..|log|] == log
  {
  }

  lemma FrontOf(log: seq<Entry>, k: nat)
    requires k < |log|
    ensures log == log[..|log| - 1] + [log[|log| - 1]] && log[..k] == log[..|log| - 1][..k]
  {
  }

  ghost predicate FirstAttempt(t0: Tables, qs: seq<Request>, log: seq<Entry>, c: Uuid, k: nat)
    requires c in t0.coupons && k < |log| && Attempted(t0, qs, log, c, k)
  {
    forall l :: 0 <= l < k && Attempted(t0, qs, log, c, l) ==> qs[log[l].who].user != qs[log[k].who].user
  }

  /** The database's answer to the attempt logged at k, before any acknowledgement can be lost. */
  function AnswerAt(t0: Tables, qs: seq<Request>, log: seq<Entry>, k: nat): Outcome
    requires k < |log| && log[k].who < |qs|
  {
    Serial(Replay(t0, qs, log[..k]), qs[log[k].who]).1
  }

  /** An earlier attempt of the same user is what makes the user one of those who tried. */
  lemma TriedBefore(t0: Tables, qs: seq<Request>, log: seq<Entry>, c: Uuid, k: nat)
    requires c in t0.coupons && k < |log| && Attempted(t0, qs, log, c, k)
    requires qs[log[k].who].user !in Users(t0, c)
    ensures qs[log[k].who].user in Fresh(t0, qs, log[..k], c) <==> !FirstAttempt(t0, qs, log, c, k)
  {
  }

  /** A win is visible in the tables right after it. */
  lemma WinShows(t0: Tables, qs: seq<Request>, log: seq<Entry>, c: Uuid, k: nat)
    requires Legal(t0) && Consistent(t0) && c in t0.coupons && LogOf(qs, log) && FreshIds(t0, qs)
    requires k < |log| && Attempted(t0, qs, log, c, k)
    requires var t := Replay(t0, qs, log[..k]); c in t.coupons && Legal(t) && Wins(t, c, qs[log[k].who])
    ensures qs[log[k].who].user in Users(Replay(t0, qs, log), c)
  {
    hide Legal, Consistent, Wins, Serial, Replay, Users, FreshIds;
    PrefixIsLog(qs, log, k + 1);
    NextPrefix(log, k);
    ReplayGrows(t0, qs, log[..k], log[k]);
    EffectOnCoupon(Replay(t0, qs, log[..k]), c, qs[log[k].who]);
    ReplayIsOnward(t0, qs, log, c, k + 1);
  }

  lemma AnswerInContext(t0: Tables, t: Tables, final: Tables, tried: set<string>, c: Uuid, q: Request)
    requires c in t0.coupons && TallyAt(t0, t, tried, c) && Onward(t, final, c)
    requires Contender(t, c, q) && q.id !in t.redemptions
    requires Wins(t, c, q) ==> q.user in Users(final, c)
    ensures var u, a := q.user, Serial(t, q).1;
            && (u in Users(t0, c) ==> a == AlreadyRedeemed)
            && (u !in Users(t0, c) && u !in Users(final, c) ==> a == Exhausted)
            && (u !in Users(t0, c) && u in Users(final, c) ==> if u in tried then a == AlreadyRedeemed else a.Redeemed?)
  {
    ContenderReply(t, c, q);
    FitsInCoupon(t, c);
  }

  /** What each attempt on coupon c is told, in terms of who wins in the end. */
  lemma AnswerOfAttempt(t0: Tables, qs: seq<Request>, log: seq<Entry>, c: Uuid, k: nat)
    requires Legal(t0) && Consistent(t0) && c in t0.coupons && LogOf(qs, log) && FreshIds(t0, qs)
    requires k < |log| && Attempted(t0, qs, log, c, k)
    ensures var u, a := qs[log[k].who].user, AnswerAt(t0, qs, log, k);
            && (u in Users(t0, c) ==> a == AlreadyRedeemed)
            && (u !in Users(t0, c) && u !in Winners(t0, qs, log, c) ==> a == Exhausted)
            && (u in Winners(t0, qs, log, c) ==>
                  if FirstAttempt(t0, qs, log, c, k) then a.Redeemed? else a == AlreadyRedeemed)
  {
    var q := qs[log[k].who];
    var t, final := Replay(t0, qs, log[..k]), Replay(t0, qs, log);
    PrefixIsLog(qs, log, k);
    TallyOfLog(t0, qs, log[..k], c);
    ReplayIsOnward(t0, qs, log, c, k);
    ContenderIsStable(t0, t, c, q);
    UnusedAt(t0, qs, log, k);
    if Wins(t, c, q) {
      WinShows(t0, qs, log, c, k);
    }
    AnswerInContext(t0, t, final, Fresh(t0, qs, log[..k], c), c, q);
    if q.user !in Users(t0, c) {
      TriedBefore(t0, qs, log, c, k);
    }
  }

  lemma UnusedAt(t0: Tables, qs: seq<Request>, log: seq<Entry>, k: nat)
    requires LogOf(qs, log) && FreshIds(t0, qs) && k < |log| && KeysKnown(t0, qs, log[..k])
    ensures qs[log[k].who].Redeem? ==> qs[log[k].who].id !in Replay(t0, qs, log[..k]).redemptions
  {
  }

  lemma {:induction false} SubsetIsSmaller<T>(a: set<T>, b: set<T>)
    requires a <= b
    ensures |a| <= |b|
    ensures |a| == |b| ==> a == b
  {
    assert b == a + (b - a);
  }

  lemma CountOfTally(t0: Tables, t: Tables, tried: set<string>, c: Uuid)
    requires c in t0.coupons && TallyAt(t0, t, tried, c)
    ensures Users(t, c) - Users(t0, c) <= tried
    ensures |Users(t, c) - Users(t0, c)| == Min(t0.coupons[c].maxUses - t0.coupons[c].currentUses, |tried|)
  {
    hide Legal, Consistent, Users;
    FitsInCoupon(t, c);
    var won := Users(t, c) - Users(t0, c);
    SubsetIsSmaller(won, tried);
    if t.coupons[c].currentUses != t.coupons[c].maxUses {
      assert won == tried;
    }
  }

  /** As many fresh users win as there are places, or all of them if there are places enough. */
  lemma CountOfWinners(t0: Tables, qs: seq<Request>, log: seq<Entry>, c: Uuid)
    requires Legal(t0) && Consistent(t0) && c in t0.coupons && LogOf(qs, log) && FreshIds(t0, qs)
    ensures Winners(t0, qs, log, c) <= Fresh(t0, qs, log, c)
    ensures |Winners(t0, qs, log, c)|
            == Min(t0.coupons[c].maxUses - t0.coupons[c].currentUses, |Fresh(t0, qs, log, c)|)
  {
    hide TallyAt, Users, Legal, Consistent, Replay;
    TallyOfLog(t0, qs, log, c);
    CountOfTally(t0, Replay(t0, qs, log), Fresh(t0, qs, log, c), c);
  }
}
