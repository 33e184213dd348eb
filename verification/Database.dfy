/** The two tables, their constraints and the SQL statements that touch them. */
module Database {
  import opened Wrappers
  import opened CouponDomain
  import opened Text

  type Uuid = nat
  type Instant = int

  datatype CouponRow = CouponRow(
    id: Uuid, code: string, normalizedCode: string, createdAt: Instant,
    maxUses: int, currentUses: int, countryCode: string)

  datatype RedemptionRow = RedemptionRow(
    id: Uuid, couponId: Uuid, userId: string, countryCode: string, redeemedAt: Instant)

  /** Rows by primary key, with one index per UNIQUE constraint:
      uq_coupons_normalized_code and uq_coupon_redemptions_coupon_user. */
  datatype Tables = Tables(
    coupons: map<Uuid, CouponRow>, couponByCode: map<string, Uuid>,
    redemptions: map<Uuid, RedemptionRow>, redemptionByPair: map<(Uuid, string), Uuid>)

  // ---------------------------------------------------------------- constraints

  /** The CHECK constraints of table coupons. */
  predicate LegalCoupon(r: CouponRow) {
    && 0 < r.maxUses <= MAX_USES_LIMIT
    && 0 <= r.currentUses <= r.maxUses
    && CodeFormat(r.code)
    && CanonicalCodeFormat(r.normalizedCode)
    && r.normalizedCode == Upper(r.code)
    && CountryFormat(r.countryCode)
  }

  /** The CHECK constraints of table coupon_redemptions after the second migration. */
  predicate LegalRedemption(r: RedemptionRow) {
    UserIdFormat(r.userId) && CountryFormat(r.countryCode)
  }

  ghost predicate LegalCoupons(t: Tables) {
    && (forall id <- t.coupons :: t.coupons[id].id == id && LegalCoupon(t.coupons[id]))
    && (forall id <- t.coupons :: t.coupons[id].normalizedCode in t.couponByCode
                                  && t.couponByCode[t.coupons[id].normalizedCode] == id)
    && (forall code <- t.couponByCode :: t.couponByCode[code] in t.coupons
                                         && t.coupons[t.couponByCode[code]].normalizedCode == code)
  }

  function PairOf(r: RedemptionRow): (Uuid, string) { (r.couponId, r.userId) }

  ghost predicate LegalRedemptions(t: Tables) {
    && (forall id <- t.redemptions :: t.redemptions[id].id == id && LegalRedemption(t.redemptions[id])
                                      && t.redemptions[id].couponId in t.coupons)
    && (forall id <- t.redemptions :: PairOf(t.redemptions[id]) in t.redemptionByPair
                                      && t.redemptionByPair[PairOf(t.redemptions[id])] == id)
    && (forall pair <- t.redemptionByPair :: t.redemptionByPair[pair] in t.redemptions
                                             && PairOf(t.redemptions[t.redemptionByPair[pair]]) == pair)
  }

  /** Every constraint PostgreSQL enforces: keys, unique indexes, foreign key, checks. */
  ghost predicate Legal(t: Tables) {
    LegalCoupons(t) && LegalRedemptions(t)
  }

  ghost function RedemptionsOf(t: Tables, coupon: Uuid): set<Uuid> {
    set id | id in t.redemptions && t.redemptions[id].couponId == coupon
  }

  /** What no single constraint can say: the counter equals the number of redemption rows. */
  ghost predicate Consistent(t: Tables) {
    forall c <- t.coupons :: t.coupons[c].currentUses == |RedemptionsOf(t, c)|
  }

  /** The indexes really make codes and (coupon, user) pairs unique among the rows. */
  lemma LegalMeansUnique(t: Tables)
    requires Legal(t)
    ensures forall a, b | a in t.coupons && b in t.coupons
                          && t.coupons[a].normalizedCode == t.coupons[b].normalizedCode :: a == b
    ensures forall a, b | a in t.redemptions && b in t.redemptions
                          && t.redemptions[a].couponId == t.redemptions[b].couponId
                          && t.redemptions[a].userId == t.redemptions[b].userId :: a == b
  {
  }

  /** A database with the one coupon ABC, unused, for one use. */
  function OneCoupon(country: string): Tables {
    Tables(map[7 := CouponRow(7, "ABC", "ABC", 0, 1, 0, country)], map["ABC" := 7], map[], map[])
  }

  lemma OneCouponIsLegal(country: string)
    requires CountryFormat(country)
    ensures Legal(OneCoupon(country)) && Consistent(OneCoupon(country))
  {
    assert Upper("ABC") == "ABC";
    assert RedemptionsOf(OneCoupon(country), 7) == {};
  }

  // ---------------------------------------------------------------- statements

  /** SELECT ... FROM coupons WHERE normalized_code = :code. */
  function FindCoupon(t: Tables, code: string): Option<CouponRow> {
    if code in t.couponByCode && t.couponByCode[code] in t.coupons
    then Some(t.coupons[t.couponByCode[code]])
    else None
  }

  /** The row mapper rebuilds the domain object, whose constructors validate again. */
  predicate Readable(r: CouponRow) {
    && CodeFormat(Trim(r.code))
    && NamesCountry(r.countryCode)
    && 1 <= r.maxUses <= MAX_USES_LIMIT
    && 0 <= r.currentUses <= r.maxUses
  }

  /** The row mapper accepts a legal row exactly when its country is on the ISO list: the other
      validations repeat the CHECK constraints. */
  lemma ReadableMeansListed(r: CouponRow)
    requires LegalCoupon(r)
    ensures Readable(r) <==> r.countryCode in ISO_COUNTRIES
  {
    WellFormedIsTrimmed(r.code);
    ListedIsTrimmed(r.countryCode);
  }

  /** SELECT COUNT(*) FROM coupon_redemptions WHERE coupon_id = :couponId AND user_id = :userId. */
  predicate HasRedeemed(t: Tables, coupon: Uuid, user: string) {
    (coupon, user) in t.redemptionByPair
  }

  function AddCoupon(t: Tables, r: CouponRow): Tables {
    t.(coupons := t.coupons[r.id := r], couponByCode := t.couponByCode[r.normalizedCode := r.id])
  }

  function AddRedemption(t: Tables, r: RedemptionRow): Tables {
    t.(redemptions := t.redemptions[r.id := r],
       redemptionByPair := t.redemptionByPair[PairOf(r) := r.id])
  }

  function SetUses(t: Tables, coupon: Uuid, uses: int): Tables {
    if coupon in t.coupons
    then t.(coupons := t.coupons[coupon := t.coupons[coupon].(currentUses := uses)])
    else t
  }

  /** The uncommitted writes of one transaction. */
  datatype Writes = Writes(
    coupon: Option<CouponRow>, redemption: Option<RedemptionRow>, uses: Option<(Uuid, int)>)

  const NO_WRITES := Writes(None, None, None)

  /** What a statement of the transaction sees under READ COMMITTED: the newest committed
      tables overlaid with the transaction's own writes. COMMIT installs the same overlay. */
  function View(t: Tables, w: Writes): Tables {
    var t1 := if w.coupon.Some? then AddCoupon(t, w.coupon.value) else t;
    var t2 := if w.redemption.Some? then AddRedemption(t1, w.redemption.value) else t1;
    if w.uses.Some? then SetUses(t2, w.uses.value.0, w.uses.value.1) else t2
  }

  // ---------------------------------------------------------------- what the writes keep

  /** Installing a fresh coupon keeps every constraint and every count. */
  lemma AddCouponKeeps(t: Tables, r: CouponRow)
    requires Legal(t) && Consistent(t)
    requires LegalCoupon(r) && r.currentUses == 0
    requires r.id !in t.coupons && r.normalizedCode !in t.couponByCode
    ensures Legal(AddCoupon(t, r)) && Consistent(AddCoupon(t, r))
  {
    AddCouponKeepsCoupons(t, r);
    var u := AddCoupon(t, r);
    assert LegalRedemptions(u);
    forall c | c in u.coupons ensures u.coupons[c].currentUses == |RedemptionsOf(u, c)| {
      assert RedemptionsOf(u, c) == RedemptionsOf(t, c);
      if c == r.id {
        assert RedemptionsOf(u, c) == {};
      }
    }
  }

  lemma AddCouponKeepsCoupons(t: Tables, r: CouponRow)
    requires LegalCoupons(t) && LegalCoupon(r)
    requires r.id !in t.coupons && r.normalizedCode !in t.couponByCode
    ensures LegalCoupons(AddCoupon(t, r))
  {
  }

  lemma AddRedemptionKeepsRedemptions(t: Tables, r: RedemptionRow)
    requires LegalRedemptions(t) && LegalRedemption(r) && r.couponId in t.coupons
    requires r.id !in t.redemptions && PairOf(r) !in t.redemptionByPair
    ensures LegalRedemptions(AddRedemption(t, r))
  {
  }

  lemma SetUsesKeepsLegal(t: Tables, coupon: Uuid, uses: int)
    requires Legal(t) && coupon in t.coupons && 0 <= uses <= t.coupons[coupon].maxUses
    ensures Legal(SetUses(t, coupon, uses))
  {
  }

  /** One redemption row plus one increment, together, keep the counter equal to the rows. */
  lemma RedeemKeeps(t: Tables, r: RedemptionRow)
    requires Legal(t) && Consistent(t)
    requires LegalRedemption(r) && r.id !in t.redemptions && PairOf(r) !in t.redemptionByPair
    requires r.couponId in t.coupons && t.coupons[r.couponId].currentUses < t.coupons[r.couponId].maxUses
    ensures var u := SetUses(AddRedemption(t, r), r.couponId, t.coupons[r.couponId].currentUses + 1);
            Legal(u) && Consistent(u)
  {
    var t1 := AddRedemption(t, r);
    AddRedemptionKeepsRedemptions(t, r);
    assert LegalCoupons(t1);
    var u := SetUses(t1, r.couponId, t.coupons[r.couponId].currentUses + 1);
    SetUsesKeepsLegal(t1, r.couponId, t.coupons[r.couponId].currentUses + 1);
    RedeemKeepsCounts(t, r);
  }

  lemma SizeWith<T>(all: set<T>, others: set<T>, x: T, present: bool)
    requires x !in others && forall y :: y in all <==> y in others || (y == x && present)
    ensures |all| == |others| + (if present then 1 else 0)
  {
    assert all == if present then others + {x} else others;
  }

  lemma RedeemKeepsCounts(t: Tables, r: RedemptionRow)
    requires Consistent(t) && r.id !in t.redemptions && r.couponId in t.coupons
    ensures Consistent(SetUses(AddRedemption(t, r), r.couponId, t.coupons[r.couponId].currentUses + 1))
  {
    var u := SetUses(AddRedemption(t, r), r.couponId, t.coupons[r.couponId].currentUses + 1);
    forall c | c in u.coupons ensures u.coupons[c].currentUses == |RedemptionsOf(u, c)| {
      SizeWith(RedemptionsOf(u, c), RedemptionsOf(t, c), r.id, c == r.couponId);
    }
  }
}
