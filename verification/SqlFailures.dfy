/** What a failed statement throws, and how the repositories look through the chain of causes. */
module SqlFailures {
  import opened Wrappers
  import opened Database

  /** The server's report: a state, and the constraint if one was violated. */
  datatype SqlError = SqlError(state: string, constraint: Option<string>)

  /** An exception, the server's report if it carries one, and its cause. */
  datatype Throwable = Throwable(sql: Option<SqlError>, cause: Option<Throwable>)

  function Causes(t: Throwable): seq<Throwable> {
    [t] + (if t.cause.Some? then Causes(t.cause.value) else [])
  }

  /** Some cause reports a violation of the named constraint. */
  ghost predicate NamesConstraint(t: Throwable, name: string) {
    exists i :: 0 <= i < |Causes(t)| && Causes(t)[i].sql.Some? && Causes(t)[i].sql.value.constraint == Some(name)
  }

  /** Some cause reports the state. */
  ghost predicate HasState(t: Throwable, state: string) {
    exists i :: 0 <= i < |Causes(t)| && Causes(t)[i].sql.Some? && Causes(t)[i].sql.value.state == state
  }

  /** However deep the data-access layer buries it, the chain reports exactly this error. */
  ghost predicate Reports(t: Throwable, e: SqlError) {
    && (exists i :: 0 <= i < |Causes(t)| && Causes(t)[i].sql == Some(e))
    && (forall i :: 0 <= i < |Causes(t)| ==> Causes(t)[i].sql.None? || Causes(t)[i].sql == Some(e))
  }

  lemma BareReports(e: SqlError)
    ensures Reports(Throwable(Some(e), None), e)
  {
    assert Causes(Throwable(Some(e), None))[0].sql == Some(e);
  }

  /** hasNamedConstraint. */
  method HasNamedConstraint(failure: Throwable, expected: string) returns (r: bool)
    ensures r <==> NamesConstraint(failure, expected)
  {
    var current := Some(failure);
    ghost var n := 0;
    while current.Some?
      invariant 0 <= n <= |Causes(failure)|
      invariant if current.Some? then Causes(current.value) == Causes(failure)[n..] else n == |Causes(failure)|
      invariant forall i :: 0 <= i < n ==> !(Causes(failure)[i].sql.Some?
                                             && Causes(failure)[i].sql.value.constraint == Some(expected))
      decreases |Causes(failure)| - n
    {
      assert Causes(failure)[n] == current.value;
      assert Causes(current.value)[1..] == Causes(failure)[n + 1..];
      if current.value.sql.Some? && current.value.sql.value.constraint == Some(expected) {
        return true;
      }
      current := current.value.cause;
      n := n + 1;
    }
    return false;
  }

  /** hasSqlState. */
  method HasSqlState(failure: Throwable, expected: string) returns (r: bool)
    ensures r <==> HasState(failure, expected)
  {
    var current := Some(failure);
    ghost var n := 0;
    while current.Some?
      invariant 0 <= n <= |Causes(failure)|
      invariant if current.Some? then Causes(current.value) == Causes(failure)[n..] else n == |Causes(failure)|
      invariant forall i :: 0 <= i < n ==>
                !(Causes(failure)[i].sql.Some? && Causes(failure)[i].sql.value.state == expected)
      decreases |Causes(failure)| - n
    {
      assert Causes(failure)[n] == current.value;
      assert Causes(current.value)[1..] == Causes(failure)[n + 1..];
      if current.value.sql.Some? && current.value.sql.value.state == expected {
        return true;
      }
      current := current.value.cause;
      n := n + 1;
    }
    return false;
  }

  // ---------------------------------------------------------------- the errors of the two INSERTs

  const UNIQUE_VIOLATION := "23505"
  const USER_CONSTRAINT := "uq_coupon_redemptions_coupon_user"

  /** What INSERT INTO coupon_redemptions violates, if anything. */
  function RedemptionError(t: Tables, r: RedemptionRow): Option<SqlError> {
    if r.id in t.redemptions then Some(SqlError(UNIQUE_VIOLATION, Some("coupon_redemptions_pkey")))
    else if PairOf(r) in t.redemptionByPair then Some(SqlError(UNIQUE_VIOLATION, Some(USER_CONSTRAINT)))
    else if r.couponId !in t.coupons then Some(SqlError("23503", Some("fk_coupon_redemptions_coupon")))
    else if !LegalRedemption(r) then Some(SqlError("23514", Some("ck_coupon_redemptions_user_id_visible_ascii")))
    else None
  }

  /** What INSERT INTO coupons violates, if anything. */
  function CouponError(t: Tables, r: CouponRow): Option<SqlError> {
    if r.id in t.coupons then Some(SqlError(UNIQUE_VIOLATION, Some("coupons_pkey")))
    else if r.normalizedCode in t.couponByCode then Some(SqlError(UNIQUE_VIOLATION, Some("uq_coupons_normalized_code")))
    else if !LegalCoupon(r) then Some(SqlError("23514", Some("ck_coupons_code_format")))
    else None
  }
}
