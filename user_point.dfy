/**
 * The balance record of one user and the two balance rules: the charge rule
 * (`validate` in the source) and the use rule (`validateUsage`). Both are pure
 * transitions on an immutable record; the source signals a rejected amount by
 * throwing, which this model returns as an `Err` value instead.
 */
module UserPoints {

  /** The inclusive upper bound a balance may reach. */
  const MaxPoint: int := 1000000

  /** `UserPoint(id, point, updateMillis)`; `updateMillis` is the clock reading
      the caller supplies as `now`. */
  datatype UserPoint = UserPoint(id: int, point: int, updateMillis: int)

  /** The three reasons a rule rejects an amount. */
  datatype PointError =
    | InvalidAmount   // a negative charge, or a use that is not positive
    | CapExceeded     // the charge would lift the balance above MaxPoint
    | Insufficient    // the use is larger than the balance

  datatype Result<T> = Ok(value: T) | Err(error: PointError)

  predicate InRange(point: int) {
    0 <= point <= MaxPoint
  }

  /** A fresh account: the given id with a zero balance. */
  function Empty(id: int, now: int): (u: UserPoint)
    ensures u.id == id && u.point == 0 && InRange(u.point)
    ensures u.updateMillis == now
  {
    UserPoint(id, 0, now)
  }

  /** The charge rule. It accepts exactly the amounts in the window
      [0, MaxPoint - u.point]; an accepted charge raises the balance by the
      amount and never past the cap. Zero is accepted. */
  function Validate(u: UserPoint, amount: int, now: int): (r: Result<UserPoint>)
    ensures r.Ok? <==> 0 <= amount <= MaxPoint - u.point
    ensures r == Err(InvalidAmount) <==> amount < 0
    ensures r == Err(CapExceeded) <==> 0 <= amount && u.point + amount > MaxPoint
    ensures r.Ok? ==> r.value.id == u.id && r.value.updateMillis == now
    ensures r.Ok? ==> r.value.point - u.point == amount
    ensures r.Ok? ==> u.point <= r.value.point <= MaxPoint
  {
    if amount < 0 then Err(InvalidAmount)
    else if u.point + amount > MaxPoint then Err(CapExceeded)
    else Ok(UserPoint(u.id, u.point + amount, now))
  }

  /** The use rule. It accepts exactly the amounts in the window
      [1, u.point]; an accepted use lowers the balance by the amount and
      never below zero. Zero is rejected. */
  function ValidateUsage(u: UserPoint, amount: int, now: int): (r: Result<UserPoint>)
    ensures r.Ok? <==> 0 < amount <= u.point
    ensures r == Err(InvalidAmount) <==> amount <= 0
    ensures r == Err(Insufficient) <==> 0 < amount && u.point < amount
    ensures r.Ok? ==> r.value.id == u.id && r.value.updateMillis == now
    ensures r.Ok? ==> u.point - r.value.point == amount
    ensures r.Ok? ==> 0 <= r.value.point < u.point
  {
    if amount <= 0 then Err(InvalidAmount)
    else if u.point < amount then Err(Insufficient)
    else Ok(UserPoint(u.id, u.point - amount, now))
  }

  /** Both rules keep a balance inside [0, MaxPoint]. */
  lemma RulesKeepRange(u: UserPoint, amount: int, now: int)
    requires InRange(u.point)
    ensures Validate(u, amount, now).Ok? ==> InRange(Validate(u, amount, now).value.point)
    ensures ValidateUsage(u, amount, now).Ok? ==> InRange(ValidateUsage(u, amount, now).value.point)
  {
  }

  /** A positive charge followed by a use of the same amount restores the
      balance, and so does a use followed by a charge of the same amount. */
  lemma ChargeAndUseAreInverse(u: UserPoint, amount: int, now: int, later: int)
    requires InRange(u.point) && amount > 0
    ensures Validate(u, amount, now).Ok? ==>
      ValidateUsage(Validate(u, amount, now).value, amount, later) == Ok(u.(updateMillis := later))
    ensures ValidateUsage(u, amount, now).Ok? ==>
      Validate(ValidateUsage(u, amount, now).value, amount, later) == Ok(u.(updateMillis := later))
  {
  }

  /** The two rules treat a zero amount differently: a zero charge is a
      successful no-op on the balance, a zero use is an invalid amount. */
  lemma ZeroAmountAsymmetry(u: UserPoint, now: int)
    requires InRange(u.point)
    ensures Validate(u, 0, now) == Ok(u.(updateMillis := now))
    ensures ValidateUsage(u, 0, now) == Err(InvalidAmount)
  {
  }

  /** The expected values of the rule-level unit tests, on a balance of 5000. */
  lemma RuleExamples(now: int)
    ensures Validate(UserPoint(1, 5000, 0), 996000, now) == Err(CapExceeded)
    ensures Validate(UserPoint(1, 5000, 0), 10000, now) == Ok(UserPoint(1, 15000, now))
    ensures ValidateUsage(UserPoint(1, 5000, 0), 10000, now) == Err(Insufficient)
    ensures ValidateUsage(UserPoint(1, 5000, 0), -10000, now) == Err(InvalidAmount)
    ensures ValidateUsage(UserPoint(1, 5000, 0), 3000, now) == Ok(UserPoint(1, 2000, now))
  {
  }

  // ---------------------------------------------------------------------
  // The charge rule as written, over Java's 64-bit `long`.

  const LongMin: int := -0x8000_0000_0000_0000
  const LongMax: int := 0x7fff_ffff_ffff_ffff

  predicate IsLong(x: int) {
    LongMin <= x <= LongMax
  }

  /** Two's-complement wrap-around of a mathematical integer into a `long`. */
  function Wrap64(x: int): (w: int)
    ensures IsLong(w)
    ensures (x - w) % 0x1_0000_0000_0000_0000 == 0
    ensures IsLong(x) ==> w == x
  {
    (x - LongMin) % 0x1_0000_0000_0000_0000 + LongMin
  }

  /** The charge rule with `point + amount` computed in `long` arithmetic, as
      the source does. Where the sum does not overflow it agrees with
      Validate. */
  function ValidateAsWritten(u: UserPoint, amount: int, now: int): (r: Result<UserPoint>)
    requires IsLong(u.point) && IsLong(amount)
    ensures r.Ok? ==> r.value.id == u.id && IsLong(r.value.point)
    ensures IsLong(u.point + amount) ==> r == Validate(u, amount, now)
  {
    if amount < 0 then Err(InvalidAmount)
    else if Wrap64(u.point + amount) > MaxPoint then Err(CapExceeded)
    else Ok(UserPoint(u.id, Wrap64(u.point + amount), now))
  }

  /** As written, a charge of Long.MAX_VALUE on a balance of 5000 overflows,
      passes the cap check and leaves a negative balance. The corrected rule
      rejects it. */
  lemma ChargeOverflowSlipsPastCap(now: int)
    ensures ValidateAsWritten(UserPoint(1, 5000, 0), LongMax, now)
         == Ok(UserPoint(1, LongMin + 4999, now))
    ensures LongMin + 4999 < 0
    ensures Validate(UserPoint(1, 5000, 0), LongMax, now) == Err(CapExceeded)
  {
    assert 5000 + LongMax - LongMin == 0x1_0000_0000_0000_0000 + 4999;
  }
}
