/**
 * The point service: the balance store and the history store as fields that
 * `addPoint` and `usePoint` update in place. Each call is taken as atomic,
 * which is what the per-user lock of the service guarantees for calls on the
 * same user; the lock registry itself is not part of this model.
 */
module PointServices {
  import opened UserPoints
  import opened Ledgers

  class PointServiceImpl {
    var balances: map<int, int>
    var history: seq<PointHistory>

    /** The two stores as one ledger value. */
    function State(): Ledger
      reads this
    {
      Ledger(balances, history)
    }

    /** Balances stay within [0, MaxPoint] and each equals the net of its
        user's history. */
    ghost predicate Valid()
      reads this
    {
      LedgerInvariant(State())
    }

    /** The service over the two stores it is handed, which must already
        agree with each other. */
    constructor (balances0: map<int, int>, history0: seq<PointHistory>)
      requires LedgerInvariant(Ledger(balances0, history0))
      ensures Valid()
      ensures balances == balances0 && history == history0
    {
      balances := balances0;
      history := history0;
    }

    /** `addPoint`: on success the caller's balance becomes the old one plus
        `amount`, the returned record is what was stored, and one CHARGE
        record is appended; on failure neither store changes. */
    method AddPoint(id: int, amount: int, now: int) returns (r: Result<UserPoint>)
      requires Valid()
      modifies this
      ensures Valid()
      ensures Outcome(r, State()) == ChargeStep(old(State()), id, amount, now)
      ensures r.Err? ==> balances == old(balances) && history == old(history)
      ensures r.Ok? ==>
        && r.value.id == id
        && r.value.point == PointOf(old(balances), id) + amount
        && balances == old(balances)[id := r.value.point]
        && history == old(history) + [PointHistory(id, amount, Charge)]
    {
      var userPoint := SelectById(balances, id, now);
      r := Validate(userPoint, amount, now);
      if r.Ok? {
        var afterPoint := r.value;
        ghost var before := State();
        balances := balances[afterPoint.id := afterPoint.point];
        history := history + [PointHistory(id, amount, Charge)];
        StepKeepsInvariant(before, ChargeOp(id, amount), now);
      }
    }

    /** `usePoint`: on success the caller's balance becomes the old one minus
        `amount`, and one USE record is appended; on failure neither store
        changes. */
    method UsePoint(id: int, amount: int, now: int) returns (r: Result<UserPoint>)
      requires Valid()
      modifies this
      ensures Valid()
      ensures Outcome(r, State()) == UseStep(old(State()), id, amount, now)
      ensures r.Err? ==> balances == old(balances) && history == old(history)
      ensures r.Ok? ==>
        && r.value.id == id
        && r.value.point == PointOf(old(balances), id) - amount
        && balances == old(balances)[id := r.value.point]
        && history == old(history) + [PointHistory(id, amount, Use)]
    {
      var userPoint := SelectById(balances, id, now);
      r := ValidateUsage(userPoint, amount, now);
      if r.Ok? {
        var afterPoint := r.value;
        ghost var before := State();
        balances := balances[id := afterPoint.point];
        history := history + [PointHistory(id, amount, Use)];
        StepKeepsInvariant(before, UseOp(id, amount), now);
      }
    }

    /** `getPoint`: the stored balance, zero for an unseen user; it is within
        the cap and agrees with the user's history. */
    method GetPoint(id: int, now: int) returns (u: UserPoint)
      requires Valid()
      ensures u.id == id && u.updateMillis == now
      ensures u.point == (if id in balances then balances[id] else 0)
      ensures InRange(u.point)
      ensures u.point == Net(HistoryOf(history, id))
    {
      u := SelectById(balances, id, now);
      assert PointOf(balances, id) == Net(HistoryOf(history, id));
    }

    /** `getHistory`: the user's records in insertion order. */
    method GetHistory(id: int) returns (h: seq<PointHistory>)
      ensures h == HistoryOf(history, id)
      ensures forall k :: 0 <= k < |h| ==> h[k].userId == id
    {
      h := HistoryOf(history, id);
    }
  }

  /** The history test's values run through the service: on fresh stores, a
      charge of 1000 and a use of 500 on user 1 are listed in that order. */
  method ChargeThenUseListing() returns (h: seq<PointHistory>)
    ensures h == [PointHistory(1, 1000, Charge), PointHistory(1, 500, Use)]
  {
    var service := new PointServiceImpl(map[], []);
    var charged := service.AddPoint(1, 1000, 0);
    var used := service.UsePoint(1, 500, 0);
    h := service.GetHistory(1);
    HistoryOfAppend([], PointHistory(1, 1000, Charge), 1);
    HistoryOfAppend([PointHistory(1, 1000, Charge)], PointHistory(1, 500, Use), 1);
  }

  /** The concurrency test against the service, one call at a time, on fresh
      stores: a first charge of 1000, then ten rounds of a use of 50 and a
      charge of 100, leave 1500 points and 21 records of user 1. */
  method ConcurrentChargeAndUse() returns (point: int, records: nat)
    ensures point == 1500 && records == 21
  {
    var service := new PointServiceImpl(map[], []);
    var first := service.AddPoint(1, 1000, 0);
    var i := 0;
    while i < 10
      invariant 0 <= i <= 10
      invariant service.Valid()
      invariant PointOf(service.balances, 1) == 1000 + 50 * i
      invariant |service.history| == 1 + 2 * i
      invariant forall k :: 0 <= k < |service.history| ==> service.history[k].userId == 1
    {
      var used := service.UsePoint(1, 50, 0);
      var charged := service.AddPoint(1, 100, 0);
      i := i + 1;
    }
    var u := service.GetPoint(1, 0);
    var h := service.GetHistory(1);
    HistoryOfAll(service.history, 1);
    point, records := u.point, |h|;
  }
}
