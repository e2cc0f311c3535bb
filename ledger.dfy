/**
 * The state the point service works on, as a value: the balance store (a map
 * from user id to points, absent meaning zero) and the history store (an
 * append-only sequence of transaction records). ChargeStep and UseStep are
 * what one `addPoint` / `usePoint` call does to that state; Run applies a
 * sequence of calls one after another, which is what the per-user lock
 * turns any concurrent schedule into.
 */
module Ledgers {
  import opened UserPoints

  datatype TransactionType = Charge | Use

  /** One history record. The store's generated record id and its timestamp
      are not part of this model. */
  datatype PointHistory = PointHistory(userId: int, amount: int, kind: TransactionType)

  datatype Ledger = Ledger(balances: map<int, int>, history: seq<PointHistory>)

  /** The outcome of one mutating call: what it returns and the state after it. */
  datatype Outcome = Outcome(result: Result<UserPoint>, after: Ledger)

  /** The stored balance of `id`, zero when the store has no entry. */
  function PointOf(balances: map<int, int>, id: int): int {
    if id in balances then balances[id] else 0
  }

  /** The balance store's read: the stored record, or an empty one when the
      id is unseen. Records read from the store carry the caller's `now`. */
  function SelectById(balances: map<int, int>, id: int, now: int): UserPoint {
    if id in balances then UserPoint(id, balances[id], now) else Empty(id, now)
  }

  /** The history store's per-user listing: the records of `id`, in
      insertion order. */
  function HistoryOf(h: seq<PointHistory>, id: int): (r: seq<PointHistory>)
    ensures |r| <= |h|
    ensures forall k :: 0 <= k < |r| ==> r[k].userId == id
  {
    if h == [] then []
    else (if h[0].userId == id then [h[0]] else []) + HistoryOf(h[1..], id)
  }

  /** What a record does to its user's balance. */
  function Signed(rec: PointHistory): int {
    if rec.kind == Charge then rec.amount else -rec.amount
  }

  /** The net effect of a sequence of records: charges minus uses. */
  function Net(h: seq<PointHistory>): int {
    if h == [] then 0 else Signed(h[0]) + Net(h[1..])
  }

  /** The ledger invariant the service keeps: every stored balance is within
      [0, MaxPoint], and each user's balance is exactly the net of that
      user's history, so no committed update is ever lost. */
  ghost predicate LedgerInvariant(l: Ledger) {
    && (forall id :: id in l.balances ==> InRange(l.balances[id]))
    && (forall id :: PointOf(l.balances, id) == Net(HistoryOf(l.history, id)))
  }

  /** `addPoint`: read the balance, apply the charge rule, write the new
      balance and append one CHARGE record; a rejected amount changes
      nothing. */
  function ChargeStep(l: Ledger, id: int, amount: int, now: int): (o: Outcome)
    ensures o.result.Ok? <==> 0 <= amount <= MaxPoint - PointOf(l.balances, id)
    ensures amount < 0 ==> o.result == Err(InvalidAmount)
    ensures 0 <= amount && PointOf(l.balances, id) + amount > MaxPoint ==> o.result == Err(CapExceeded)
    ensures o.result.Err? ==> o.after == l
    ensures o.result.Ok? ==>
      && o.result.value == UserPoint(id, PointOf(l.balances, id) + amount, now)
      && o.after.balances == l.balances[id := o.result.value.point]
      && o.after.history == l.history + [PointHistory(id, amount, Charge)]
  {
    var userPoint := SelectById(l.balances, id, now);
    match Validate(userPoint, amount, now)
    case Err(e) => Outcome(Err(e), l)
    case Ok(afterPoint) =>
      Outcome(Ok(afterPoint),
              Ledger(l.balances[afterPoint.id := afterPoint.point],
                     l.history + [PointHistory(id, amount, Charge)]))
  }

  /** `usePoint`: read the balance, apply the use rule, write the new balance
      and append one USE record; a rejected amount changes nothing. */
  function UseStep(l: Ledger, id: int, amount: int, now: int): (o: Outcome)
    ensures o.result.Ok? <==> 0 < amount <= PointOf(l.balances, id)
    ensures amount <= 0 ==> o.result == Err(InvalidAmount)
    ensures 0 < amount && PointOf(l.balances, id) < amount ==> o.result == Err(Insufficient)
    ensures o.result.Err? ==> o.after == l
    ensures o.result.Ok? ==>
      && o.result.value == UserPoint(id, PointOf(l.balances, id) - amount, now)
      && o.after.balances == l.balances[id := o.result.value.point]
      && o.after.history == l.history + [PointHistory(id, amount, Use)]
  {
    var userPoint := SelectById(l.balances, id, now);
    match ValidateUsage(userPoint, amount, now)
    case Err(e) => Outcome(Err(e), l)
    case Ok(afterPoint) =>
      Outcome(Ok(afterPoint),
              Ledger(l.balances[id := afterPoint.point],
                     l.history + [PointHistory(id, amount, Use)]))
  }

  /** A mutating call of the service. */
  datatype Op = ChargeOp(id: int, amount: int) | UseOp(id: int, amount: int)

  function Apply(l: Ledger, op: Op, now: int): Outcome {
    match op
    case ChargeOp(id, amount) => ChargeStep(l, id, amount, now)
    case UseOp(id, amount) => UseStep(l, id, amount, now)
  }

  /** The history record a successful call appends. */
  function RecordOf(op: Op): PointHistory {
    PointHistory(op.id, op.amount, if op.ChargeOp? then Charge else Use)
  }

  /** A call either fails and changes nothing, or succeeds, appends its own
      record and moves only its own user's balance, by the record's signed
      amount. */
  lemma ApplyEffect(l: Ledger, op: Op, now: int)
    ensures Apply(l, op, now).result.Err? ==> Apply(l, op, now).after == l
    ensures Apply(l, op, now).result.Ok? ==>
      && Apply(l, op, now).after.history == l.history + [RecordOf(op)]
      && Apply(l, op, now).after.balances
         == l.balances[op.id := PointOf(l.balances, op.id) + Signed(RecordOf(op))]
  {
  }

  /** One call changes only its own user's balance and only extends the
      history: by one record of its own user when it succeeds, by nothing
      when it fails. */
  lemma ApplyFrame(l: Ledger, op: Op, now: int, other: int)
    requires other != op.id
    ensures PointOf(Apply(l, op, now).after.balances, other) == PointOf(l.balances, other)
    ensures HistoryOf(Apply(l, op, now).after.history, other) == HistoryOf(l.history, other)
  {
    ApplyEffect(l, op, now);
    HistoryOfAppend(l.history, RecordOf(op), other);
  }

  /** Appending a record extends the listing of its own user by that record
      and leaves every other user's listing as it was. */
  lemma {:induction false} HistoryOfAppend(h: seq<PointHistory>, rec: PointHistory, id: int)
    ensures HistoryOf(h + [rec], id) == HistoryOf(h, id) + (if rec.userId == id then [rec] else [])
  {
    if h == [] {
      assert h + [rec] == [rec];
    } else {
      assert (h + [rec])[1..] == h[1..] + [rec];
      HistoryOfAppend(h[1..], rec, id);
    }
  }

  /** The net of a record sequence is additive under appending one record. */
  lemma {:induction false} NetAppend(h: seq<PointHistory>, rec: PointHistory)
    ensures Net(h + [rec]) == Net(h) + Signed(rec)
  {
    if h == [] {
      assert h + [rec] == [rec];
    } else {
      assert (h + [rec])[1..] == h[1..] + [rec];
      NetAppend(h[1..], rec);
    }
  }

  /** Every call, successful or not, keeps the ledger invariant. */
  lemma StepKeepsInvariant(l: Ledger, op: Op, now: int)
    requires LedgerInvariant(l)
    ensures LedgerInvariant(Apply(l, op, now).after)
  {
    var o := Apply(l, op, now);
    ApplyEffect(l, op, now);
    if o.result.Ok? {
      AppendKeepsInvariant(l, RecordOf(op), o.after);
    }
  }

  /** Writing a record's effect into its user's balance and appending the
      record keeps the balances equal to the histories' nets. */
  lemma AppendKeepsInvariant(l: Ledger, rec: PointHistory, l': Ledger)
    requires LedgerInvariant(l)
    requires l'.history == l.history + [rec]
    requires l'.balances == l.balances[rec.userId := PointOf(l.balances, rec.userId) + Signed(rec)]
    requires InRange(l'.balances[rec.userId])
    ensures LedgerInvariant(l')
  {
    forall id
      ensures PointOf(l'.balances, id) == Net(HistoryOf(l'.history, id))
    {
      HistoryOfAppend(l.history, rec, id);
      assert PointOf(l.balances, id) == Net(HistoryOf(l.history, id));
      if id == rec.userId {
        NetAppend(HistoryOf(l.history, id), rec);
      } else {
        assert HistoryOf(l'.history, id) == HistoryOf(l.history, id);
        assert PointOf(l'.balances, id) == PointOf(l.balances, id);
      }
    }
  }

  /** The calls applied one after another. */
  function Run(l: Ledger, ops: seq<Op>, now: int): (r: Ledger)
    ensures |l.history| <= |r.history| <= |l.history| + |ops|
    ensures r.history[..|l.history|] == l.history
    decreases |ops|
  {
    if ops == [] then l else Run(Apply(l, ops[0], now).after, ops[1..], now)
  }

  /** The number of calls in `ops` that succeed when run from `l`. */
  function Successes(l: Ledger, ops: seq<Op>, now: int): nat
    decreases |ops|
  {
    if ops == [] then 0
    else (if Apply(l, ops[0], now).result.Ok? then 1 else 0)
         + Successes(Apply(l, ops[0], now).after, ops[1..], now)
  }

  /** The history grows by exactly one record per successful call. */
  lemma {:induction false} RunHistoryGrowth(l: Ledger, ops: seq<Op>, now: int)
    ensures |Run(l, ops, now).history| == |l.history| + Successes(l, ops, now)
    decreases |ops|
  {
    if ops != [] {
      ApplyEffect(l, ops[0], now);
      RunHistoryGrowth(Apply(l, ops[0], now).after, ops[1..], now);
    }
  }

  /** Each user's balance moves by exactly the net of that user's new
      records: from any start state, no update is lost and none is counted
      twice. */
  lemma {:induction false} RunAddsUp(l: Ledger, ops: seq<Op>, now: int, id: int)
    ensures PointOf(Run(l, ops, now).balances, id)
         == PointOf(l.balances, id) + Net(HistoryOf(Run(l, ops, now).history[|l.history|..], id))
    decreases |ops|
  {
    var r := Run(l, ops, now);
    if ops == [] {
      assert r.history[|l.history|..] == [];
    } else {
      var o := Apply(l, ops[0], now);
      assert r == Run(o.after, ops[1..], now);
      RunAddsUp(o.after, ops[1..], now, id);
      ApplyEffect(l, ops[0], now);
      var rest := r.history[|o.after.history|..];
      if o.result.Ok? {
        var rec := RecordOf(ops[0]);
        SuffixAfterAppend(l.history, rec, r.history);
        NetOfListingCons(rec, rest, id);
      }
    }
  }

  /** A history that extends `h + [rec]` continues, after `h`, with `rec`. */
  lemma SuffixAfterAppend(h: seq<PointHistory>, rec: PointHistory, full: seq<PointHistory>)
    requires |h| + 1 <= |full| && full[..|h| + 1] == h + [rec]
    ensures full[|h|..] == [rec] + full[|h| + 1..]
  {
    assert full[|h|] == (h + [rec])[|h|];
  }

  lemma NetOfListingCons(rec: PointHistory, rest: seq<PointHistory>, id: int)
    ensures Net(HistoryOf([rec] + rest, id))
         == (if rec.userId == id then Signed(rec) else 0) + Net(HistoryOf(rest, id))
  {
    assert ([rec] + rest)[1..] == rest;
    if rec.userId == id {
      var t := HistoryOf(rest, id);
      assert HistoryOf([rec] + rest, id) == [rec] + t;
      assert ([rec] + t)[1..] == t;
    } else {
      assert HistoryOf([rec] + rest, id) == [] + HistoryOf(rest, id) == HistoryOf(rest, id);
    }
  }

  /** Running any calls from a state that satisfies the invariant ends in a
      state that satisfies it. */
  lemma {:induction false} RunKeepsInvariant(l: Ledger, ops: seq<Op>, now: int)
    requires LedgerInvariant(l)
    ensures LedgerInvariant(Run(l, ops, now))
    decreases |ops|
  {
    if ops != [] {
      StepKeepsInvariant(l, ops[0], now);
      RunKeepsInvariant(Apply(l, ops[0], now).after, ops[1..], now);
    }
  }

  // ---------------------------------------------------------------------
  // Many charges and uses on one user.

  /** The amount a call may carry without being rejected as invalid. */
  predicate ValidAmount(op: Op) {
    if op.ChargeOp? then op.amount >= 0 else op.amount > 0
  }

  function ChargeTotal(ops: seq<Op>): int {
    if ops == [] then 0 else (if ops[0].ChargeOp? then ops[0].amount else 0) + ChargeTotal(ops[1..])
  }

  function UseTotal(ops: seq<Op>): int {
    if ops == [] then 0 else (if ops[0].UseOp? then ops[0].amount else 0) + UseTotal(ops[1..])
  }

  lemma {:induction false} TotalsNonNegative(ops: seq<Op>)
    requires forall k :: 0 <= k < |ops| ==> ValidAmount(ops[k])
    ensures ChargeTotal(ops) >= 0 && UseTotal(ops) >= 0
  {
    if ops != [] {
      TotalsNonNegative(ops[1..]);
    }
  }

  /** The records a sequence of calls appends when every call succeeds. */
  function Records(ops: seq<Op>): (r: seq<PointHistory>)
    ensures |r| == |ops|
    ensures forall i :: 0 <= i < |ops| ==> r[i] == RecordOf(ops[i])
  {
    if ops == [] then [] else [RecordOf(ops[0])] + Records(ops[1..])
  }

  /** Charges and uses on one user, in ANY order, all succeed as long as the
      starting balance covers all the uses and the cap leaves room for all
      the charges. The history then grows by exactly the calls' records, in
      call order, and the final balance is the start plus the charges minus
      the uses. */
  lemma SameUserRunAddsUp(l: Ledger, ops: seq<Op>, now: int, id: int)
    requires forall k :: 0 <= k < |ops| ==> ops[k].id == id && ValidAmount(ops[k])
    requires UseTotal(ops) <= PointOf(l.balances, id)
    requires PointOf(l.balances, id) + ChargeTotal(ops) <= MaxPoint
    ensures Successes(l, ops, now) == |ops|
    ensures Run(l, ops, now).history == l.history + Records(ops)
    ensures PointOf(Run(l, ops, now).balances, id)
         == PointOf(l.balances, id) + ChargeTotal(ops) - UseTotal(ops)
  {
    SameUserRunSucceeds(l, ops, now, id);
    SameUserRunRecords(l, ops, now, id);
    SameUserRunBalance(l, ops, now, id);
  }

  /** Within budget, every call of a same-user run succeeds. */
  lemma {:induction false} SameUserRunSucceeds(l: Ledger, ops: seq<Op>, now: int, id: int)
    requires WithinBudget(l, ops, id)
    ensures Successes(l, ops, now) == |ops|
    decreases |ops|
  {
    if ops != [] {
      FirstCallFits(l, ops, now, id);
      SameUserRunSucceeds(Apply(l, ops[0], now).after, ops[1..], now, id);
    }
  }

  /** Within budget, a same-user run appends exactly its calls' records, in
      call order. */
  lemma {:induction false} SameUserRunRecords(l: Ledger, ops: seq<Op>, now: int, id: int)
    requires WithinBudget(l, ops, id)
    ensures Run(l, ops, now).history == l.history + Records(ops)
    decreases |ops|
  {
    if ops == [] {
      assert l.history + Records(ops) == l.history;
    } else {
      var after := Apply(l, ops[0], now).after;
      FirstCallFits(l, ops, now, id);
      SameUserRunRecords(after, ops[1..], now, id);
      RecordsCons(l.history, ops);
    }
  }

  /** Records of a non-empty run: the first call's record, then the rest. */
  lemma RecordsCons(h: seq<PointHistory>, ops: seq<Op>)
    requires |ops| > 0
    ensures (h + [RecordOf(ops[0])]) + Records(ops[1..]) == h + Records(ops)
  {
    assert Records(ops) == [RecordOf(ops[0])] + Records(ops[1..]);
  }

  /** Within budget, a same-user run ends at the start balance plus the
      charges minus the uses. */
  lemma {:induction false} SameUserRunBalance(l: Ledger, ops: seq<Op>, now: int, id: int)
    requires WithinBudget(l, ops, id)
    ensures PointOf(Run(l, ops, now).balances, id)
         == PointOf(l.balances, id) + ChargeTotal(ops) - UseTotal(ops)
    decreases |ops|
  {
    if ops != [] {
      var after := Apply(l, ops[0], now).after;
      FirstCallFits(l, ops, now, id);
      SameUserRunBalance(after, ops[1..], now, id);
    }
  }

  /** Every call of `ops` is on `id` with a valid amount, the balance of `id`
      covers all the uses, and the cap leaves room for all the charges. */
  ghost predicate WithinBudget(l: Ledger, ops: seq<Op>, id: int) {
    && (forall k :: 0 <= k < |ops| ==> ops[k].id == id && ValidAmount(ops[k]))
    && UseTotal(ops) <= PointOf(l.balances, id)
    && PointOf(l.balances, id) + ChargeTotal(ops) <= MaxPoint
  }

  /** The first call of a run within budget succeeds, appends its record,
      moves the balance by its amount and leaves the rest within budget. */
  lemma FirstCallFits(l: Ledger, ops: seq<Op>, now: int, id: int)
    requires |ops| > 0 && WithinBudget(l, ops, id)
    ensures Apply(l, ops[0], now).result.Ok?
    ensures Apply(l, ops[0], now).after.history == l.history + [RecordOf(ops[0])]
    ensures PointOf(Apply(l, ops[0], now).after.balances, id)
         == PointOf(l.balances, id) + (if ops[0].ChargeOp? then ops[0].amount else -ops[0].amount)
    ensures WithinBudget(Apply(l, ops[0], now).after, ops[1..], id)
  {
    TotalsNonNegative(ops[1..]);
    ApplyEffect(l, ops[0], now);
  }

  /** Calls on other users leave a user's balance and listing untouched. */
  lemma {:induction false} RunLeavesOthers(l: Ledger, ops: seq<Op>, now: int, other: int)
    requires forall k :: 0 <= k < |ops| ==> ops[k].id != other
    ensures PointOf(Run(l, ops, now).balances, other) == PointOf(l.balances, other)
    ensures HistoryOf(Run(l, ops, now).history, other) == HistoryOf(l.history, other)
    decreases |ops|
  {
    if ops != [] {
      ApplyFrame(l, ops[0], now, other);
      RunLeavesOthers(Apply(l, ops[0], now).after, ops[1..], now, other);
    }
  }

  /** `k` rounds of one use of 50 and one charge of 100 on user 1, the calls
      each worker thread makes in the concurrency test. */
  function Rounds(k: nat): (ops: seq<Op>)
    ensures |ops| == 2 * k
    ensures forall i :: 0 <= i < |ops| ==> ops[i].id == 1 && ValidAmount(ops[i])
  {
    if k == 0 then [] else [UseOp(1, 50), ChargeOp(1, 100)] + Rounds(k - 1)
  }

  lemma {:induction false} RoundsTotals(k: nat)
    ensures UseTotal(Rounds(k)) == 50 * k
    ensures ChargeTotal(Rounds(k)) == 100 * k
  {
    if k > 0 {
      RoundsTotals(k - 1);
      var ops := Rounds(k);
      assert ops[1..] == [ChargeOp(1, 100)] + Rounds(k - 1);
      assert ops[1..][1..] == Rounds(k - 1);
    }
  }

  /** The concurrency test's calls, one after another: a first charge of
      1000 on an empty ledger and then `k` rounds leave 1000 + 50k points and
      1 + 2k records of user 1; the test's k = 10 gives 1500 points and 21
      records. SameUserRunAddsUp covers every other order of the same calls. */
  lemma RoundsAfterCharge(k: nat, now: int)
    requires k <= 20
    ensures var l1 := ChargeStep(Ledger(map[], []), 1, 1000, now).after;
            var l2 := Run(l1, Rounds(k), now);
            PointOf(l2.balances, 1) == 1000 + 50 * k && |HistoryOf(l2.history, 1)| == 1 + 2 * k
  {
    var l1 := ChargeStep(Ledger(map[], []), 1, 1000, now).after;
    assert l1.history == [PointHistory(1, 1000, Charge)];
    assert PointOf(l1.balances, 1) == 1000;
    var ops := Rounds(k);
    RoundsTotals(k);
    SameUserRunAddsUp(l1, ops, now, 1);
    var l2 := Run(l1, ops, now);
    assert l2.history == [PointHistory(1, 1000, Charge)] + Records(ops);
    assert forall i :: 0 <= i < |l2.history| ==> l2.history[i].userId == 1 by {
      forall i | 0 <= i < |l2.history|
        ensures l2.history[i].userId == 1
      {
        if i > 0 {
          assert l2.history[i] == RecordOf(ops[i - 1]);
        }
      }
    }
    HistoryOfAll(l2.history, 1);
  }

  lemma {:induction false} HistoryOfAll(h: seq<PointHistory>, id: int)
    requires forall k :: 0 <= k < |h| ==> h[k].userId == id
    ensures HistoryOf(h, id) == h
  {
    if h != [] {
      HistoryOfAll(h[1..], id);
    }
  }

  /** The history test's values, run through the service's steps: after a
      charge of 1000 and a use of 500 on user 1, that user's listing ends with
      the two records, in insertion order, and the balance has risen by 500. */
  lemma ChargeThenUseHistory(l: Ledger, now: int)
    requires 0 <= PointOf(l.balances, 1) <= MaxPoint - 1000
    ensures var l1 := ChargeStep(l, 1, 1000, now).after;
            var l2 := UseStep(l1, 1, 500, now).after;
            && PointOf(l2.balances, 1) == PointOf(l.balances, 1) + 500
            && HistoryOf(l2.history, 1)
               == HistoryOf(l.history, 1) + [PointHistory(1, 1000, Charge), PointHistory(1, 500, Use)]
  {
    var l1 := ChargeStep(l, 1, 1000, now).after;
    HistoryOfAppend(l.history, PointHistory(1, 1000, Charge), 1);
    HistoryOfAppend(l1.history, PointHistory(1, 500, Use), 1);
  }

  /** The rejection scenarios on a balance of 5000: an over-cap charge and
      an over-balance use each fail with their own error and leave the ledger
      as it was. */
  lemma RejectionScenarios(l: Ledger, now: int)
    requires PointOf(l.balances, 1) == 5000
    ensures ChargeStep(l, 1, 996000, now) == Outcome(Err(CapExceeded), l)
    ensures UseStep(l, 1, 10000, now) == Outcome(Err(Insufficient), l)
  {
  }
}
