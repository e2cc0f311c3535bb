# Point ledger: a Dafny model

This project models the core of a small per-user point service. Each user
has a balance between 0 and 1,000,000 points. The service exposes four
calls: `addPoint` (charge), `usePoint` (use), `getPoint` and `getHistory`.
Every successful charge or use writes the new balance to a balance store and
appends one CHARGE or USE record to an append-only history store.

- `user_point.dfy`, module `UserPoints`. The `UserPoint` record and its two
  rules, as pure functions. `Validate` is the charge rule: it rejects a
  negative amount and any amount that would lift the balance past 1,000,000.
  A zero charge is accepted. `ValidateUsage` is the use rule: it rejects an
  amount that is not positive and an amount above the balance. The source
  throws `IllegalArgumentException`; here the rules return
  `Err(InvalidAmount)`, `Err(CapExceeded)` or `Err(Insufficient)`. The module
  also holds the charge rule as written over Java `long` (see Findings).
- `ledger.dfy`, module `Ledgers`. The two stores as one value, a `Ledger`:
  - the balance map, where an absent id reads as zero;
  - the history sequence;
  - `ChargeStep` / `UseStep`, which give what one call does to the ledger;
  - `Run`, which applies a sequence of calls one after another.
  With the per-user lock, every concurrent schedule of calls on one user
  comes down to such a sequence. The module holds the lemmas about these
  runs. The central invariant, `LedgerInvariant`, says that every balance is
  in range and equals the net (charges minus uses) of that user's history.
- `point_service.dfy`, module `PointServices`. The class `PointServiceImpl`
  has a `balances` map field and a `history` sequence field. `AddPoint` and
  `UsePoint` update these fields in place, and each is proved against
  `ChargeStep` / `UseStep`. `GetPoint` and `GetHistory` only read. Two client
  methods run the values of the history test and of the concurrency test
  through the service, on fresh empty stores.

## Model

| member | source | states |
|---|---|---|
| `UserPoints.Empty` | src/main/java/io/hhplus/tdd/point/UserPoint.java:9-11 | an empty account has the given id and zero points |
| `UserPoints.Validate` | src/main/java/io/hhplus/tdd/point/UserPoint.java:13-21 | a charge succeeds exactly when 0 <= amount <= 1,000,000 - point; a negative amount is InvalidAmount, an over-cap one CapExceeded; success keeps the id and adds exactly the amount, never past the cap |
| `UserPoints.ValidateUsage` | src/main/java/io/hhplus/tdd/point/UserPoint.java:23-31 | a use succeeds exactly when 0 < amount <= point; a non-positive amount is InvalidAmount, one above the balance Insufficient; success keeps the id, subtracts exactly the amount and never goes below zero |
| `UserPoints.RulesKeepRange` | src/main/java/io/hhplus/tdd/point/UserPoint.java:17-30 | both rules keep a balance inside [0, 1,000,000] |
| `UserPoints.ChargeAndUseAreInverse` | src/main/java/io/hhplus/tdd/point/UserPoint.java:13-31 | a positive charge then a use of the same amount restores the balance, and so does a use then a charge |
| `UserPoints.ZeroAmountAsymmetry` | src/main/java/io/hhplus/tdd/point/UserPoint.java:14-26 | a zero charge succeeds and leaves the balance as it was; a zero use is InvalidAmount |
| `UserPoints.RuleExamples` | src/test/java/io/hhplus/tdd/PointTest.java:23-68 | on 5000: charge 996000 is CapExceeded, charge 10000 gives 15000, use 10000 is Insufficient, use -10000 is InvalidAmount, use 3000 gives 2000 |
| `UserPoints.ValidateAsWritten` | src/main/java/io/hhplus/tdd/point/UserPoint.java:13-21 | the charge rule over Java long arithmetic; wherever point + amount does not overflow it equals Validate |
| `UserPoints.ChargeOverflowSlipsPastCap` | src/main/java/io/hhplus/tdd/point/UserPoint.java:17-20 | as written, charging Long.MAX_VALUE on 5000 passes the cap check and yields a negative balance; Validate rejects it with CapExceeded |
| `Ledgers.HistoryOf` | src/main/java/io/hhplus/tdd/point/PointServiceImpl.java:72-75 | a user's listing holds only that user's records and is no longer than the whole history |
| `Ledgers.HistoryOfAppend` | src/main/java/io/hhplus/tdd/point/PointServiceImpl.java:37-37 | appending a record extends its own user's listing by that record at the end and leaves every other listing unchanged (insertion order) |
| `Ledgers.ChargeStep` | src/main/java/io/hhplus/tdd/point/PointServiceImpl.java:24-43 | addPoint succeeds exactly when the amount fits the cap window; a negative amount fails with InvalidAmount, an over-cap one with CapExceeded; on failure the ledger is unchanged; on success the returned record is what is stored for id (old + amount), and exactly one CHARGE record is appended |
| `Ledgers.UseStep` | src/main/java/io/hhplus/tdd/point/PointServiceImpl.java:52-70 | usePoint succeeds exactly when 0 < amount <= balance; a non-positive amount fails with InvalidAmount, one above the balance with Insufficient; on failure the ledger is unchanged; on success id's balance becomes old - amount and exactly one USE record is appended |
| `Ledgers.ApplyEffect` | src/main/java/io/hhplus/tdd/point/PointServiceImpl.java:32-37 | a call either changes nothing or appends its own record and moves only its own user's balance by the record's signed amount |
| `Ledgers.ApplyFrame` | src/main/java/io/hhplus/tdd/point/PointServiceImpl.java:35-37 | a call on one user leaves every other user's balance and listing untouched |
| `Ledgers.StepKeepsInvariant` | src/main/java/io/hhplus/tdd/point/PointServiceImpl.java:32-39 | every call, failed or not, keeps balances in range and equal to the net of each user's history |
| `Ledgers.Run` | src/main/java/io/hhplus/tdd/point/PointServiceImpl.java:35-37 | a sequence of calls only appends to the history: the old history is a prefix, and at most one record is added per call |
| `Ledgers.RunHistoryGrowth` | src/main/java/io/hhplus/tdd/point/PointServiceImpl.java:59-65 | over any sequence of calls the history grows by exactly the number of successful calls |
| `Ledgers.RunAddsUp` | src/main/java/io/hhplus/tdd/point/PointServiceImpl.java:32-65 | from any start, each user's final balance is the start balance plus the net of that user's new records (no lost update) |
| `Ledgers.RunKeepsInvariant` | src/main/java/io/hhplus/tdd/point/PointServiceImpl.java:24-70 | any sequence of calls keeps the ledger invariant |
| `Ledgers.SameUserRunAddsUp` | src/test/java/io/hhplus/tdd/SynchronizedTest.java:79-81 | charges and uses on one user, in any order, all succeed when the start balance covers the uses and the cap leaves room for the charges; the balance ends at start + charges - uses, and the history grows by exactly the calls' records in call order |
| `Ledgers.SameUserRunSucceeds` | src/main/java/io/hhplus/tdd/point/PointServiceImpl.java:32-34 | within that budget every call of a same-user run passes its rule |
| `Ledgers.SameUserRunRecords` | src/main/java/io/hhplus/tdd/point/PointServiceImpl.java:37-37 | within that budget a same-user run appends exactly its calls' records, in call order |
| `Ledgers.SameUserRunBalance` | src/main/java/io/hhplus/tdd/point/PointServiceImpl.java:32-35 | within that budget a same-user run ends at the start balance plus the charges minus the uses |
| `Ledgers.RunLeavesOthers` | src/main/java/io/hhplus/tdd/point/PointServiceImpl.java:59-65 | any sequence of calls on other users leaves a user's balance and listing untouched |
| `Ledgers.Rounds` | src/test/java/io/hhplus/tdd/SynchronizedTest.java:42-69 | the test's worker calls: k rounds of use 50 and charge 100 on user 1, 2k valid calls |
| `Ledgers.RoundsTotals` | src/test/java/io/hhplus/tdd/SynchronizedTest.java:42-69 | k rounds use 50k and charge 100k points in total |
| `Ledgers.RoundsAfterCharge` | src/test/java/io/hhplus/tdd/SynchronizedTest.java:39-81 | the test's calls one after another: a first charge of 1000 then k <= 20 rounds leave 1000 + 50k points and 1 + 2k records for user 1 (k = 10: 1500 points, 21 records) |
| `Ledgers.ChargeThenUseHistory` | src/test/java/io/hhplus/tdd/PointHistoryTest.java:28-56 | the test's values run through the service's steps: after charge 1000 and use 500 on user 1, the listing ends with (1000, CHARGE), (500, USE) in that order and the balance is up by 500 |
| `Ledgers.RejectionScenarios` | src/test/java/io/hhplus/tdd/PointTest.java:25-49 | on a balance of 5000, charge 996000 fails with CapExceeded and use 10000 with Insufficient, and both leave the ledger unchanged |
| `PointServices.PointServiceImpl.constructor` | src/main/java/io/hhplus/tdd/point/PointServiceImpl.java:19-22 | builds the service over the two stores it is handed, which must satisfy the ledger invariant; the fields are exactly those stores |
| `PointServices.PointServiceImpl.AddPoint` | src/main/java/io/hhplus/tdd/point/PointServiceImpl.java:24-43 | the new state and result are exactly ChargeStep's; on failure both stores are unchanged; on success id's balance is old + amount, the return equals what was stored, one CHARGE record is appended; the invariant is kept |
| `PointServices.PointServiceImpl.UsePoint` | src/main/java/io/hhplus/tdd/point/PointServiceImpl.java:52-70 | the new state and result are exactly UseStep's; on failure both stores are unchanged; on success id's balance is old - amount, one USE record is appended; the invariant is kept |
| `PointServices.PointServiceImpl.GetPoint` | src/main/java/io/hhplus/tdd/point/PointServiceImpl.java:45-50 | returns the stored balance, zero for an unseen id, within [0, 1,000,000] and equal to the net of the user's history; changes nothing |
| `PointServices.PointServiceImpl.GetHistory` | src/main/java/io/hhplus/tdd/point/PointServiceImpl.java:72-75 | returns the user's records in insertion order, all of that user; changes nothing |
| `PointServices.ChargeThenUseListing` | src/test/java/io/hhplus/tdd/PointHistoryTest.java:28-56 | the test's values run through the service on fresh empty stores: charge 1000 then use 500 on user 1 lists exactly [(1000, CHARGE), (500, USE)] |
| `PointServices.ConcurrentChargeAndUse` | src/test/java/io/hhplus/tdd/SynchronizedTest.java:31-82 | the test's calls through the service one at a time, on fresh empty stores: charge 1000 and then 10 rounds of use 50 and charge 100 leave 1500 points and 21 records |

## Findings

| source | as written | input that shows it | evidently intended | confidence | as-written member | corrected member |
|---|---|---|---|---|---|---|
| src/main/java/io/hhplus/tdd/point/UserPoint.java:17 | `point + amount > 1000000` is computed in 64-bit `long`, so a huge amount wraps to a negative sum and passes the cap check | point 5000, amount Long.MAX_VALUE: the sum wraps to -9223372036854770809 and the charge "succeeds" with that balance | reject with the cap error, as for any amount above 1,000,000 - point | high; not executed | `UserPoints.ChargeOverflowSlipsPastCap` | `UserPoints.Validate` |

The rest of the model uses `Validate`, which works on mathematical integers.
`ValidateAsWritten` shows that the two agree on every input whose sum does
not overflow.

## Left out

- The per-user lock registry is left out. That covers the `lockMap`, `computeIfAbsent` and the `ReentrantLock` lock and unlock calls. Each call is modelled as atomic. The no-lost-update property is proved over sequential runs (`Run`), which are what the lock reduces concurrent calls on one user to. Thread scheduling and lock fairness are not modelled.
- The clock is a parameter. `System.currentTimeMillis()` becomes the `now` parameter. `addPoint` and `usePoint` read the clock twice, once in the rule and once for the history record. The model uses one reading and does not keep a timestamp in history records.
- The stores are abstract. `UserPointTable` and `PointHistoryTable` are not part of this model. The balance store is a `map<int, int>` where a missing id reads as zero. The history store is a sequence that only grows. Three things are left out:
  - the history store's generated record ids;
  - the timestamp a store stamps on a written record;
  - any delay inside the stores.
  For the same reason, `GetPoint` reports `now` as `updateMillis`.
- The `PointService` interface and the Spring `@Service` wiring are left out. They add signatures only.
- Integers are mathematical. Only `ValidateAsWritten` models Java `long` wrap-around. Ids and amounts elsewhere are unbounded integers (see Findings).
- A zero-amount charge succeeds and appends a CHARGE record of amount 0, because `UserPoint.java:14` rejects only an amount below zero. History amounts are therefore not always positive.
- A read of an unseen id returns a zero balance and stores nothing (`PointServiceImpl.java:47-49`, a `getOrDefault`).
- `PointServices.PointServiceImpl.constructor`: the stores must start consistent with each other, as the fresh empty stores the application wires in are. `Valid()` also relies on the service being the only writer of the stores. Direct writes to `UserPointTable`, such as the one in `PointTest.java:76`, are outside the model.
