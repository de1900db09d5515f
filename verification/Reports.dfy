/** Bug reports (src/reporting.rs): idempotent submission under an hourly budget, and delivery
    with retries. Times are in microseconds. */
module Reports {
  import opened Basics
  import opened Results

  const SECOND := 1_000_000
  const HOUR := 3600 * SECOND
  const BUDGET := 10

  datatype Status = Queued | Sent | Simulated

  /** A row of `bug_reports`. `created` is the start of the transaction that inserted it, and
      `ours` says it belongs to the accounts partition. */
  datatype Report = Report(
    id: nat, ours: bool, actor: nat, key: string, payload: string, status: Status,
    attempts: nat, nextAttempt: int, created: int)

  datatype Refusal = Conflict | RateLimited

  /** The rows of an actor created after `since`: what the rate check counts. */
  function Since(rows: seq<Report>, actor: nat, since: int): set<nat> {
    set i: nat | i < |rows| && rows[i].actor == actor && since < rows[i].created
  }

  /** The rows of an actor created in the hour that ends with `until`. */
  function Window(rows: seq<Report>, actor: nat, until: int): set<nat> {
    set i: nat | i < |rows| && rows[i].actor == actor && until - HOUR < rows[i].created <= until
  }

  predicate Owns(row: Report, actor: nat, key: string) {
    row.ours && row.actor == actor && row.key == key
  }

  /** What a submission comes to: a refusal, an old report found again, or a new row. */
  datatype Submission = Submission(actor: nat, key: string, payload: string, now: int, id: nat, simulated: bool)

  function NewRow(s: Submission): Report {
    Report(s.id, true, s.actor, s.key, s.payload, if s.simulated then Simulated else Queued, 0, s.now, s.now)
  }

  predicate Known(rows: seq<Report>, s: Submission) {
    exists i :: 0 <= i < |rows| && Owns(rows[i], s.actor, s.key)
  }

  predicate Admitted(rows: seq<Report>, s: Submission) {
    !Known(rows, s) && |Since(rows, s.actor, s.now - HOUR)| < BUDGET
  }

  function AfterSubmit(rows: seq<Report>, s: Submission): seq<Report> {
    if Admitted(rows, s) then rows + [NewRow(s)] else rows
  }

  /** The delay before the next attempt, from the attempts made before. */
  function Backoff(attempts: nat): nat {
    var doubled := 60 * Pow2(if attempts < 6 then attempts else 6);
    SECOND * (if doubled < 3600 then doubled else 3600)
  }

  predicate Due(row: Report, now: int) {
    row.status.Queued? && row.nextAttempt <= now
  }

  function Attempted(row: Report, now: int, delivered: bool): Report {
    if delivered then row.(status := Sent, attempts := row.attempts + 1)
    else row.(attempts := row.attempts + 1, nextAttempt := now + Backoff(row.attempts))
  }

  // ---------------------------------------------------------------- invariants

  /** No hour that ends anywhere holds more than ten reports of one actor. */
  ghost predicate WithinBudget(rows: seq<Report>) {
    forall actor: nat, until: int :: |Window(rows, actor, until)| <= BUDGET
  }

  predicate KeysUnique(rows: seq<Report>) {
    forall i, j :: 0 <= i < j < |rows| && rows[i].ours && rows[j].ours
      ==> rows[i].actor != rows[j].actor || rows[i].key != rows[j].key
  }

  ghost predicate Valid(rows: seq<Report>) {
    WithinBudget(rows) && KeysUnique(rows)
  }

  lemma SubsetSize<T>(a: set<T>, b: set<T>)
    requires a <= b
    ensures |a| <= |b|
  {
    if a != {} {
      var x :| x in a;
      SubsetSize(a - {x}, b - {x});
    }
  }

  /** The argument is about the row committed last in the hour: when it was counted, all the
      others were there and none was more than an hour older, whatever order the transactions
      had started in. */
  lemma AdmittedKeepsWindow(rows: seq<Report>, s: Submission, actor: nat, until: int)
    requires WithinBudget(rows) && Admitted(rows, s)
    ensures |Window(rows + [NewRow(s)], actor, until)| <= BUDGET
  {
    var after := rows + [NewRow(s)];
    var window := Window(after, actor, until);
    if |rows| in window {
      var others := window - {|rows|};
      forall i | i in others ensures i in Since(rows, s.actor, s.now - HOUR) {
        assert after[i] == rows[i];
      }
      SubsetSize(others, Since(rows, s.actor, s.now - HOUR));
      assert window == others + {|rows|};
    } else {
      forall i | i in window ensures i in Window(rows, actor, until) {
        assert after[i] == rows[i];
      }
      SubsetSize(window, Window(rows, actor, until));
    }
  }

  lemma SubmitKeeps(rows: seq<Report>, s: Submission)
    requires Valid(rows)
    ensures Valid(AfterSubmit(rows, s))
  {
    if Admitted(rows, s) {
      forall actor: nat, until: int ensures |Window(rows + [NewRow(s)], actor, until)| <= BUDGET {
        AdmittedKeepsWindow(rows, s, actor, until);
      }
    }
  }

  lemma AttemptKeeps(rows: seq<Report>, i: nat, now: int, delivered: bool)
    requires Valid(rows) && i < |rows|
    ensures Valid(rows[i := Attempted(rows[i], now, delivered)])
  {
    var after := rows[i := Attempted(rows[i], now, delivered)];
    forall actor: nat, until: int ensures |Window(after, actor, until)| <= BUDGET {
      assert Window(after, actor, until) == Window(rows, actor, until);
    }
  }

  // ---------------------------------------------------------------- runs

  datatype Step = Submit(submission: Submission) | Attempt(row: nat, now: int, delivered: bool)

  function Next(rows: seq<Report>, step: Step): seq<Report> {
    match step
    case Submit(s) => AfterSubmit(rows, s)
    case Attempt(i, now, delivered) =>
      if i < |rows| && Due(rows[i], now) then rows[i := Attempted(rows[i], now, delivered)] else rows
  }

  function Run(rows: seq<Report>, steps: seq<Step>): seq<Report>
    decreases |steps|
  {
    if steps == [] then rows else Run(Next(rows, steps[0]), steps[1..])
  }

  lemma {:induction false} RunKeeps(rows: seq<Report>, steps: seq<Step>)
    requires Valid(rows)
    ensures Valid(Run(rows, steps))
    decreases |steps|
  {
    if steps != [] {
      match steps[0] {
        case Submit(s) => SubmitKeeps(rows, s);
        case Attempt(i, now, delivered) =>
          if i < |rows| && Due(rows[i], now) {
            AttemptKeeps(rows, i, now, delivered);
          }
      }
      RunKeeps(Next(rows, steps[0]), steps[1..]);
    }
  }

  /** In every run, whatever transaction times it comes with, no half-open hour holds more than
      ten reports of one actor, and no actor has two reports under one key. */
  lemma HourlyBudget(steps: seq<Step>, actor: nat, until: int)
    ensures |Window(Run([], steps), actor, until)| <= BUDGET && KeysUnique(Run([], steps))
  {
    assert forall a: nat, t: int :: Window([], a, t) == {};
    RunKeeps([], steps);
  }

  /** What a report keeps for good: all it was submitted with, and a final status. */
  predicate SameReport(was: Report, now: Report) {
    && now.id == was.id && now.ours == was.ours && now.actor == was.actor && now.key == was.key
    && now.payload == was.payload && now.created == was.created && was.attempts <= now.attempts
    && (now.status == was.status || (was.status.Queued? && now.status.Sent?))
  }

  lemma {:induction false} ReportsAreFixed(rows: seq<Report>, steps: seq<Step>, i: nat)
    requires i < |rows|
    ensures i < |Run(rows, steps)| && SameReport(rows[i], Run(rows, steps)[i])
    decreases |steps|
  {
    if steps != [] {
      assert SameReport(rows[i], Next(rows, steps[0])[i]);
      ReportsAreFixed(Next(rows, steps[0]), steps[1..], i);
    }
  }

  /** One minute, doubling up to an hour. */
  lemma BackoffBounds(attempts: nat)
    ensures 60 * SECOND <= Backoff(attempts) <= HOUR
    ensures Backoff(attempts) <= Backoff(attempts + 1)
    ensures attempts < 6 ==> Backoff(attempts) == 60 * SECOND * Pow2(attempts)
    ensures attempts >= 6 ==> Backoff(attempts) == HOUR
  {
    assert Pow2(6) == 2 * Pow2(5) == 4 * Pow2(4) == 8 * Pow2(3) == 16 * Pow2(2) == 32 * Pow2(1) == 64 * Pow2(0);
  }

  // ---------------------------------------------------------------- the hour with both ends

  function ClosedWindow(rows: seq<Report>, actor: nat, until: int): set<nat> {
    set i: nat | i < |rows| && rows[i].actor == actor && until - HOUR <= rows[i].created <= until
  }

  /** The rows of an actor created at one instant. */
  function Instant(rows: seq<Report>, actor: nat, at: int): set<nat> {
    set i: nat | i < |rows| && rows[i].actor == actor && rows[i].created == at
  }

  /** An hour that counts both of its ends is within the budget if and only if what was created at
      its first instant still fits in beside the rest ... */
  lemma ClosedHourBound(rows: seq<Report>, actor: nat, until: int)
    ensures |ClosedWindow(rows, actor, until)| <= BUDGET <==>
            |Window(rows, actor, until)| + |Instant(rows, actor, until - HOUR)| <= BUDGET
  {
    assert ClosedWindow(rows, actor, until) == Window(rows, actor, until) + Instant(rows, actor, until - HOUR);
    assert Window(rows, actor, until) !! Instant(rows, actor, until - HOUR);
  }

  lemma {:induction false} RangeSize(range: set<nat>, n: nat)
    requires forall i :: i in range <==> 0 <= i < n
    ensures |range| == n
  {
    if n > 0 {
      RangeSize(range - {n - 1}, n - 1);
    }
  }

  lemma {:induction false} BoundedSize(s: set<nat>, n: nat)
    requires forall i :: i in s ==> i < n
    ensures |s| <= n
  {
    if n > 0 {
      BoundedSize(s - {n - 1}, n - 1);
    } else {
      assert s == {};
    }
  }

  /** A submission of actor 0 under its `n`th key. */
  function Nth(n: nat, now: int): Submission {
    Submission(0, seq(n, _ => 'k'), "", now, n, true)
  }

  /** `n` submissions at one instant. */
  function Burst(n: nat): seq<Step> {
    if n == 0 then [] else Burst(n - 1) + [Submit(Nth(n - 1, 0))]
  }

  lemma {:induction false} RunAppend(rows: seq<Report>, steps: seq<Step>, step: Step)
    ensures Run(rows, steps + [step]) == Next(Run(rows, steps), step)
    decreases |steps|
  {
    if steps == [] {
      assert Run(Next(rows, step), [step][1..]) == Next(rows, step);
    } else {
      assert (steps + [step])[1..] == steps[1..] + [step];
      RunAppend(Next(rows, steps[0]), steps[1..], step);
    }
  }

  predicate IsBurst(rows: seq<Report>, n: nat) {
    |rows| == n && forall i :: 0 <= i < n ==> rows[i] == NewRow(Nth(i, 0))
  }

  /** A submission under a key of its own is admitted while fewer than ten count against it. */
  lemma NextOfBurst(rows: seq<Report>, n: nat, now: int)
    requires n <= 10 && IsBurst(rows, n)
    requires n < 10 || now == HOUR
    ensures Next(rows, Submit(Nth(n, now))) == rows + [NewRow(Nth(n, now))]
  {
    forall i | 0 <= i < n ensures !Owns(rows[i], 0, Nth(n, now).key) {
      assert |rows[i].key| == i;
    }
    var recent := Since(rows, 0, now - HOUR);
    if n < 10 {
      BoundedSize(recent, n);
    } else {
      assert recent == {};
    }
  }

  lemma {:induction false} BurstRows(n: nat)
    requires n <= 10
    ensures IsBurst(Run([], Burst(n)), n)
  {
    if n > 0 {
      BurstRows(n - 1);
      RunAppend([], Burst(n - 1), Submit(Nth(n - 1, 0)));
      BurstGrows(Run([], Burst(n - 1)), n - 1);
    }
  }

  lemma BurstGrows(rows: seq<Report>, n: nat)
    requires n < 10 && IsBurst(rows, n)
    ensures IsBurst(Next(rows, Submit(Nth(n, 0))), n + 1)
  {
    NextOfBurst(rows, n, 0);
  }

  lemma EleventhFits(rows: seq<Report>)
    requires IsBurst(rows, 10)
    ensures |ClosedWindow(Next(rows, Submit(Nth(10, HOUR))), 0, HOUR)| == 11
  {
    NextOfBurst(rows, 10, HOUR);
    var after := Next(rows, Submit(Nth(10, HOUR)));
    assert forall i :: 0 <= i < 10 ==> after[i] == rows[i];
    RangeSize(ClosedWindow(after, 0, HOUR), 11);
  }

  /** ... and a run can put eleven into it: ten at one instant do not stop one exactly an hour on. */
  lemma ClosedHourCanHoldEleven()
    ensures |ClosedWindow(Run([], Burst(10) + [Submit(Nth(10, HOUR))]), 0, HOUR)| == 11
  {
    BurstRows(10);
    RunAppend([], Burst(10), Submit(Nth(10, HOUR)));
    EleventhFits(Run([], Burst(10)));
  }

  // ---------------------------------------------------------------- the transactions

  class Table {
    var rows: seq<Report>

    constructor ()
      ensures rows == []
    {
      rows := [];
    }

    /** `SELECT count(*)` of the rate check. */
    method CountSince(actor: nat, since: int) returns (count: nat)
      ensures count == |Since(rows, actor, since)|
    {
      count := 0;
      ghost var seen: set<nat> := {};
      for i := 0 to |rows|
        invariant seen == set k: nat | k < i && rows[k].actor == actor && since < rows[k].created
        invariant count == |seen|
      {
        if rows[i].actor == actor && since < rows[i].created {
          count, seen := count + 1, seen + {i};
        }
      }
    }

    /** One submission, under the reporter's lock. */
    method Submit(s: Submission) returns (result: Result<(nat, Status), Refusal>)
      requires Valid(rows)
      modifies this
      ensures rows == AfterSubmit(old(rows), s) && Valid(rows)
      ensures result == Failure(RateLimited) <==>
                !Known(old(rows), s) && |Since(old(rows), s.actor, s.now - HOUR)| >= BUDGET
      ensures result == Failure(Conflict) <==>
                exists i :: 0 <= i < |old(rows)| && Owns(old(rows)[i], s.actor, s.key) && old(rows)[i].payload != s.payload
      ensures result.Success? ==>
                exists i :: 0 <= i < |rows| && Owns(rows[i], s.actor, s.key) && rows[i].payload == s.payload
                            && result.value == (rows[i].id, rows[i].status)
    {
      for i := 0 to |rows|
        invariant forall j :: 0 <= j < i ==> !Owns(rows[j], s.actor, s.key)
      {
        if Owns(rows[i], s.actor, s.key) {
          return if rows[i].payload != s.payload then Failure(Conflict) else Success((rows[i].id, rows[i].status));
        }
      }
      var count := CountSince(s.actor, s.now - HOUR);
      if count >= BUDGET {
        return Failure(RateLimited);
      }
      SubmitKeeps(rows, s);
      rows := rows + [NewRow(s)];
      assert Owns(rows[|rows| - 1], s.actor, s.key);
      return Success((s.id, NewRow(s).status));
    }

    /** One delivery: of the due rows nobody else has locked, the one due longest. */
    method DeliverOne(now: int, locked: set<nat>, delivered: bool) returns (picked: Option<nat>)
      requires Valid(rows)
      modifies this
      ensures Valid(rows)
      ensures picked.None? ==> rows == old(rows)
      ensures picked.None? ==> forall j: nat :: j < |rows| && j !in locked ==> !Due(rows[j], now)
      ensures picked.Some? ==>
                && picked.value < |old(rows)| && picked.value !in locked && Due(old(rows)[picked.value], now)
                && rows == old(rows)[picked.value := Attempted(old(rows)[picked.value], now, delivered)]
                && forall j: nat :: j < |rows| && j !in locked && Due(old(rows)[j], now) ==>
                     old(rows)[picked.value].nextAttempt <= old(rows)[j].nextAttempt
    {
      picked := None;
      for i := 0 to |rows|
        invariant picked.Some? ==> picked.value < i && picked.value !in locked && Due(rows[picked.value], now)
        invariant picked.None? ==> forall j: nat :: j < i && j !in locked ==> !Due(rows[j], now)
        invariant picked.Some? ==> forall j: nat :: j < i && j !in locked && Due(rows[j], now) ==>
                    rows[picked.value].nextAttempt <= rows[j].nextAttempt
      {
        if i !in locked && Due(rows[i], now) && (picked.None? || rows[i].nextAttempt < rows[picked.value].nextAttempt) {
          picked := Some(i);
        }
      }
      if picked.Some? {
        AttemptKeeps(rows, picked.value, now, delivered);
        rows := rows[picked.value := Attempted(rows[picked.value], now, delivered)];
      }
    }
  }
}
