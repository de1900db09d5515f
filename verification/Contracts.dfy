/** The lifecycle of wire contracts (src/api/contracts.rs and the maintenance statement of
    src/worker/ting.rs): active, deprecated, and sunset after a week without a request. */
module Contracts {
  import opened Results

  const WEEK := 7 * 24 * 60 * 60 * 1_000_000

  datatype Status = Active | Deprecated | Sunset

  /** A contract is a family and a version. */
  datatype Key = Key(family: string, version: nat)

  /** A row of `contract_versions`. */
  datatype Contract =
    Contract(status: Status, introduced: int, deprecatedAt: Option<int>, lastRequest: Option<int>, requests: nat)

  function Max(a: int, b: int): int {
    if a < b then b else a
  }

  /** When the contract was last used, introduced or deprecated. */
  function Activity(c: Contract): int {
    var used := if c.lastRequest.Some? then c.lastRequest.value else c.introduced;
    if c.deprecatedAt.Some? then Max(used, c.deprecatedAt.value) else used
  }

  predicate Idle(c: Contract, now: int) {
    c.status.Deprecated? && Activity(c) <= now - WEEK
  }

  /** The sunset statement, on one row. */
  function Swept(c: Contract, now: int): Contract {
    if Idle(c, now) then c.(status := Sunset) else c
  }

  function Requested(c: Contract, now: int): Contract {
    if c.status.Sunset? then c else c.(requests := c.requests + 1, lastRequest := Some(now))
  }

  /** Deprecation keeps the time of an earlier one. */
  function Deprecating(c: Contract, now: int): Contract {
    c.(status := Deprecated, deprecatedAt := if c.deprecatedAt.Some? then c.deprecatedAt else Some(now))
  }

  /** The table under the clock. */
  datatype World = World(now: int, rows: map<Key, Contract>)

  datatype Step = Tick(now: int) | Introduce(key: Key) | Deprecate(key: Key) | Admit(key: Key) | Sweep

  /** The answer `admit` gives. */
  predicate Admits(world: World, key: Key) {
    key in world.rows && !Swept(world.rows[key], world.now).status.Sunset?
  }

  function Next(world: World, step: Step): World {
    match step
    case Tick(now) => if world.now <= now then world.(now := now) else world
    case Introduce(key) =>
      if key in world.rows then world
      else world.(rows := world.rows[key := Contract(Active, world.now, None, None, 0)])
    case Deprecate(key) =>
      if key in world.rows && world.rows[key].status.Active?
      then world.(rows := world.rows[key := Deprecating(world.rows[key], world.now)]) else world
    case Admit(key) =>
      if key in world.rows
      then world.(rows := world.rows[key := Requested(Swept(world.rows[key], world.now), world.now)]) else world
    case Sweep => world.(rows := map key | key in world.rows :: Swept(world.rows[key], world.now))
  }

  function Run(world: World, steps: seq<Step>): World
    decreases |steps|
  {
    if steps == [] then world else Run(Next(world, steps[0]), steps[1..])
  }

  // ---------------------------------------------------------------- over every run

  /** Rows never go away and sunset is for good. */
  lemma {:induction false} SunsetIsPermanent(world: World, steps: seq<Step>, key: Key)
    requires key in world.rows
    ensures key in Run(world, steps).rows
    ensures world.rows[key].status.Sunset? ==> Run(world, steps).rows[key] == world.rows[key]
    decreases |steps|
  {
    if steps != [] {
      SunsetIsPermanent(Next(world, steps[0]), steps[1..], key);
    }
  }

  /** The requests for a contract that a run admits. */
  function Admissions(world: World, steps: seq<Step>, key: Key): nat
    decreases |steps|
  {
    if steps == [] then 0
    else (if steps[0] == Admit(key) && Admits(world, key) then 1 else 0) + Admissions(Next(world, steps[0]), steps[1..], key)
  }

  /** The counter grows by exactly the admitted requests. */
  lemma {:induction false} CounterCountsAdmissions(world: World, steps: seq<Step>, key: Key)
    requires key in world.rows
    ensures key in Run(world, steps).rows
    ensures Run(world, steps).rows[key].requests == world.rows[key].requests + Admissions(world, steps, key)
    decreases |steps|
  {
    if steps != [] {
      CounterCountsAdmissions(Next(world, steps[0]), steps[1..], key);
    }
  }

  /** Some step of the run meets the contract deprecated and a week idle. */
  predicate MeetsIdle(world: World, steps: seq<Step>, key: Key)
    decreases |steps|
  {
    steps != [] &&
    (((steps[0].Sweep? || steps[0] == Admit(key)) && key in world.rows && Idle(world.rows[key], world.now))
     || MeetsIdle(Next(world, steps[0]), steps[1..], key))
  }

  /** A contract is sunset exactly when a sweep or a request of its own finds it a week idle. */
  lemma {:induction false} SunsetExactlyWhenIdle(world: World, steps: seq<Step>, key: Key)
    requires key in world.rows && !world.rows[key].status.Sunset?
    ensures key in Run(world, steps).rows
    ensures Run(world, steps).rows[key].status.Sunset? <==> MeetsIdle(world, steps, key)
    decreases |steps|
  {
    if steps != [] {
      var next := Next(world, steps[0]);
      if next.rows[key].status.Sunset? {
        SunsetIsPermanent(next, steps[1..], key);
      } else {
        SunsetExactlyWhenIdle(next, steps[1..], key);
      }
    }
  }

  /** Throughout the run, the last request for the contract, or `last` before there is one, is less
      than a week back. Only the requests themselves move it. */
  predicate RequestedWeekly(world: World, steps: seq<Step>, key: Key, last: int)
    decreases |steps|
  {
    && world.now < last + WEEK
    && (steps == [] ||
        RequestedWeekly(Next(world, steps[0]), steps[1..], key, if steps[0] == Admit(key) then world.now else last))
  }

  /** Every request for the contract in the run is admitted. */
  predicate AllAdmitted(world: World, steps: seq<Step>, key: Key)
    decreases |steps|
  {
    steps == [] || ((steps[0] == Admit(key) ==> Admits(world, key)) && AllAdmitted(Next(world, steps[0]), steps[1..], key))
  }

  /** A contract requested at gaps under seven days is never sunset, and every one of those
      requests is admitted. */
  lemma {:induction false} BusyIsNeverSunset(world: World, steps: seq<Step>, key: Key, last: int)
    requires key in world.rows && !world.rows[key].status.Sunset?
    requires last <= Activity(world.rows[key]) && RequestedWeekly(world, steps, key, last)
    ensures AllAdmitted(world, steps, key) && !MeetsIdle(world, steps, key)
    ensures Admits(Run(world, steps), key)
    decreases |steps|
  {
    if steps != [] {
      BusyIsNeverSunset(Next(world, steps[0]), steps[1..], key, if steps[0] == Admit(key) then world.now else last);
    }
  }

  // ---------------------------------------------------------------- the transactions

  class Registry {
    var world: World

    constructor (now: int)
      ensures world == World(now, map[])
    {
      world := World(now, map[]);
    }

    /** Admits a request, or retires what has been idle for a week: `false` exactly for a missing
        or a sunset contract, which it leaves sunset. */
    method Admit(key: Key) returns (admitted: bool)
      modifies this
      ensures world == Next(old(world), Step.Admit(key))
      ensures admitted <==> key in world.rows && !world.rows[key].status.Sunset?
      ensures admitted == Admits(old(world), key)
    {
      if key !in world.rows {
        return false;
      }
      var row := world.rows[key];
      if row.status.Deprecated? {
        row := Swept(row, world.now);
      }
      admitted := !row.status.Sunset?;
      if admitted {
        row := row.(requests := row.requests + 1, lastRequest := Some(world.now));
      }
      world := world.(rows := world.rows[key := row]);
    }

    /** The statement of `describe` and of maintenance, row by row. */
    method Sweep()
      modifies this
      ensures world == Next(old(world), Step.Sweep)
    {
      var left, rows := world.rows.Keys, world.rows;
      while left != {}
        invariant left <= world.rows.Keys == rows.Keys
        invariant forall key :: key in rows ==>
                    rows[key] == if key in left then world.rows[key] else Swept(world.rows[key], world.now)
        decreases left
      {
        var key :| key in left;
        rows, left := rows[key := Swept(rows[key], world.now)], left - {key};
      }
      assert rows == Next(world, Step.Sweep).rows;
      world := world.(rows := rows);
    }
  }
}
