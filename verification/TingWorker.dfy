/** Handing deliveries to Ting from several workers at once (src/worker/ting.rs over
    src/infrastructure/postgres/ting.rs): each attempt runs under a lease of its own. Time is one
    clock in milliseconds, shared by the database and the workers. */
module TingWorker {
  import opened Basics
  import opened Results

  const RESERVE := 500
  const MAX_BATCH := 100

  datatype Settings = Settings(lease: int, maxRetryDelay: nat, batchSize: nat)

  // ---------------------------------------------------------------- rows of ting_handoffs

  datatype Lease = Lease(id: nat, expires: int)

  /** A handoff: its sealed request body once prepared, who holds it, when it may be tried again,
      and the Ting id it was accepted under. */
  datatype Handoff = Handoff(
    body: Option<string>, lease: Option<Lease>, nextAttempt: int, attempts: int, accepted: Option<nat>, discarded: bool)

  predicate Free(row: Handoff, now: int) {
    row.accepted.None? && !row.discarded && (row.lease.None? || row.lease.value.expires <= now)
  }

  predicate Owned(row: Handoff, lease: nat, now: int) {
    row.lease.Some? && row.lease.value.id == lease && now < row.lease.value.expires && row.accepted.None?
  }

  /** `accept_ting_delivery`: the row afterwards. A stale lease changes nothing. */
  function Accept(row: Handoff, lease: nat, ting: nat, now: int): Handoff {
    if Owned(row, lease, now) then row.(accepted := Some(ting), lease := None) else row
  }

  /** `retry_ting_delivery`: the row afterwards. A stale lease changes nothing. */
  function Retry(row: Handoff, lease: nat, next: int, now: int): Handoff {
    if Owned(row, lease, now)
    then row.(nextAttempt := next, lease := None, attempts := if row.attempts < I64_MAX then row.attempts + 1 else row.attempts)
    else row
  }

  function RetryDelay(attempt: int, maximum: nat): nat {
    var shift := if 0 <= attempt < 31 then attempt else 31;
    var delay := 1000 * Pow2(shift);
    var cap := if maximum < 1000 then 1000 else maximum;
    if delay < cap then delay else cap
  }

  /** Between one second and the configured maximum, and never shorter after more failures. */
  lemma RetryDelayBounds(attempt: int, later: int, maximum: nat)
    ensures 1000 <= RetryDelay(attempt, maximum) <= (if maximum < 1000 then 1000 else maximum)
    ensures 0 <= attempt <= later ==> RetryDelay(attempt, maximum) <= RetryDelay(later, maximum)
  {
    if 0 <= attempt <= later {
      Pow2Grows(if attempt < 31 then attempt else 31, if later < 31 then later else 31);
    }
  }

  // ---------------------------------------------------------------- workers

  datatype Claim = Claim(delivery: nat, expires: int, body: string, count: int)

  datatype Phase =
    | Starting
    | Claimed
    | Checked(authorized: bool)
    | Publishing
    | Succeeded(ting: nat)
    | Failed(next: int)
    | Over

  /** One turn of a worker's loop. Its lease id is its number. */
  datatype Attempt = Attempt(deadline: int, claim: Option<Claim>, phase: Phase)

  /** What Ting has accepted: this body, for this delivery, under this id. */
  datatype Acceptance = Acceptance(delivery: nat, body: string, ting: nat)

  datatype World = World(now: int, rows: map<nat, Handoff>, attempts: seq<Attempt>, accepted: set<Acceptance>)

  datatype Step =
    | Create(delivery: nat)
    | Tick(now: int)
    | Start
    | Take(attempt: nat, delivery: nat, prepared: string, participant: bool, sendable: bool)
    | Check(attempt: nat, participant: bool)
    | Launch(attempt: nat)
    | Accepted(attempt: nat, ting: nat)
    | Refused(attempt: nat)
    | Record(attempt: nat)
    | Crash(attempt: nat)
    | Discard(delivery: nat)

  function WithPhase(world: World, a: nat, phase: Phase): World
    requires a < |world.attempts|
  {
    world.(attempts := world.attempts[a := world.attempts[a].(phase := phase)])
  }

  function Fail(world: World, settings: Settings, a: nat): World
    requires a < |world.attempts| && world.attempts[a].claim.Some?
  {
    WithPhase(world, a, Failed(world.now + RetryDelay(world.attempts[a].claim.value.count, settings.maxRetryDelay)))
  }

  /** `claim_ting_deliveries` for one row: discard what cannot be sent, or lease it. */
  function Taken(world: World, settings: Settings, a: nat, d: nat, prepared: string, sendable: bool): World
    requires a < |world.attempts| && d in world.rows
  {
    var row := world.rows[d];
    if !sendable then world.(rows := world.rows[d := row.(discarded := true)])
    else
      var body := if row.body.Some? then row.body.value else prepared;
      var expires := world.now + settings.lease;
      world.(rows := world.rows[d := row.(body := Some(body), lease := Some(Lease(a, expires)))],
             attempts := world.attempts[a := world.attempts[a].(
               claim := Some(Claim(d, expires, body, row.attempts)), phase := Claimed)])
  }

  predicate Authorized(row: Handoff, a: nat, now: int, participant: bool) {
    Owned(row, a, now) && !row.discarded && participant
  }

  /** Storing the outcome of an attempt. */
  function Recorded(world: World, a: nat): World
    requires a < |world.attempts| && world.attempts[a].claim.Some?
  {
    var d := world.attempts[a].claim.value.delivery;
    if d !in world.rows then world
    else match world.attempts[a].phase
      case Succeeded(ting) =>
        WithPhase(world.(rows := world.rows[d := Accept(world.rows[d], a, ting, world.now)]), a, Over)
      case Failed(next) =>
        WithPhase(world.(rows := world.rows[d := Retry(world.rows[d], a, next, world.now)]), a, Over)
      case _ => world
  }

  predicate In(world: World, a: nat) {
    a < |world.attempts| && world.attempts[a].claim.Some? && world.attempts[a].claim.value.delivery in world.rows
  }

  /** One step; a step that cannot be taken changes nothing. Timers fire on time: the clock does
      not pass the deadline of a publish that is still running. */
  function Next(world: World, settings: Settings, step: Step): World {
    match step
    case Create(d) =>
      if d in world.rows then world
      else world.(rows := world.rows[d := Handoff(None, None, world.now, 0, None, false)])
    case Tick(now) =>
      if world.now <= now && (forall a :: 0 <= a < |world.attempts| && world.attempts[a].phase.Publishing?
                                ==> now <= world.attempts[a].deadline)
      then world.(now := now) else world
    case Start =>
      world.(attempts := world.attempts + [Attempt(world.now + settings.lease - RESERVE, None, Starting)])
    case Take(a, d, prepared, participant, sendable) =>
      if a < |world.attempts| && world.attempts[a].phase.Starting? && d in world.rows && participant
         && Free(world.rows[d], world.now) && world.rows[d].nextAttempt <= world.now
      then Taken(world, settings, a, d, prepared, sendable) else world
    case Check(a, participant) =>
      if In(world, a) && world.attempts[a].phase.Claimed?
      then WithPhase(world, a, Checked(
        Authorized(world.rows[world.attempts[a].claim.value.delivery], a, world.now, participant)))
      else world
    case Launch(a) =>
      if In(world, a) && world.attempts[a].phase.Checked?
      then (if world.now < world.attempts[a].deadline && world.attempts[a].phase.authorized
            then WithPhase(world, a, Publishing) else Fail(world, settings, a))
      else world
    case Accepted(a, ting) =>
      if In(world, a) && world.attempts[a].phase.Publishing?
      then WithPhase(world, a, Succeeded(ting)).(accepted := world.accepted +
             {Acceptance(world.attempts[a].claim.value.delivery, world.attempts[a].claim.value.body, ting)})
      else world
    case Refused(a) =>
      if In(world, a) && world.attempts[a].phase.Publishing? then Fail(world, settings, a) else world
    case Record(a) => if In(world, a) then Recorded(world, a) else world
    case Crash(a) => if a < |world.attempts| then WithPhase(world, a, Over) else world
    case Discard(d) =>
      if d in world.rows && Free(world.rows[d], world.now)
      then world.(rows := world.rows[d := world.rows[d].(discarded := true)]) else world
  }

  function Run(world: World, settings: Settings, steps: seq<Step>): World
    decreases |steps|
  {
    if steps == [] then world else Run(Next(world, settings, steps[0]), settings, steps[1..])
  }

  function Initial(now: int): World {
    World(now, map[], [], {})
  }

  // ---------------------------------------------------------------- what every run keeps

  /** The attempt still has its outcome to record. */
  predicate Active(phase: Phase) {
    !phase.Starting? && !phase.Over?
  }

  /** An attempt that is not over owns its row for as long as its lease lasts, which is half a
      second longer than it may publish; a success is an acceptance of its own row's body. */
  predicate AttemptInv(world: World, settings: Settings, a: nat)
    requires a < |world.attempts|
  {
    var attempt := world.attempts[a];
    && (attempt.phase.Starting? ==> attempt.claim.None? && attempt.deadline <= world.now + settings.lease - RESERVE)
    && (Active(attempt.phase) ==> attempt.claim.Some? && ClaimInv(world, a))
  }

  predicate ClaimInv(world: World, a: nat)
    requires a < |world.attempts| && world.attempts[a].claim.Some?
  {
    var attempt, claim := world.attempts[a], world.attempts[a].claim.value;
    && claim.delivery in world.rows
    && world.rows[claim.delivery].body == Some(claim.body)
    && attempt.deadline + RESERVE <= claim.expires
    && (world.now < claim.expires ==> world.rows[claim.delivery].lease == Some(Lease(a, claim.expires)))
    && (attempt.phase.Publishing? ==> world.now <= attempt.deadline)
    && (attempt.phase.Succeeded? ==> Acceptance(claim.delivery, claim.body, attempt.phase.ting) in world.accepted)
  }

  /** A lease is some attempt's claim of the row. */
  predicate LeaseInv(world: World, d: nat, lease: Lease) {
    && lease.id < |world.attempts| && world.attempts[lease.id].claim.Some?
    && world.attempts[lease.id].claim.value.delivery == d
    && world.attempts[lease.id].claim.value.expires == lease.expires
  }

  /** A row is recorded accepted only under an id Ting gave its own body. */
  predicate RowInv(world: World, d: nat)
    requires d in world.rows
  {
    var row := world.rows[d];
    && (row.lease.Some? ==> LeaseInv(world, d, row.lease.value))
    && (row.discarded && row.lease.Some? ==> row.lease.value.expires <= world.now)
    && (row.accepted.Some? ==>
          row.lease.None? && row.body.Some? && !row.discarded && Acceptance(d, row.body.value, row.accepted.value) in world.accepted)
  }

  predicate Inv(world: World, settings: Settings) {
    && (forall a: nat :: a < |world.attempts| ==> AttemptInv(world, settings, a))
    && (forall d :: d in world.rows ==> RowInv(world, d))
  }

  lemma StartKeeps(world: World, settings: Settings)
    requires Inv(world, settings)
    ensures Inv(Next(world, settings, Start), settings)
  {
    var next := Next(world, settings, Start);
    forall a: nat | a < |next.attempts| ensures AttemptInv(next, settings, a) {
      assert a < |world.attempts| ==> AttemptInv(world, settings, a);
    }
    forall d | d in next.rows ensures RowInv(next, d) {
      assert RowInv(world, d);
    }
  }

  lemma TickKeeps(world: World, settings: Settings, now: int)
    requires Inv(world, settings)
    ensures Inv(Next(world, settings, Tick(now)), settings)
  {
    var next := Next(world, settings, Tick(now));
    forall a: nat | a < |next.attempts| ensures AttemptInv(next, settings, a) {
      assert AttemptInv(world, settings, a);
    }
    forall d | d in next.rows ensures RowInv(next, d) {
      assert RowInv(world, d);
    }
  }

  /** A step of one attempt that touches no row. */
  lemma PhaseKeeps(world: World, settings: Settings, a: nat, phase: Phase)
    requires Inv(world, settings) && a < |world.attempts|
    requires AttemptInv(WithPhase(world, a, phase), settings, a)
    ensures Inv(WithPhase(world, a, phase), settings)
  {
    var next := WithPhase(world, a, phase);
    forall b: nat | b < |next.attempts| ensures AttemptInv(next, settings, b) {
      assert b != a ==> AttemptInv(world, settings, b);
    }
    forall d | d in next.rows ensures RowInv(next, d) {
      assert RowInv(world, d);
    }
  }

  lemma DiscardKeeps(world: World, settings: Settings, d: nat)
    requires Inv(world, settings) && d in world.rows && Free(world.rows[d], world.now)
    ensures Inv(world.(rows := world.rows[d := world.rows[d].(discarded := true)]), settings)
  {
    var next := world.(rows := world.rows[d := world.rows[d].(discarded := true)]);
    forall a: nat | a < |next.attempts| ensures AttemptInv(next, settings, a) {
      assert AttemptInv(world, settings, a);
    }
    forall e | e in next.rows ensures RowInv(next, e) {
      assert RowInv(world, e);
    }
  }

  lemma CreateKeeps(world: World, settings: Settings, d: nat)
    requires Inv(world, settings)
    ensures Inv(Next(world, settings, Create(d)), settings)
  {
    var next := Next(world, settings, Create(d));
    forall a: nat | a < |next.attempts| ensures AttemptInv(next, settings, a) {
      assert AttemptInv(world, settings, a);
    }
    forall e | e in next.rows ensures RowInv(next, e) {
      assert e in world.rows ==> RowInv(world, e);
    }
  }

  /** Nobody who may still publish or record loses the row: its lease had run out. */
  lemma TakeKeeps(world: World, settings: Settings, a: nat, d: nat, prepared: string)
    requires Inv(world, settings) && a < |world.attempts| && world.attempts[a].phase.Starting?
    requires d in world.rows && Free(world.rows[d], world.now)
    ensures Inv(Taken(world, settings, a, d, prepared, true), settings)
  {
    var next := Taken(world, settings, a, d, prepared, true);
    assert AttemptInv(world, settings, a) && RowInv(world, d);
    forall b: nat | b < |next.attempts| ensures AttemptInv(next, settings, b) {
      assert AttemptInv(world, settings, b);
    }
    forall e | e in next.rows ensures RowInv(next, e) {
      assert RowInv(world, e);
    }
  }

  /** An owner lets go of its row with its outcome. */
  lemma ReleaseKeeps(world: World, settings: Settings, a: nat, row: Handoff)
    requires Inv(world, settings) && In(world, a) && Active(world.attempts[a].phase)
    requires var was := world.rows[world.attempts[a].claim.value.delivery];
             && (row == was || (Owned(was, a, world.now) && row.lease.None?))
             && row.body == was.body && row.discarded == was.discarded
             && (row.accepted == was.accepted || (row.accepted.Some? && world.attempts[a].phase == Succeeded(row.accepted.value)))
    ensures Inv(WithPhase(world.(rows := world.rows[world.attempts[a].claim.value.delivery := row]), a, Over), settings)
  {
    var d := world.attempts[a].claim.value.delivery;
    var next := WithPhase(world.(rows := world.rows[d := row]), a, Over);
    assert AttemptInv(world, settings, a) && RowInv(world, d);
    forall b: nat | b < |next.attempts| ensures AttemptInv(next, settings, b) {
      assert AttemptInv(world, settings, b);
    }
    forall e | e in next.rows ensures RowInv(next, e) {
      assert RowInv(world, e);
    }
  }

  lemma RecordKeeps(world: World, settings: Settings, a: nat)
    requires Inv(world, settings) && In(world, a)
    ensures Inv(Recorded(world, a), settings)
  {
    var d := world.attempts[a].claim.value.delivery;
    match world.attempts[a].phase
    case Succeeded(ting) => ReleaseKeeps(world, settings, a, Accept(world.rows[d], a, ting, world.now));
    case Failed(next) => ReleaseKeeps(world, settings, a, Retry(world.rows[d], a, next, world.now));
    case _ =>
  }

  lemma AcceptedKeeps(world: World, settings: Settings, a: nat, ting: nat)
    requires Inv(world, settings)
    ensures Inv(Next(world, settings, Accepted(a, ting)), settings)
  {
    var next := Next(world, settings, Accepted(a, ting));
    forall b: nat | b < |next.attempts| ensures AttemptInv(next, settings, b) {
      assert AttemptInv(world, settings, b);
    }
    forall d | d in next.rows ensures RowInv(next, d) {
      assert RowInv(world, d);
    }
  }

  lemma NextKeeps(world: World, settings: Settings, step: Step)
    requires Inv(world, settings)
    ensures Inv(Next(world, settings, step), settings)
  {
    match step
    case Create(d) => CreateKeeps(world, settings, d);
    case Tick(now) => TickKeeps(world, settings, now);
    case Start => StartKeeps(world, settings);
    case Take(a, d, prepared, participant, sendable) =>
      if Next(world, settings, step) != world {
        if sendable {
          TakeKeeps(world, settings, a, d, prepared);
        } else {
          DiscardKeeps(world, settings, d);
        }
      }
    case Accepted(a, ting) => AcceptedKeeps(world, settings, a, ting);
    case Record(a) =>
      if In(world, a) {
        RecordKeeps(world, settings, a);
      }
    case Discard(d) =>
      if d in world.rows && Free(world.rows[d], world.now) {
        DiscardKeeps(world, settings, d);
      }
    case _ => AttemptStepKeeps(world, settings, step);
  }

  lemma AttemptStepKeeps(world: World, settings: Settings, step: Step)
    requires Inv(world, settings) && (step.Check? || step.Launch? || step.Refused? || step.Crash?)
    ensures Inv(Next(world, settings, step), settings)
  {
    var next := Next(world, settings, step);
    if step.attempt < |world.attempts| {
      assert AttemptInv(world, settings, step.attempt);
      assert next == world || next == WithPhase(world, step.attempt, next.attempts[step.attempt].phase);
      if next != world {
        PhaseKeeps(world, settings, step.attempt, next.attempts[step.attempt].phase);
      }
    }
  }

  lemma {:induction false} RunKeeps(world: World, settings: Settings, steps: seq<Step>)
    requires Inv(world, settings)
    ensures Inv(Run(world, settings, steps), settings)
    decreases |steps|
  {
    if steps != [] {
      NextKeeps(world, settings, steps[0]);
      RunKeeps(Next(world, settings, steps[0]), settings, steps[1..]);
    }
  }

  // ---------------------------------------------------------------- main results

  predicate Publishes(world: World, a: nat, d: nat) {
    && a < |world.attempts| && world.attempts[a].phase.Publishing?
    && world.attempts[a].claim.Some? && world.attempts[a].claim.value.delivery == d
  }

  /** However workers start, stall, crash and take over from each other, no two publishes of one
      handoff run at the same time, and none runs into the last half second of its lease; while one
      runs, the handoff is its own, unaccepted and not discarded. */
  lemma PublishesNeverOverlap(now: int, settings: Settings, steps: seq<Step>, d: nat, a: nat, b: nat)
    requires Publishes(Run(Initial(now), settings, steps), a, d)
    ensures var world := Run(Initial(now), settings, steps);
            && world.now + RESERVE <= world.attempts[a].claim.value.expires
            && d in world.rows && Owned(world.rows[d], a, world.now) && !world.rows[d].discarded
    ensures Publishes(Run(Initial(now), settings, steps), b, d) ==> a == b
  {
    RunKeeps(Initial(now), settings, steps);
    var world := Run(Initial(now), settings, steps);
    assert AttemptInv(world, settings, a) && RowInv(world, d);
    assert b < |world.attempts| ==> AttemptInv(world, settings, b);
  }

  /** A handoff is recorded accepted only under an id Ting gave its own body, and then not
      discarded as well. */
  lemma AcceptedUnderOwnBody(now: int, settings: Settings, steps: seq<Step>, d: nat)
    requires d in Run(Initial(now), settings, steps).rows
    ensures var world := Run(Initial(now), settings, steps);
            world.rows[d].accepted.Some? ==>
              && world.rows[d].body.Some? && !world.rows[d].discarded
              && Acceptance(d, world.rows[d].body.value, world.rows[d].accepted.value) in world.accepted
  {
    RunKeeps(Initial(now), settings, steps);
    assert RowInv(Run(Initial(now), settings, steps), d);
  }

  /** What no later step undoes: the row, its sealed body, its acceptance, its discarding. */
  predicate Outlives(was: World, world: World, d: nat)
    requires d in was.rows
  {
    && d in world.rows
    && (was.rows[d].body.Some? ==> world.rows[d].body == was.rows[d].body)
    && (was.rows[d].accepted.Some? ==> world.rows[d].accepted == was.rows[d].accepted)
    && (was.rows[d].discarded ==> world.rows[d].discarded)
  }

  lemma {:induction false} NothingIsUndone(world: World, settings: Settings, steps: seq<Step>, d: nat)
    requires d in world.rows
    ensures Outlives(world, Run(world, settings, steps), d)
    decreases |steps|
  {
    if steps != [] {
      var next := Next(world, settings, steps[0]);
      assert Outlives(world, next, d);
      NothingIsUndone(next, settings, steps[1..], d);
    }
  }

  /** The attempt has passed its check, or gone on from there. */
  predicate Passed(world: World, a: nat) {
    a < |world.attempts| && (world.attempts[a].phase == Checked(true) || world.attempts[a].phase.Publishing?
                             || world.attempts[a].phase.Succeeded?)
  }

  /** At some point of the run the attempt's check finds its handoff owned, neither accepted nor
      discarded, and its recipient a participant. */
  predicate MeetsCheck(world: World, settings: Settings, steps: seq<Step>, a: nat)
    decreases |steps|
  {
    steps != [] &&
    ((steps[0] == Check(a, true) && In(world, a)
      && Owned(world.rows[world.attempts[a].claim.value.delivery], a, world.now)
      && !world.rows[world.attempts[a].claim.value.delivery].discarded)
     || MeetsCheck(Next(world, settings, steps[0]), settings, steps[1..], a))
  }

  /** Nothing is published, and nothing accepted, without that check. */
  lemma {:induction false} PublishedOnlyIfAuthorized(world: World, settings: Settings, steps: seq<Step>, a: nat)
    requires !Passed(world, a) && Passed(Run(world, settings, steps), a)
    ensures MeetsCheck(world, settings, steps, a)
    decreases |steps|
  {
    var next := Next(world, settings, steps[0]);
    if !Passed(next, a) {
      PublishedOnlyIfAuthorized(next, settings, steps[1..], a);
    }
  }

  predicate HasFailed(world: World, a: nat) {
    a < |world.attempts| && world.attempts[a].phase.Failed?
  }

  /** A delay between one second and the configured maximum. */
  predicate Bounded(delay: int, settings: Settings) {
    1000 <= delay <= if settings.maxRetryDelay < 1000 then 1000 else settings.maxRetryDelay
  }

  /** Whatever step makes an attempt fail, Ting's refusal, a check that did not pass or a deadline
      gone by, it puts the next attempt off by a bounded delay. */
  lemma EveryFailureIsPutOff(world: World, settings: Settings, step: Step, a: nat)
    requires !HasFailed(world, a) && HasFailed(Next(world, settings, step), a)
    ensures Bounded(Next(world, settings, step).attempts[a].phase.next - world.now, settings)
  {
    if a < |world.attempts| && world.attempts[a].claim.Some? {
      RetryDelayBounds(world.attempts[a].claim.value.count, 0, settings.maxRetryDelay);
    }
  }

  /** Whenever a failure is recorded, however much has happened since: while the lease lasts the
      handoff is left pending, free and due again when the failure said, and it has not been
      accepted or discarded meanwhile; once the lease is stale nothing is changed. */
  lemma FailureStaysPending(world: World, settings: Settings, a: nat)
    requires Inv(world, settings) && In(world, a) && world.attempts[a].phase.Failed?
    ensures var claim := world.attempts[a].claim.value;
            var row, after := world.rows[claim.delivery], Next(world, settings, Record(a)).rows[claim.delivery];
            if world.now < claim.expires then
              && after.accepted.None? && !after.discarded && after.lease.None?
              && after.nextAttempt == world.attempts[a].phase.next && after.body == row.body
              && after.attempts == if row.attempts < I64_MAX then row.attempts + 1 else row.attempts
            else after == row
  {
    assert AttemptInv(world, settings, a) && RowInv(world, world.attempts[a].claim.value.delivery);
  }

  /** A success is recorded exactly while its lease lasts. */
  lemma SuccessIsRecordedInTime(world: World, settings: Settings, a: nat)
    requires Inv(world, settings) && In(world, a) && world.attempts[a].phase.Succeeded?
    ensures var claim := world.attempts[a].claim.value;
            var after := Next(world, settings, Record(a)).rows[claim.delivery];
            if world.now < claim.expires then after.accepted == Some(world.attempts[a].phase.ting) && after.lease.None?
            else after == world.rows[claim.delivery]
  {
    assert AttemptInv(world, settings, a) && RowInv(world, world.attempts[a].claim.value.delivery);
  }

  // ---------------------------------------------------------------- one worker's batch

  const DISCARD_BATCH := 500
  const MAX_DISCARDS := 500

  datatype Error = InvalidLease

  /** What one turn of the loop meets: rows the claim discards on the way, the row it finds, what
      Ting says, and what other workers and the clock do between this worker's own steps. */
  datatype Turn = Turn(
    legacy: seq<nat>, delivery: Option<nat>, prepared: string, participant: bool, ting: Option<nat>,
    before: seq<Step>, taken: seq<Step>, checked: seq<Step>, running: seq<Step>, done: seq<Step>)

  /** The step is one of attempt `a`'s own. */
  predicate Names(step: Step, a: nat) {
    match step
    case Take(b, _, _, _, _) => a == b
    case Check(b, _) => a == b
    case Launch(b) => a == b
    case Accepted(b, _) => a == b
    case Refused(b) => a == b
    case Record(b) => a == b
    case Crash(b) => a == b
    case _ => false
  }

  /** The steps that are not attempt `a`'s own. */
  function Others(steps: seq<Step>, a: nat): (others: seq<Step>)
    ensures forall i :: 0 <= i < |others| ==> !Names(others[i], a)
  {
    if steps == [] then []
    else (if Names(steps[0], a) then [] else [steps[0]]) + Others(steps[1..], a)
  }

  /** `trace`, and then the steps of one attempt between those of others: take a row, check,
      publish, record. */
  function Script(trace: seq<Step>, turn: Turn, a: nat, claimed: bool): seq<Step> {
    var begun := trace + [Start] + Others(turn.before, a);
    var taken := Claims(Discards(begun, turn.legacy, a, Min(|turn.legacy|, MAX_DISCARDS)), turn, a);
    if claimed then Publication(taken, turn, a) else taken
  }

  /** ... from a claim to the start of its publish. */
  function Reaching(trace: seq<Step>, turn: Turn, a: nat): seq<Step> {
    trace + Others(turn.taken, a) + [Check(a, turn.participant)] + Others(turn.checked, a) + [Launch(a)]
  }

  /** ... from a claim to the record of its outcome. */
  function Publication(trace: seq<Step>, turn: Turn, a: nat): seq<Step> {
    Reaching(trace, turn, a) + Others(turn.running, a) + [if turn.ting.Some? then Accepted(a, turn.ting.value) else Refused(a)]
    + Others(turn.done, a) + [Record(a)]
  }

  /** ... the discarding of the first `n` rows a claim finds that cannot be sent. */
  function Discards(trace: seq<Step>, legacy: seq<nat>, a: nat, n: nat): seq<Step>
    requires n <= |legacy|
  {
    if n == 0 then trace else Discards(trace, legacy, a, n - 1) + [Take(a, legacy[n - 1], "", true, false)]
  }

  function Claims(trace: seq<Step>, turn: Turn, a: nat): seq<Step> {
    if turn.delivery.Some? then trace + [Take(a, turn.delivery.value, turn.prepared, true, true)] else trace
  }

  /** ... the first `n` attempts of a batch, of which `claims` found a row. */
  function Batch(trace: seq<Step>, turns: seq<Turn>, attempts: seq<nat>, n: nat, claims: int): seq<Step>
    requires n <= |turns| && n <= |attempts|
  {
    if n == 0 then trace
    else Script(Batch(trace, turns, attempts, n - 1, claims), turns[n - 1], attempts[n - 1], n <= claims)
  }

  lemma {:induction false} RunOn(world: World, settings: Settings, first: seq<Step>, second: seq<Step>)
    ensures Run(Run(world, settings, first), settings, second) == Run(world, settings, first + second)
    decreases |first|
  {
    if first == [] {
      assert first + second == second;
    } else {
      assert (first + second)[1..] == first[1..] + second;
      RunOn(Next(world, settings, first[0]), settings, first[1..], second);
    }
  }

  class Database {
    const settings: Settings
    var world: World
    ghost var begun: World
    ghost var trace: seq<Step>

    constructor (settings: Settings, now: int)
      ensures this.settings == settings && world == Initial(now) && Valid() && trace == []
    {
      this.settings, world, begun, trace := settings, Initial(now), Initial(now), [];
    }

    /** The database is where the steps so far have led it, and every run keeps the invariant. */
    ghost predicate Valid()
      reads this
    {
      world == Run(begun, settings, trace) && Inv(begun, settings) && Inv(world, settings)
    }

    /** One step of this worker. */
    method Do(step: Step)
      requires Valid()
      modifies this`world, this`trace
      ensures Valid() && trace == old(trace) + [step] && world == Next(old(world), settings, step)
      ensures OversKept(old(world), world)
    {
      OneStep(world, settings, step);
      RunKeeps(world, settings, [step]);
      OverForGood(world, settings, [step]);
      RunOn(begun, settings, trace, [step]);
      world, trace := Next(world, settings, step), trace + [step];
    }

    /** What other workers and the clock do meanwhile, which does not touch attempt `a`. */
    method Wait(steps: seq<Step>, a: nat)
      requires Valid() && a < |world.attempts|
      modifies this`world, this`trace
      ensures Valid() && trace == old(trace) + Others(steps, a) && OversKept(old(world), world)
      ensures Undisturbed(old(world), world, a)
    {
      var others := Others(steps, a);
      RunKeeps(world, settings, others);
      OverForGood(world, settings, others);
      RunOn(begun, settings, trace, others);
      OthersLeave(world, settings, others, a);
      world, trace := Run(world, settings, others), trace + others;
    }

    /** The check right before sending. */
    method CheckRow(a: nat, participant: bool)
      requires Valid() && In(world, a) && world.attempts[a].phase.Claimed?
      modifies this`world, this`trace
      ensures Valid() && trace == old(trace) + [Check(a, participant)] && OversKept(old(world), world)
      ensures Moved(old(world), world, a) && world.attempts[a].phase.Checked?
      ensures world.attempts[a].phase.authorized ==> participant
    {
      Do(Check(a, participant));
    }

    /** Publishing starts if the check passed and there is time left. */
    method LaunchPublish(a: nat)
      requires Valid() && In(world, a) && world.attempts[a].phase.Checked?
      modifies this`world, this`trace
      ensures Valid() && trace == old(trace) + [Launch(a)] && OversKept(old(world), world)
      ensures Moved(old(world), world, a)
      ensures if old(world).attempts[a].phase.authorized && old(world).now < old(world).attempts[a].deadline
              then world.attempts[a].phase.Publishing?
              else world.attempts[a].phase.Failed? && Bounded(world.attempts[a].phase.next - world.now, settings)
    {
      if !world.attempts[a].phase.authorized || world.attempts[a].deadline <= world.now {
        EveryFailureIsPutOff(world, settings, Launch(a), a);
      }
      Do(Launch(a));
    }

    /** What became of the publish, if it started. */
    method Hear(a: nat, ting: Option<nat>)
      requires Valid() && In(world, a) && (world.attempts[a].phase.Publishing? || world.attempts[a].phase.Failed?)
      modifies this`world, this`trace
      ensures Valid() && OversKept(old(world), world) && Moved(old(world), world, a)
      ensures trace == old(trace) + [if ting.Some? then Accepted(a, ting.value) else Refused(a)]
      ensures if old(world).attempts[a].phase.Failed? then world.attempts[a] == old(world).attempts[a]
              else if ting.Some? then world.attempts[a].phase == Succeeded(ting.value)
              else world.attempts[a].phase.Failed? && Bounded(world.attempts[a].phase.next - world.now, settings)
    {
      if world.attempts[a].phase.Publishing? && ting.None? {
        EveryFailureIsPutOff(world, settings, Refused(a), a);
      }
      Do(if ting.Some? then Accepted(a, ting.value) else Refused(a));
    }

    /** Storing the outcome: the attempt is over, and while its lease lasts its handoff is accepted
        under Ting's id, or pending until the failure said. */
    method Store(a: nat)
      requires Valid() && In(world, a) && (world.attempts[a].phase.Succeeded? || world.attempts[a].phase.Failed?)
      modifies this`world, this`trace
      ensures Valid() && trace == old(trace) + [Record(a)] && OversKept(old(world), world)
      ensures Moved(old(world), world, a) && world.attempts[a].phase.Over?
      ensures Settled(world, old(world).attempts[a].claim.value, old(world).attempts[a].phase)
    {
      assert AttemptInv(world, settings, a) && RowInv(world, world.attempts[a].claim.value.delivery);
      if world.attempts[a].phase.Succeeded? {
        SuccessIsRecordedInTime(world, settings, a);
      } else {
        FailureStaysPending(world, settings, a);
      }
      Do(Record(a));
    }

    /** From a claim to its publish, which starts only for a participant, or to its failure. */
    method Reach(a: nat, turn: Turn)
      requires Valid() && In(world, a) && world.attempts[a].phase.Claimed?
      modifies this`world, this`trace
      ensures Valid() && OversKept(old(world), world) && trace == Reaching(old(trace), turn, a)
      ensures Moved(old(world), world, a)
      ensures if world.attempts[a].phase.Publishing? then turn.participant
              else world.attempts[a].phase.Failed? && Bounded(world.attempts[a].phase.next - world.now, settings)
    {
      Wait(turn.taken, a);
      CheckRow(a, turn.participant);
      Wait(turn.checked, a);
      LaunchPublish(a);
    }

    /** From a claim to its end, whatever others do in between: the attempt is over; it succeeded
        only if Ting accepted and the recipient was a participant, and otherwise failed at `at` with
        a bounded delay; and if its lease lasted, its handoff is settled accordingly. */
    method Publish(a: nat, turn: Turn) returns (outcome: Phase, at: int)
      requires Valid() && In(world, a) && world.attempts[a].phase.Claimed?
      modifies this`world, this`trace
      ensures Valid() && OversKept(old(world), world) && trace == Publication(old(trace), turn, a)
      ensures Moved(old(world), world, a) && world.attempts[a].phase.Over?
      ensures outcome.Succeeded? ==> turn.ting == Some(outcome.ting) && turn.participant
      ensures !outcome.Succeeded? ==>
                outcome.Failed? && old(world).now <= at <= world.now && Bounded(outcome.next - at, settings)
      ensures Settled(world, old(world).attempts[a].claim.value, outcome)
    {
      Reach(a, turn);
      at := world.now;
      var failed := world.attempts[a].phase.Failed?;
      Wait(turn.running, a);
      Hear(a, turn.ting);
      if !failed {
        at := world.now;
      }
      Wait(turn.done, a);
      outcome := world.attempts[a].phase;
      Store(a);
    }

    /** The claim: rows that cannot be sent are discarded on the way to one that can. */
    method Obtain(a: nat, turn: Turn) returns (claimed: bool)
      requires Valid() && a < |world.attempts| && world.attempts[a].phase.Starting?
      modifies this`world, this`trace
      ensures Valid() && OversKept(old(world), world)
      ensures a < |world.attempts| && world.attempts[a].phase == if claimed then Claimed else Starting
      ensures claimed ==> In(world, a) && turn.delivery == Some(world.attempts[a].claim.value.delivery)
      ensures trace == Claims(Discards(old(trace), turn.legacy, a, Min(|turn.legacy|, MAX_DISCARDS)), turn, a)
    {
      for i := 0 to Min(|turn.legacy|, MAX_DISCARDS)
        invariant Valid() && OversKept(old(world), world)
        invariant a < |world.attempts| && world.attempts[a].phase.Starting?
        invariant trace == Discards(old(trace), turn.legacy, a, i)
      {
        Do(Take(a, turn.legacy[i], "", true, false));
      }
      if turn.delivery.Some? {
        Do(Take(a, turn.delivery.value, turn.prepared, true, true));
      }
      claimed := world.attempts[a].phase.Claimed?;
    }

    /** One attempt, from its deadline to its outcome; `false` when there was nothing to claim. It
        takes the steps of `Script`, and ends over, or without ever having held a row. */
    method Attempt(turn: Turn) returns (claimed: bool, a: nat)
      requires Valid()
      modifies this`world, this`trace
      ensures Valid() && OversKept(old(world), world)
      ensures trace == Script(old(trace), turn, a, claimed)
      ensures a == |old(world).attempts| < |world.attempts|
      ensures world.attempts[a].phase == if claimed then Over else Starting
    {
      a := |world.attempts|;
      Do(Start);
      Wait(turn.before, a);
      claimed := Obtain(a, turn);
      if claimed {
        var outcome, at := Publish(a, turn);
      }
    }

    /** While Ting is not configured: of the rows found, up to a batch, every one nobody holds is
        discarded, nothing else changes, and the count is the number of rows it discarded. */
    method DiscardAll(found: seq<nat>) returns (discarded: nat)
      requires Valid()
      modifies this`world, this`trace
      ensures Valid() && world.now == old(world).now && world.attempts == old(world).attempts
      ensures DiscardedAmong(old(world), world, found[..Min(|found|, DISCARD_BATCH)])
      ensures discarded == |NewlyDiscarded(old(world), world)|
    {
      discarded := 0;
      var n := Min(|found|, DISCARD_BATCH);
      for i := 0 to n
        invariant Valid() && world.now == old(world).now && world.attempts == old(world).attempts
        invariant DiscardedAmong(old(world), world, found[..i])
        invariant discarded == |NewlyDiscarded(old(world), world)|
      {
        var d := found[i];
        var before := world;
        Do(Discard(d));
        assert found[..i + 1] == found[..i] + [d];
        DiscardedOneMore(old(world), before, found[..i], d);
        if d in before.rows && Free(before.rows[d], before.now) {
          discarded := discarded + 1;
        }
      }
      assert found[..n] == found[..Min(|found|, DISCARD_BATCH)];
    }

    /** One attempt after the other, all of them claiming a row but perhaps the last. */
    method Attempts(turns: seq<Turn>, most: nat) returns (processed: nat, ghost mine: seq<nat>)
      requires Valid()
      modifies this`world, this`trace
      ensures Valid() && OversKept(old(world), world)
      ensures |mine| <= |turns| && |mine| <= most && processed <= |mine| <= processed + 1
      ensures AllOver(world, mine, processed) && (processed < |mine| ==> NeverHeld(world, mine[processed]))
      ensures trace == Batch(old(trace), turns, mine, |mine|, processed)
    {
      processed, mine := 0, [];
      for i := 0 to Min(|turns|, most)
        invariant processed == |mine| == i && Valid() && OversKept(old(world), world) && AllOver(world, mine, i)
        invariant trace == Batch(old(trace), turns, mine, i, i)
      {
        ghost var before := world;
        var claimed, a := Attempt(turns[i]);
        SameBatch(old(trace), turns, mine, a, i, i, if claimed then i + 1 else i);
        AllOverStill(before, world, mine, a, i);
        mine := mine + [a];
        if !claimed {
          return;
        }
        processed := processed + 1;
      }
    }

    /** One bounded batch. The invariant of all workers holds throughout, and nothing the batch
        started is left running: it leases one row at a time. */
    method ProcessOnce(configured: bool, found: seq<nat>, turns: seq<Turn>)
      returns (result: Result<int, Error>, ghost mine: seq<nat>)
      requires Valid()
      modifies this`world, this`trace
      ensures Valid() && OversKept(old(world), world)
      ensures configured && settings.lease <= RESERVE <==> result == Failure(InvalidLease)
      ensures result.Failure? ==> world == old(world)
      ensures !configured ==>
                && DiscardedAmong(old(world), world, found[..Min(|found|, DISCARD_BATCH)])
                && result == Success(|NewlyDiscarded(old(world), world)|)
      ensures configured && result.Success? ==>
                && |mine| <= |turns| && |mine| <= MAX_BATCH && |mine| <= settings.batchSize
                && 0 <= result.value <= |mine| <= result.value + 1
                && AllOver(world, mine, result.value) && (result.value < |mine| ==> NeverHeld(world, mine[result.value]))
                && trace == Batch(old(trace), turns, mine, |mine|, result.value)
    {
      mine := [];
      if !configured {
        var discarded := DiscardAll(found);
        return Success(discarded), mine;
      }
      if settings.lease <= RESERVE {
        return Failure(InvalidLease), mine;
      }
      var processed;
      processed, mine := Attempts(turns, Min(settings.batchSize, MAX_BATCH));
      return Success(processed), mine;
    }
  }

  /** The clock does not go back and attempt `a` is as it was. */
  predicate Undisturbed(was: World, world: World, a: nat)
    requires a < |was.attempts|
  {
    a < |world.attempts| && world.attempts[a] == was.attempts[a] && was.now <= world.now && was.rows.Keys <= world.rows.Keys
  }

  /** The clock does not go back and attempt `a` has at most changed its phase. */
  predicate Moved(was: World, world: World, a: nat)
    requires a < |was.attempts|
  {
    && a < |world.attempts| && world.attempts[a] == was.attempts[a].(phase := world.attempts[a].phase)
    && was.now <= world.now && was.rows.Keys <= world.rows.Keys
  }

  /** The outcome of a claim is on its row, unless its lease ran out before it was stored. */
  predicate Settled(world: World, claim: Claim, outcome: Phase) {
    world.now < claim.expires && claim.delivery in world.rows ==>
      var row := world.rows[claim.delivery];
      && row.body == Some(claim.body) && row.lease.None?
      && (outcome.Succeeded? ==> row.accepted == Some(outcome.ting) && !row.discarded
                                 && Acceptance(claim.delivery, claim.body, outcome.ting) in world.accepted)
      && (outcome.Failed? ==> row.accepted.None? && !row.discarded && row.nextAttempt == outcome.next)
  }

  lemma OneStep(world: World, settings: Settings, step: Step)
    ensures Run(world, settings, [step]) == Next(world, settings, step)
  {
    assert [step][1..] == [];
  }

  lemma OthersStep(world: World, settings: Settings, step: Step, a: nat)
    requires a < |world.attempts| && !Names(step, a)
    ensures Undisturbed(world, Next(world, settings, step), a)
  {
  }

  lemma {:induction false} OthersLeave(world: World, settings: Settings, steps: seq<Step>, a: nat)
    requires a < |world.attempts| && forall i :: 0 <= i < |steps| ==> !Names(steps[i], a)
    ensures Undisturbed(world, Run(world, settings, steps), a)
    decreases |steps|
  {
    if steps != [] {
      OthersStep(world, settings, steps[0], a);
      OthersLeave(Next(world, settings, steps[0]), settings, steps[1..], a);
    }
  }

  /** Exactly the rows of `found` nobody held were discarded, and nothing else has changed. */
  predicate DiscardedAmong(was: World, world: World, found: seq<nat>) {
    && world.rows.Keys == was.rows.Keys
    && forall d :: d in was.rows ==>
         world.rows[d] == if d in found && Free(was.rows[d], was.now) then was.rows[d].(discarded := true) else was.rows[d]
  }

  function NewlyDiscarded(was: World, world: World): set<nat> {
    set d | d in was.rows && d in world.rows && world.rows[d].discarded && !was.rows[d].discarded
  }

  lemma DiscardedOneMore(was: World, world: World, found: seq<nat>, d: nat)
    requires DiscardedAmong(was, world, found) && world.now == was.now
    ensures var after := if d in world.rows && Free(world.rows[d], world.now)
                         then world.(rows := world.rows[d := world.rows[d].(discarded := true)]) else world;
            && DiscardedAmong(was, after, found + [d])
            && |NewlyDiscarded(was, after)| == |NewlyDiscarded(was, world)|
                 + if d in world.rows && Free(world.rows[d], world.now) then 1 else 0
  {
    if d in world.rows && Free(world.rows[d], world.now) {
      var after := world.(rows := world.rows[d := world.rows[d].(discarded := true)]);
      assert NewlyDiscarded(was, after) == NewlyDiscarded(was, world) + {d};
    }
  }

  predicate AllOver(world: World, attempts: seq<nat>, n: int) {
    forall i :: 0 <= i < n && i < |attempts| ==> attempts[i] < |world.attempts| && world.attempts[attempts[i]].phase.Over?
  }

  lemma AllOverStill(was: World, world: World, attempts: seq<nat>, a: nat, n: nat)
    requires AllOver(was, attempts, n) && OversKept(was, world) && n == |attempts|
    ensures AllOver(world, attempts + [a], n)
    ensures a < |world.attempts| && world.attempts[a].phase.Over? ==> AllOver(world, attempts + [a], n + 1)
  {
  }

  /** The attempt found nothing to claim. */
  predicate NeverHeld(world: World, a: nat) {
    a < |world.attempts| && world.attempts[a].phase.Starting?
  }

  lemma {:induction false} SameBatch(
    trace: seq<Step>, turns: seq<Turn>, attempts: seq<nat>, a: nat, n: nat, claims: int, other: int)
    requires n <= |turns| && n <= |attempts| && n <= claims && n <= other
    ensures Batch(trace, turns, attempts + [a], n, other) == Batch(trace, turns, attempts, n, claims)
  {
    if n > 0 {
      SameBatch(trace, turns, attempts, a, n - 1, claims, other);
    }
  }

  /** An attempt that is over stays over. */
  predicate OversKept(was: World, world: World) {
    && |was.attempts| <= |world.attempts|
    && forall a :: 0 <= a < |was.attempts| && was.attempts[a].phase.Over? ==> world.attempts[a].phase.Over?
  }

  lemma {:induction false} OverForGood(world: World, settings: Settings, steps: seq<Step>)
    ensures OversKept(world, Run(world, settings, steps))
    decreases |steps|
  {
    if steps != [] {
      var next := Next(world, settings, steps[0]);
      assert OversKept(world, next);
      OverForGood(next, settings, steps[1..]);
    }
  }

  /** A turn nobody gets in the way of. */
  function QuietTurn(d: nat, prepared: string, ting: Option<nat>): Turn {
    Turn([], Some(d), prepared, true, ting, [], [], [], [], [])
  }

  /** The row and the attempt after taking a free row that is due, and checking it at once. */
  lemma TakenAndChecked(world: World, settings: Settings, d: nat, prepared: string)
    requires d in world.rows && Free(world.rows[d], world.now) && world.rows[d].nextAttempt <= world.now
    requires settings.lease > RESERVE
    ensures var a := |world.attempts|;
            var taken := Next(Next(world, settings, Start), settings, Take(a, d, prepared, true, true));
            var launched := Next(Next(taken, settings, Check(a, true)), settings, Launch(a));
            && launched.now == world.now && Publishes(launched, a, d) && d in launched.rows
            && launched.rows[d] == taken.rows[d] && Owned(launched.rows[d], a, world.now)
            && launched.attempts[a].claim.value.count == world.rows[d].attempts
  {
  }

  /** Left alone, an attempt delivers: a free row that is due ends accepted under Ting's id, or,
      if Ting refuses, pending and free again with one more failure to its name. */
  lemma UndisturbedTurnDelivers(world: World, settings: Settings, d: nat, prepared: string, ting: Option<nat>)
    requires d in world.rows && Free(world.rows[d], world.now) && world.rows[d].nextAttempt <= world.now
    requires settings.lease > RESERVE
    ensures var after := Run(world, settings, Script([], QuietTurn(d, prepared, ting), |world.attempts|, true));
            && d in after.rows && after.rows[d].accepted == ting && after.rows[d].lease.None?
            && (ting.None? ==> after.rows[d].nextAttempt == world.now + RetryDelay(world.rows[d].attempts, settings.maxRetryDelay))
  {
    var a := |world.attempts|;
    var taken := Next(Next(world, settings, Start), settings, Take(a, d, prepared, true, true));
    var launched := Next(Next(taken, settings, Check(a, true)), settings, Launch(a));
    TakenAndChecked(world, settings, d, prepared);
    var outcome := if ting.Some? then Accepted(a, ting.value) else Refused(a);
    QuietScript(d, prepared, ting, a);
    RunSix(world, settings, Start, Take(a, d, prepared, true, true), Check(a, true), Launch(a), outcome, Record(a));
    Outcome(launched, settings, a, d, ting);
  }

  lemma QuietScript(d: nat, prepared: string, ting: Option<nat>, a: nat)
    ensures Script([], QuietTurn(d, prepared, ting), a, true) ==
            [Start, Take(a, d, prepared, true, true), Check(a, true), Launch(a),
             if ting.Some? then Accepted(a, ting.value) else Refused(a), Record(a)]
  {
  }

  lemma RunStep(world: World, settings: Settings, step: Step, rest: seq<Step>)
    ensures Run(world, settings, [step] + rest) == Run(Next(world, settings, step), settings, rest)
  {
    assert ([step] + rest)[1..] == rest;
  }

  lemma RunThree(world: World, settings: Settings, s: Step, t: Step, u: Step, rest: seq<Step>)
    ensures var w := Next(Next(Next(world, settings, s), settings, t), settings, u);
            Run(world, settings, [s, t, u] + rest) == Run(w, settings, rest)
  {
    RunStep(world, settings, s, [t, u] + rest);
    assert [s, t, u] + rest == [s] + ([t, u] + rest);
    RunStep(Next(world, settings, s), settings, t, [u] + rest);
    assert [t, u] + rest == [t] + ([u] + rest);
    RunStep(Next(Next(world, settings, s), settings, t), settings, u, rest);
  }

  lemma RunSix(world: World, settings: Settings, s: Step, t: Step, u: Step, x: Step, y: Step, z: Step)
    ensures var w := Next(Next(Next(world, settings, s), settings, t), settings, u);
            Run(world, settings, [s, t, u, x, y, z]) == Next(Next(Next(w, settings, x), settings, y), settings, z)
  {
    RunThree(world, settings, s, t, u, [x, y, z]);
    assert [s, t, u, x, y, z] == [s, t, u] + [x, y, z];
    RunThree(Next(Next(Next(world, settings, s), settings, t), settings, u), settings, x, y, z, []);
    assert [x, y, z] == [x, y, z] + [];
  }

  lemma Outcome(world: World, settings: Settings, a: nat, d: nat, ting: Option<nat>)
    requires Publishes(world, a, d) && d in world.rows && Owned(world.rows[d], a, world.now)
    ensures var outcome := if ting.Some? then Accepted(a, ting.value) else Refused(a);
            var after := Next(Next(world, settings, outcome), settings, Record(a));
            && d in after.rows && after.rows[d].accepted == ting && after.rows[d].lease.None?
            && var delay := RetryDelay(world.attempts[a].claim.value.count, settings.maxRetryDelay);
            (ting.None? ==> after.rows[d].nextAttempt == world.now + delay)
  {
  }
}
