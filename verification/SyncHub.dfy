/** Waking long polls (src/application/sync_hub.rs and `events` in src/api/sync.rs): a lossy
    broadcast of "something new for this account" between the database and waiting requests. */
module SyncHub {
  import opened Results
  import opened SyncCursors
  import opened SyncFeed
  import opened SyncPages

  const CAPACITY := 4096

  /** One subscription: the number of signals sent before the next one it will see. */
  class Receiver {
    var next: nat

    constructor (next: nat)
      ensures this.next == next
    {
      this.next := next;
    }
  }

  function Concat(batches: seq<seq<string>>): seq<string> {
    if batches == [] then [] else batches[0] + Concat(batches[1..])
  }

  /** The channel. `sent` is every signal so far, of which it still holds the last `CAPACITY`. */
  class Hub {
    var sent: seq<string>

    constructor ()
      ensures sent == []
    {
      sent := [];
    }

    method Subscribe() returns (receiver: Receiver)
      ensures fresh(receiver) && receiver.next == |sent|
    {
      receiver := new Receiver(|sent|);
    }

    method Publish(account: string)
      modifies this
      ensures sent == old(sent) + [account]
    {
      sent := sent + [account];
    }

    method PublishAll(accounts: seq<string>)
      modifies this
      ensures sent == old(sent) + accounts
    {
      for i := 0 to |accounts|
        invariant sent == old(sent) + accounts[..i]
      {
        Publish(accounts[i]);
      }
    }

    /** Waits while `arrivals` come in, batch by batch, until the deadline after the last one.
        `true` means the account was signalled since the subscription, or signals were dropped;
        `false` that everything that came was received and none of it was for the account. */
    method WaitFor(receiver: Receiver, account: string, arrivals: seq<seq<string>>) returns (woken: bool)
      requires receiver.next <= |sent|
      modifies this, receiver
      ensures old(sent) <= sent <= old(sent) + Concat(arrivals)
      ensures woken ==> account in sent[old(receiver.next)..] || |sent| - old(receiver.next) > CAPACITY
      ensures !woken ==> sent == old(sent) + Concat(arrivals) && account !in sent[old(receiver.next)..]
    {
      ghost var first := receiver.next;
      var waiting := arrivals;
      while true
        invariant first <= receiver.next <= |sent|
        invariant old(sent) <= sent && old(sent) + Concat(arrivals) == sent + Concat(waiting)
        invariant account !in sent[first..receiver.next]
        decreases |waiting|, |sent| - receiver.next
      {
        if receiver.next == |sent| {
          if waiting == [] {
            return false;
          }
          ghost var before := sent;
          PublishAll(waiting[0]);
          assert before + (waiting[0] + Concat(waiting[1..])) == sent + Concat(waiting[1..]);
          assert sent[first..receiver.next] == before[first..receiver.next];
          waiting := waiting[1..];
        } else if |sent| - receiver.next > CAPACITY {
          receiver.next := |sent| - CAPACITY;
          return true;
        } else {
          var signalled := sent[receiver.next];
          receiver.next := receiver.next + 1;
          if signalled == account {
            return true;
          }
          assert sent[first..receiver.next] == sent[first..receiver.next - 1] + [signalled];
        }
      }
    }
  }

  // ---------------------------------------------------------------- the request's loop

  const MAX_WAIT_SECONDS := 30

  /** What a client asks for. */
  datatype Query = Query(cursor: Option<SyncCursor>, limit: Option<int>, reset: bool, wait: nat)

  /** What one turn of the loop meets: the clock and the stream at its two reads, the signals sent
      while it reads, whether the deadline has passed by then, and the signals that come while it
      waits. */
  datatype Turn = Turn(now: int, opening: Store, closing: Store, during: seq<string>, expired: bool, arrivals: seq<seq<string>>)

  /** The page one turn reads. */
  function PageAt(turn: Turn, query: Query, scope: string): Result<Page, AppError> {
    match OpenPage(turn.opening, query.cursor, scope, turn.now, query.limit)
    case Failure(error) => Failure(error)
    case Success(request) =>
      if query.reset then Success(ResetPage(turn.opening, scope, turn.now)) else ClosePage(turn.closing, request, scope)
  }

  predicate Refused(query: Query) {
    ValidatedLimit(query.limit).Failure? || (query.reset && query.cursor.Some?) || query.wait > MAX_WAIT_SECONDS
  }

  /** Nothing to say yet: the request may go on waiting. */
  predicate Holds(page: Result<Page, AppError>, turn: Turn, reset: bool) {
    page.Success? && page.value.events == [] && !page.value.hasMore && !reset && !turn.expired
  }

  /** The loop over the pages its turns read: which of them is the answer. */
  method AwaitPage(hub: Hub, account: string, reset: bool, turns: seq<Turn>, pages: seq<Result<Page, AppError>>)
    returns (last: nat)
    requires turns != [] && turns[|turns| - 1].expired && |pages| == |turns|
    modifies hub
    ensures last < |turns| && forall i :: 0 <= i < last ==> Holds(pages[i], turns[i], reset)
    ensures Holds(pages[last], turns[last], reset) ==> account !in turns[last].during + Concat(turns[last].arrivals)
  {
    last := 0;
    while true
      invariant last < |turns| && forall i :: 0 <= i < last ==> Holds(pages[i], turns[i], reset)
      decreases |turns| - last
    {
      var turn, page := turns[last], pages[last];
      var wakeups := hub.Subscribe();
      ghost var before := hub.sent;
      hub.PublishAll(turn.during);
      if page.Failure? || page.value.events != [] || page.value.hasMore || reset || turn.expired {
        return last;
      }
      var woken := hub.WaitFor(wakeups, account, turn.arrivals);
      if !woken {
        assert hub.sent == before + (turn.during + Concat(turn.arrivals));
        assert hub.sent[|before|..] == turn.during + Concat(turn.arrivals);
        return last;
      }
      last := last + 1;
    }
  }

  /** A query out of bounds is refused. Otherwise the answer is the page of some turn, read from the
      query's own cursor; every page before it was empty, so reading again from that cursor lost
      nothing; and an empty answer before the deadline is given only if the account was not
      signalled from before that page's read until the wait ended. */
  method LongPoll(hub: Hub, account: string, query: Query, scope: string, turns: seq<Turn>)
    returns (answer: Result<Page, AppError>, last: nat)
    requires turns != [] && turns[|turns| - 1].expired
    modifies hub
    ensures Refused(query) ==> answer == Failure(Validation) && hub.sent == old(hub.sent)
    ensures !Refused(query) ==>
              && last < |turns| && answer == PageAt(turns[last], query, scope)
              && (forall i :: 0 <= i < last ==> Holds(PageAt(turns[i], query, scope), turns[i], query.reset))
              && (Holds(answer, turns[last], query.reset) ==> account !in turns[last].during + Concat(turns[last].arrivals))
  {
    if Refused(query) {
      return Failure(Validation), 0;
    }
    var pages := seq(|turns|, i requires 0 <= i < |turns| => PageAt(turns[i], query, scope));
    last := AwaitPage(hub, account, query.reset, turns, pages);
    return pages[last], last;
  }

  // ---------------------------------------------------------------- no lost wakeup

  /** A request for `account` between turns, between subscribing and reading, waiting, or done.
      `readAt` is the number of commits its last read saw. */
  datatype Phase =
    | Starting
    | Subscribed(next: nat)
    | Waiting(next: nat, readAt: nat)
    | Answered(readAt: nat)

  /** `commits[c]` is the account commit `c` wrote an event for. A commit's notification is on its
      way to the listener (`pending`), signalled (`signals`), or was dropped with a connection. */
  datatype World = World(
    commits: seq<string>, pending: seq<nat>, signals: seq<nat>, dropped: set<nat>, connected: bool, phase: Phase)

  datatype Step = Commit(account: string) | Deliver | Disconnect | Connect | Subscribe | Read | Receive | Timeout

  /** Whether the account got an event between two points of the commit order. */
  predicate NewsBetween(world: World, account: string, from: nat, to: nat) {
    exists c :: from <= c < to && c < |world.commits| && world.commits[c] == account
  }

  function Dropping(world: World): World {
    world.(dropped := world.dropped + (set c | c in world.pending), pending := [], connected := false)
  }

  function Received(world: World, account: string): World
    requires world.phase.Waiting? && world.phase.next < |world.signals|
  {
    var next := world.phase.next;
    if |world.signals| - next > CAPACITY then world.(phase := Starting)
    else if world.signals[next] < |world.commits| && world.commits[world.signals[next]] == account
    then world.(phase := Starting)
    else world.(phase := world.phase.(next := next + 1))
  }

  /** One step of a run in which the client has seen the first `seen` commits. The deadline is
      noticed only by a request with nothing left to receive. */
  function Next(world: World, account: string, seen: nat, step: Step): World {
    match step
    case Commit(a) =>
      var c := |world.commits|;
      var after := world.(commits := world.commits + [a]);
      if world.connected then after.(pending := world.pending + [c]) else after.(dropped := world.dropped + {c})
    case Deliver =>
      if world.pending == [] then world
      else world.(pending := world.pending[1..], signals := world.signals + [world.pending[0]])
    case Disconnect => Dropping(world)
    case Connect => world.(connected := true)
    case Subscribe => if world.phase.Starting? then world.(phase := Subscribed(|world.signals|)) else world
    case Read =>
      if !world.phase.Subscribed? then world
      else if NewsBetween(world, account, seen, |world.commits|) then world.(phase := Answered(|world.commits|))
      else world.(phase := Waiting(world.phase.next, |world.commits|))
    case Receive =>
      if world.phase.Waiting? && world.phase.next < |world.signals| then Received(world, account) else world
    case Timeout =>
      if world.phase.Waiting? && world.phase.next >= |world.signals| then world.(phase := Answered(world.phase.readAt))
      else world
  }

  function Run(world: World, account: string, seen: nat, steps: seq<Step>): World
    decreases |steps|
  {
    if steps == [] then world else Run(Next(world, account, seen, steps[0]), account, seen, steps[1..])
  }

  function Initial(): World {
    World([], [], [], {}, false, Starting)
  }

  predicate Tracked(world: World, c: nat) {
    c in world.pending || c in world.signals || c in world.dropped
  }

  /** Where the signal of commit `c` still is for a receiver at `next`. */
  predicate WillWake(world: World, next: nat, c: nat) {
    c in world.pending || (exists i :: next <= i < |world.signals| && world.signals[i] == c)
  }

  /** A notification is in one place: it goes out once, and what was dropped never does. */
  predicate Apart(world: World) {
    && (forall i, j :: 0 <= i < j < |world.pending| ==> world.pending[i] != world.pending[j])
    && (forall c :: c in world.pending ==> c !in world.signals && c !in world.dropped)
    && (forall c :: c in world.signals ==> c !in world.dropped)
  }

  ghost predicate Inv(world: World, account: string, seen: nat) {
    && (forall c: nat :: c < |world.commits| ==> Tracked(world, c))
    && (forall c: nat :: Tracked(world, c) ==> c < |world.commits|)
    && Apart(world)
    && (world.phase.Subscribed? ==> world.phase.next <= |world.signals|)
    && (world.phase.Waiting? ==> WaitingInv(world, account, seen))
  }

  /** The no-lost-wakeup invariant: the last read found nothing, and every later commit for the
      account has its signal still ahead, unless the listener's connection took it along. */
  predicate WaitingInv(world: World, account: string, seen: nat)
    requires world.phase.Waiting?
  {
    && world.phase.next <= |world.signals| && world.phase.readAt <= |world.commits|
    && !NewsBetween(world, account, seen, world.phase.readAt)
    && (forall c: nat :: world.phase.readAt <= c < |world.commits| && world.commits[c] == account && c !in world.dropped
          ==> WillWake(world, world.phase.next, c))
  }

  lemma CommitKeeps(world: World, account: string, seen: nat, a: string)
    requires Inv(world, account, seen)
    ensures Inv(Next(world, account, seen, Commit(a)), account, seen)
  {
    var after := Next(world, account, seen, Commit(a));
    assert !Tracked(world, |world.commits|);
    forall c: nat | c < |after.commits| ensures Tracked(after, c) {
      assert c < |world.commits| ==> Tracked(world, c);
    }
    forall c: nat | Tracked(after, c) ensures c < |after.commits| {
      assert c != |world.commits| ==> Tracked(world, c);
    }
    if after.phase.Waiting? {
      assert !NewsBetween(world, account, seen, world.phase.readAt);
      forall c: nat | after.phase.readAt <= c < |after.commits| && after.commits[c] == account && c !in after.dropped
        ensures WillWake(after, after.phase.next, c)
      {
        assert c < |world.commits| ==> WillWake(world, world.phase.next, c);
      }
    }
  }

  lemma DeliverKeeps(world: World, account: string, seen: nat)
    requires Inv(world, account, seen)
    ensures Inv(Next(world, account, seen, Deliver), account, seen)
  {
    var after := Next(world, account, seen, Deliver);
    if world.pending != [] {
      var first := world.pending[0];
      assert after.signals[|world.signals|] == first;
      forall c: nat ensures Tracked(after, c) <==> Tracked(world, c) {
        assert world.pending == [first] + world.pending[1..];
      }
      if after.phase.Waiting? {
        forall c: nat | after.phase.readAt <= c < |after.commits| && after.commits[c] == account && c !in after.dropped
          ensures WillWake(after, after.phase.next, c)
        {
          assert WillWake(world, world.phase.next, c);
          if c !in world.pending {
            var i :| world.phase.next <= i < |world.signals| && world.signals[i] == c;
            assert after.signals[i] == c;
          }
        }
      }
    }
  }

  lemma DisconnectKeeps(world: World, account: string, seen: nat)
    requires Inv(world, account, seen)
    ensures Inv(Dropping(world), account, seen)
  {
    var after := Dropping(world);
    forall c: nat ensures Tracked(after, c) <==> Tracked(world, c) {
    }
    if after.phase.Waiting? {
      forall c: nat | after.phase.readAt <= c < |after.commits| && after.commits[c] == account && c !in after.dropped
        ensures WillWake(after, after.phase.next, c)
      {
        assert WillWake(world, world.phase.next, c);
      }
    }
  }

  lemma RequestStepKeeps(world: World, account: string, seen: nat, step: Step)
    requires Inv(world, account, seen)
    requires step.Connect? || step.Subscribe? || step.Read? || step.Receive? || step.Timeout?
    ensures Inv(Next(world, account, seen, step), account, seen)
  {
    var after := Next(world, account, seen, step);
    forall c: nat ensures Tracked(after, c) <==> Tracked(world, c) {
    }
    if step.Receive? && after.phase.Waiting? {
      forall c: nat | after.phase.readAt <= c < |after.commits| && after.commits[c] == account && c !in after.dropped
        ensures WillWake(after, after.phase.next, c)
      {
        assert WillWake(world, world.phase.next, c);
      }
    }
  }

  lemma NextKeeps(world: World, account: string, seen: nat, step: Step)
    requires Inv(world, account, seen)
    ensures Inv(Next(world, account, seen, step), account, seen)
  {
    match step
    case Commit(a) => CommitKeeps(world, account, seen, a);
    case Deliver => DeliverKeeps(world, account, seen);
    case Disconnect => DisconnectKeeps(world, account, seen);
    case _ => RequestStepKeeps(world, account, seen, step);
  }

  lemma {:induction false} RunKeeps(world: World, account: string, seen: nat, steps: seq<Step>)
    requires Inv(world, account, seen)
    ensures Inv(Run(world, account, seen, steps), account, seen)
    decreases |steps|
  {
    if steps != [] {
      NextKeeps(world, account, seen, steps[0]);
      RunKeeps(Next(world, account, seen, steps[0]), account, seen, steps[1..]);
    }
  }

  /** In every interleaving of commits, notifications, reconnects and one request's steps, a
      waiting request has the signal of a commit since its read still ahead of it if and only if
      the listener's connection did not take that signal along. */
  lemma NoLostWakeup(account: string, seen: nat, steps: seq<Step>)
    ensures var world := Run(Initial(), account, seen, steps);
            world.phase.Waiting? ==>
              forall c: nat :: world.phase.readAt <= c < |world.commits| && world.commits[c] == account ==>
                (WillWake(world, world.phase.next, c) <==> c !in world.dropped)
  {
    RunKeeps(Initial(), account, seen, steps);
  }

  /** A request gives up only if nothing committed for its account since its read has been
      signalled: each such commit is still to be notified or was dropped with the connection. */
  lemma TimeoutMeansUnsignalled(world: World, account: string, seen: nat, c: nat)
    requires Inv(world, account, seen) && world.phase.Waiting?
    requires Next(world, account, seen, Timeout).phase.Answered?
    requires world.phase.readAt <= c < |world.commits| && world.commits[c] == account
    ensures c in world.pending <==> c !in world.dropped
    ensures c !in world.signals
  {
    assert Tracked(world, c);
    if c !in world.dropped {
      assert WillWake(world, world.phase.next, c);
    }
  }

  function Receives(n: nat): seq<Step> {
    if n == 0 then [] else [Receive] + Receives(n - 1)
  }

  /** Once such a commit is signalled, receiving wakes the request: it reads again. */
  lemma {:induction false} SignalWakes(world: World, account: string, seen: nat, c: nat, i: nat)
    requires Inv(world, account, seen) && world.phase.Waiting?
    requires world.phase.next <= i < |world.signals| && world.signals[i] == c
    requires c < |world.commits| && world.commits[c] == account
    ensures exists n: nat :: n <= i - world.phase.next + 1 && Run(world, account, seen, Receives(n)).phase == Starting
    decreases i - world.phase.next
  {
    var after := Next(world, account, seen, Receive);
    assert Receives(1) == [Receive] + Receives(0);
    if after.phase.Waiting? {
      NextKeeps(world, account, seen, Receive);
      SignalWakes(after, account, seen, c, i);
      var n: nat :| n <= i - after.phase.next + 1 && Run(after, account, seen, Receives(n)).phase == Starting;
      assert Receives(n + 1)[1..] == Receives(n);
      assert Run(world, account, seen, Receives(n + 1)) == Run(after, account, seen, Receives(n));
    } else {
      assert Run(world, account, seen, Receives(1)) == after;
    }
  }

  /** A commit whose signal was dropped is late, not lost: the account's next request, which goes
      on from what the last answer covered, answers with it at once. */
  lemma DroppedIsLateNotLost(world: World, account: string, covered: nat, c: nat)
    requires world.phase.Starting? && covered <= c < |world.commits| && world.commits[c] == account
    ensures Run(world, account, covered, [Subscribe, Read]).phase == Answered(|world.commits|)
  {
    var subscribed := Next(world, account, covered, Subscribe);
    assert NewsBetween(subscribed, account, covered, |world.commits|);
    assert [Subscribe, Read][1..] == [Read] && [Read][1..] == [];
    assert Run(subscribed, account, covered, [Read]) == Next(subscribed, account, covered, Read);
  }

  /** And it does happen: a listener that loses its connection makes a request wait out its time
      although an event for its account was committed. */
  lemma DisconnectDelaysAnswer(account: string)
    ensures var world := Run(Initial(), account, 0, [Connect, Subscribe, Read, Commit(account), Disconnect, Timeout]);
            world.phase == Answered(0) && world.commits == [account] && world.dropped == {0}
  {
    var w0 := Next(Initial(), account, 0, Connect);
    var w1 := Next(w0, account, 0, Subscribe);
    var w2 := Next(w1, account, 0, Read);
    var w3 := Next(w2, account, 0, Commit(account));
    var w4 := Next(w3, account, 0, Disconnect);
    var w5 := Next(w4, account, 0, Timeout);
    assert Run(w4, account, 0, [Timeout]) == w5;
    assert Run(w3, account, 0, [Disconnect, Timeout]) == w5;
    assert Run(w2, account, 0, [Commit(account), Disconnect, Timeout]) == w5;
    assert Run(w1, account, 0, [Read, Commit(account), Disconnect, Timeout]) == w5;
    assert Run(w0, account, 0, [Subscribe, Read, Commit(account), Disconnect, Timeout]) == w5;
  }
}
