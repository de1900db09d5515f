/** Paging through the account feed (`page` in src/api/sync.rs): one request reads the head and
    the floor of the stream, then scans it, while the stream moves on in between. */
module SyncPages {
  import opened Basics
  import opened Results
  import opened SyncCursors
  import opened SyncFeed

  const DEFAULT_LIMIT := 50
  const MAX_LIMIT := 100

  /** A request between its two reads: the cursor it carried, what it decided to scan, and the
      clock it will date its cursor from. */
  datatype Request = Request(cursor: Option<SyncCursor>, after: int, upper: int, limit: int, now: int)

  datatype Page = Page(events: seq<SyncEvent>, cursor: SyncCursor, hasMore: bool, upper: int)

  function ValidatedLimit(limit: Option<int>): Result<int, AppError> {
    var n := if limit.Some? then limit.value else DEFAULT_LIMIT;
    if 1 <= n <= MAX_LIMIT then Success(n) else Failure(Validation)
  }

  /** The first half of a request: check the cursor, read head and floor. */
  function OpenPage(store: Store, cursor: Option<SyncCursor>, scope: string, now: int, limit: Option<int>)
    : Result<Request, AppError>
  {
    var n := ValidatedLimit(limit);
    if n.Failure? then Failure(n.error)
    else if cursor.Some? && CheckCursor(cursor.value, scope, now).Failure?
    then Failure(CheckCursor(cursor.value, scope, now).error)
    else
      var after := if cursor.Some? then cursor.value.position else store.floor;
      var upper := if cursor.Some? && cursor.value.upper.Some? then cursor.value.upper.value else store.head;
      if after > store.head || upper > store.head || after < store.floor then Failure(ResetRequired)
      else Success(Request(cursor, after, upper, n.value, now))
  }

  /** The cursor a page ends with. An open snapshot keeps its bound and its deadline. */
  function NextCursor(request: Request, scope: string, position: int, hasMore: bool): SyncCursor {
    SyncCursor(CURSOR_VERSION, scope, position, if hasMore then Some(request.upper) else None,
               if request.cursor.Some? && request.cursor.value.upper.Some? then request.cursor.value.expiresAt
               else request.now + CURSOR_SECONDS)
  }

  /** The second half: scan, and answer. */
  function ClosePage(store: Store, request: Request, scope: string): Result<Page, AppError> {
    match Scan(store, request.after, request.upper, request.limit)
    case Failure(error) => Failure(error)
    case Success(scan) =>
      Success(Page(scan.events, NextCursor(request, scope, scan.position, scan.hasMore), scan.hasMore, request.upper))
  }

  /** The page of a reset: no events, and a cursor at the head. */
  function ResetPage(store: Store, scope: string, now: int): Page {
    Page([], SyncCursor(CURSOR_VERSION, scope, store.head, None, now + CURSOR_SECONDS), false, store.head)
  }

  // ---------------------------------------------------------------- runs

  /** That row `sequence` was scanned while the account took part in `conversations`. */
  datatype Sighting = Sighting(sequence: int, conversations: set<nat>)

  /** One account's stream and one client reading it. `history` is every row ever appended and
      `base` the last point the stream was restarted at; `seen` and `delivered` are what the
      client's pages have scanned and shown since `start`, where it last began. */
  datatype Feed = Feed(
    store: Store, now: int, history: map<int, Delivery>, base: int,
    held: Option<SyncCursor>, open: Option<Request>,
    start: int, seen: seq<Sighting>, delivered: seq<SyncEvent>)

  datatype Step =
    | Append(row: Delivery)
    | Expire(sequence: int)
    | LoseMessage(sequence: int)
    | Join(conversations: set<nat>)
    | RaiseFloor(floor: int)
    | Restart(head: int, rows: map<int, Delivery>)
    | Tick(now: int)
    | Begin(limit: Option<int>)
    | End
    | Reset

  function Appended(feed: Feed, row: Delivery): Feed {
    var next := feed.store.head + 1;
    feed.(store := feed.store.(head := next, rows := feed.store.rows[next := row]), history := feed.history[next := row])
  }

  /** Re-keying an account puts its head and floor above every sequence it inherits. It runs with
      the service stopped; only a stream's creation meets requests, and those see an empty one. */
  predicate CanRestart(feed: Feed, head: int) {
    feed.store.head <= head && (feed.open.None? || feed.store.head == 0)
  }

  function Restarted(feed: Feed, head: int, rows: map<int, Delivery>): Feed {
    feed.(store := feed.store.(head := head, floor := head, rows := rows), base := head)
  }

  function Begun(feed: Feed, scope: string, limit: Option<int>): Feed {
    match OpenPage(feed.store, feed.held, scope, feed.now, limit)
    case Failure(_) => feed
    case Success(request) => feed.(open := Some(request))
  }

  function Sightings(after: int, n: nat, conversations: set<nat>): seq<Sighting> {
    if n == 0 then [] else Sightings(after, n - 1, conversations) + [Sighting(after + n, conversations)]
  }

  function Ended(feed: Feed, scope: string): Feed
    requires feed.open.Some?
  {
    match ClosePage(feed.store, feed.open.value, scope)
    case Failure(_) => feed.(open := None)
    case Success(page) =>
      if feed.held.None? then Advanced(feed, page, feed.open.value.after, feed.open.value.after, [], [])
      else Advanced(feed, page, feed.open.value.after, feed.start, feed.seen, feed.delivered)
  }

  /** The client takes in a page scanned from `after`. */
  function Advanced(
    feed: Feed, page: Page, after: int, start: int, seen: seq<Sighting>, delivered: seq<SyncEvent>): Feed
  {
    var n := if page.cursor.position < after then 0 else page.cursor.position - after;
    feed.(held := Some(page.cursor), open := None, start := start,
          seen := seen + Sightings(after, n, feed.store.conversations), delivered := delivered + page.events)
  }

  /** A reset page carries no events: the client refetches its state and goes on from the head. */
  function ResetFeed(feed: Feed, scope: string): Feed {
    var page := ResetPage(feed.store, scope, feed.now);
    feed.(held := Some(page.cursor), start := page.cursor.position, seen := [], delivered := page.events)
  }

  /** One step; a step that cannot be taken changes nothing. */
  function Next(feed: Feed, scope: string, step: Step): Feed {
    match step
    case Append(row) => Appended(feed, row)
    case Expire(s) => feed.(store := feed.store.(rows := feed.store.rows - {s}))
    case LoseMessage(s) =>
      if s !in feed.store.rows then feed
      else feed.(store := feed.store.(rows := feed.store.rows[s := feed.store.rows[s].(message := None)]))
    case Join(conversations) => feed.(store := feed.store.(conversations := conversations))
    case RaiseFloor(floor) =>
      if feed.store.floor <= floor <= feed.store.head then feed.(store := feed.store.(floor := floor)) else feed
    case Restart(head, rows) => if CanRestart(feed, head) then Restarted(feed, head, rows) else feed
    case Tick(now) => if feed.now <= now then feed.(now := now) else feed
    case Begin(limit) => if feed.open.None? then Begun(feed, scope, limit) else feed
    case End => if feed.open.Some? then Ended(feed, scope) else feed
    case Reset => if feed.open.None? then ResetFeed(feed, scope) else feed
  }

  function Run(feed: Feed, scope: string, steps: seq<Step>): Feed
    decreases |steps|
  {
    if steps == [] then feed else Run(Next(feed, scope, steps[0]), scope, steps[1..])
  }

  function Initial(conversations: set<nat>, now: int): Feed {
    Feed(Store(0, 0, map[], conversations), now, map[], 0, None, None, 0, [], [])
  }

  // ---------------------------------------------------------------- what holds in every run

  /** The events a client ought to have been shown for what it has scanned. */
  function Due(history: map<int, Delivery>, seen: seq<Sighting>): seq<SyncEvent> {
    if seen == [] then []
    else Due(history, seen[..|seen| - 1]) + DueFor(history, seen[|seen| - 1])
  }

  function DueFor(history: map<int, Delivery>, sighting: Sighting): seq<SyncEvent> {
    if sighting.sequence !in history then []
    else
      var row := history[sighting.sequence];
      if row.kind.SystemEvent? || row.conversation.None? || row.conversation.value !in sighting.conversations
         || row.message.None?
      then [] else [SyncEvent(row.id, sighting.sequence, row.kind, row.conversation.value, row.message.value)]
  }

  /** The client has scanned `start + 1`, `start + 2`, ... up to its position, once each, and has
      been shown exactly what those rows were appended with. */
  predicate ExactlyOnce(feed: Feed) {
    feed.held.Some? ==> Caught(feed.history, feed.start, feed.held.value.position, feed.seen, feed.delivered)
  }

  predicate Caught(history: map<int, Delivery>, start: int, position: int, seen: seq<Sighting>, shown: seq<SyncEvent>) {
    && position == start + |seen|
    && (forall i :: 0 <= i < |seen| ==> seen[i].sequence == start + 1 + i && seen[i].sequence in history)
    && shown == Due(history, seen)
  }

  predicate StreamInv(feed: Feed) {
    && 0 <= feed.base <= feed.store.floor <= feed.store.head
    && (forall s :: s in feed.history ==> s <= feed.store.head)
    && (forall s :: s in feed.store.rows && feed.base < s <= feed.store.head ==> Kept(feed, s))
  }

  /** Row `s` is the row appended as `s`, up to the loss of its message. */
  predicate Kept(feed: Feed, s: int)
    requires s in feed.store.rows
  {
    s in feed.history &&
    (feed.store.rows[s] == feed.history[s] || feed.store.rows[s] == feed.history[s].(message := None))
  }

  predicate GoodCursor(cursor: SyncCursor, scope: string, head: int) {
    && cursor.version == CURSOR_VERSION && cursor.scope == scope
    && 0 <= cursor.position <= head
    && (cursor.upper.Some? ==> cursor.position < cursor.upper.value <= head)
  }

  predicate GoodRequest(feed: Feed, request: Request) {
    && request.cursor == feed.held
    && 0 <= request.after <= request.upper <= feed.store.head
    && 1 <= request.limit <= 100
    && (feed.base <= request.after || request.upper == 0)
    && (feed.held.Some? ==> request.after == feed.held.value.position)
    && (feed.held.Some? && feed.held.value.upper.Some? ==> request.upper == feed.held.value.upper.value)
  }

  predicate Inv(feed: Feed, scope: string) {
    && StreamInv(feed)
    && (feed.held.Some? ==> GoodCursor(feed.held.value, scope, feed.store.head))
    && (feed.open.Some? ==> GoodRequest(feed, feed.open.value))
    && ExactlyOnce(feed)
  }

  /** Rows appended later do not change what earlier ones were due. */
  lemma {:induction false} DueIsSettled(history: map<int, Delivery>, seen: seq<Sighting>, s: int, row: Delivery)
    requires s !in history && forall i :: 0 <= i < |seen| ==> seen[i].sequence in history
    ensures Due(history[s := row], seen) == Due(history, seen)
  {
    if seen != [] {
      DueIsSettled(history, seen[..|seen| - 1], s, row);
      assert seen[|seen| - 1].sequence in history;
    }
  }

  lemma ShownIsDue(feed: Feed, s: int)
    requires StreamInv(feed) && feed.base < s <= feed.store.head
    requires s in feed.store.rows && !Lost(feed.store, feed.store.rows[s])
    ensures s in feed.history
    ensures Shown(feed.store, s) == DueFor(feed.history, Sighting(s, feed.store.conversations))
  {
    assert Kept(feed, s);
  }

  lemma DueExtends(history: map<int, Delivery>, seen: seq<Sighting>, next: Sighting)
    ensures Due(history, seen + [next]) == Due(history, seen) + DueFor(history, next)
  {
    assert (seen + [next])[..|seen|] == seen;
  }

  /** A complete run of rows shows exactly what the rows were appended with. */
  lemma {:induction false} PageExtends(
    feed: Feed, start: int, after: int, seen: seq<Sighting>, shown: seq<SyncEvent>, n: nat)
    requires StreamInv(feed) && Complete(feed.store, after, after + n)
    requires after + n <= feed.store.head && (feed.base <= after || n == 0)
    requires Caught(feed.history, start, after, seen, shown)
    ensures Caught(feed.history, start, after + n, seen + Sightings(after, n, feed.store.conversations),
                   shown + Events(feed.store, after, n))
  {
    var members := feed.store.conversations;
    if n == 0 {
      assert seen + Sightings(after, n, members) == seen;
    } else {
      PageExtends(feed, start, after, seen, shown, n - 1);
      ShownIsDue(feed, after + n);
      var some, events := Sightings(after, n - 1, members), Events(feed.store, after, n - 1);
      CatchUp(feed.history, start, after + n - 1, seen + some, shown + events, Sighting(after + n, members));
      Regroup(seen, some, [Sighting(after + n, members)]);
      Regroup(shown, events, Shown(feed.store, after + n));
    }
  }

  lemma CatchUp(
    history: map<int, Delivery>, start: int, position: int, seen: seq<Sighting>, shown: seq<SyncEvent>, next: Sighting)
    requires Caught(history, start, position, seen, shown)
    requires next.sequence == position + 1 && next.sequence in history
    ensures Caught(history, start, position + 1, seen + [next], shown + DueFor(history, next))
  {
    DueExtends(history, seen, next);
  }

  lemma AppendKeeps(feed: Feed, scope: string, row: Delivery)
    requires Inv(feed, scope)
    ensures Inv(Appended(feed, row), scope)
  {
    var next := Appended(feed, row);
    if feed.held.Some? {
      DueIsSettled(feed.history, feed.seen, feed.store.head + 1, row);
    }
    forall s | s in next.store.rows && next.base < s <= next.store.head ensures Kept(next, s) {
      assert s <= feed.store.head ==> Kept(feed, s);
    }
  }

  lemma StoreStepKeeps(feed: Feed, scope: string, step: Step)
    requires Inv(feed, scope)
    requires step.Expire? || step.LoseMessage? || step.Join? || step.RaiseFloor? || step.Restart? || step.Tick?
    ensures Inv(Next(feed, scope, step), scope)
  {
    var next := Next(feed, scope, step);
    forall s | s in next.store.rows && next.base < s <= next.store.head ensures Kept(next, s) {
      assert s in feed.store.rows && Kept(feed, s);
    }
  }

  /** What a successful request is about to read. */
  lemma OpenPageIsGood(feed: Feed, scope: string, limit: Option<int>)
    requires Inv(feed, scope) && OpenPage(feed.store, feed.held, scope, feed.now, limit).Success?
    ensures GoodRequest(feed, OpenPage(feed.store, feed.held, scope, feed.now, limit).value)
  {
  }

  /** A page that succeeds ends where its scan did, with a cursor of its own snapshot. */
  lemma PageReads(store: Store, request: Request, scope: string)
    requires 0 <= request.after <= request.upper && 1 <= request.limit <= 100
    requires ClosePage(store, request, scope).Success?
    ensures var page := ClosePage(store, request, scope).value;
            var position := page.cursor.position;
            && request.after <= position <= request.upper
            && Complete(store, request.after, position)
            && page.events == Events(store, request.after, position - request.after)
            && page.cursor == NextCursor(request, scope, position, page.hasMore)
            && (page.hasMore ==> position == request.after + request.limit < request.upper)
            && (!page.hasMore ==> position == request.upper)
  {
  }

  /** A page that goes on from where the client was keeps it caught up. */
  lemma AdvanceKeeps(feed: Feed, scope: string, start: int, seen: seq<Sighting>, delivered: seq<SyncEvent>)
    requires StreamInv(feed) && feed.open.Some? && GoodRequest(feed, feed.open.value)
    requires ClosePage(feed.store, feed.open.value, scope).Success?
    requires Caught(feed.history, start, feed.open.value.after, seen, delivered)
    ensures var page := ClosePage(feed.store, feed.open.value, scope).value;
            Inv(Advanced(feed, page, feed.open.value.after, start, seen, delivered), scope)
  {
    var request := feed.open.value;
    PageReads(feed.store, request, scope);
    var page := ClosePage(feed.store, request, scope).value;
    PageExtends(feed, start, request.after, seen, delivered, page.cursor.position - request.after);
  }

  lemma EndKeeps(feed: Feed, scope: string)
    requires Inv(feed, scope) && feed.open.Some?
    ensures Inv(Ended(feed, scope), scope)
  {
    if ClosePage(feed.store, feed.open.value, scope).Success? {
      if feed.held.None? {
        AdvanceKeeps(feed, scope, feed.open.value.after, [], []);
      } else {
        AdvanceKeeps(feed, scope, feed.start, feed.seen, feed.delivered);
      }
    }
  }

  lemma NextKeeps(feed: Feed, scope: string, step: Step)
    requires Inv(feed, scope)
    ensures Inv(Next(feed, scope, step), scope)
  {
    match step
    case Append(row) => AppendKeeps(feed, scope, row);
    case Begin(limit) =>
      if feed.open.None? && OpenPage(feed.store, feed.held, scope, feed.now, limit).Success? {
        OpenPageIsGood(feed, scope, limit);
      }
    case End =>
      if feed.open.Some? {
        EndKeeps(feed, scope);
      }
    case Reset =>
    case _ => StoreStepKeeps(feed, scope, step);
  }

  lemma {:induction false} RunKeeps(feed: Feed, scope: string, steps: seq<Step>)
    requires Inv(feed, scope)
    ensures Inv(Run(feed, scope, steps), scope)
    decreases |steps|
  {
    if steps != [] {
      NextKeeps(feed, scope, steps[0]);
      RunKeeps(Next(feed, scope, steps[0]), scope, steps[1..]);
    }
  }

  // ---------------------------------------------------------------- main results

  /** What a caught-up client was shown is in stream order without repeats, and it is exactly the
      rows after `start` it could see when each was scanned. */
  lemma {:induction false} ShownInOrder(
    history: map<int, Delivery>, start: int, position: int, seen: seq<Sighting>, shown: seq<SyncEvent>)
    requires Caught(history, start, position, seen, shown)
    ensures forall i :: 0 <= i < |shown| ==> start < shown[i].sequence <= position
    ensures forall i, j :: 0 <= i < j < |shown| ==> shown[i].sequence < shown[j].sequence
    ensures forall i :: 0 <= i < |seen| ==> forall e :: e in DueFor(history, seen[i]) ==> e in shown
    ensures forall e :: e in shown ==> exists i :: 0 <= i < |seen| && e in DueFor(history, seen[i])
    decreases |seen|
  {
    if seen != [] {
      var n := |seen| - 1;
      var earlier := Due(history, seen[..n]);
      ShownInOrder(history, start, position - 1, seen[..n], earlier);
      assert forall i :: 0 <= i < n ==> seen[..n][i] == seen[i];
      assert shown == earlier + DueFor(history, seen[n]);
    }
  }

  /** Over every interleaving of appends, expiry, membership changes, floor rises and requests,
      the pages since the client began show its events once each, in order, without a gap. */
  lemma EveryRunIsExactlyOnce(conversations: set<nat>, now: int, scope: string, steps: seq<Step>)
    ensures var feed := Run(Initial(conversations, now), scope, steps);
            && ExactlyOnce(feed)
            && (feed.held.Some? ==>
                  && GoodCursor(feed.held.value, scope, feed.store.head)
                  && forall i, j :: 0 <= i < j < |feed.delivered| ==>
                       feed.start < feed.delivered[i].sequence < feed.delivered[j].sequence <= feed.held.value.position)
  {
    RunKeeps(Initial(conversations, now), scope, steps);
    var feed := Run(Initial(conversations, now), scope, steps);
    if feed.held.Some? {
      ShownInOrder(feed.history, feed.start, feed.held.value.position, feed.seen, feed.delivered);
    }
  }

  /** A client whose position the floor has passed is told to reset, and so is one whose cursor
      expired; nobody else is, and a request that opens reads on from its own position. */
  lemma ResetsInsteadOfSkipping(feed: Feed, scope: string, limit: Option<int>)
    requires Inv(feed, scope) && feed.held.Some? && ValidatedLimit(limit).Success?
    ensures var answer := OpenPage(feed.store, feed.held, scope, feed.now, limit);
            var cursor := feed.held.value;
            && (answer.Success? <==> feed.now < cursor.expiresAt && feed.store.floor <= cursor.position)
            && (answer.Failure? ==> answer.error == ResetRequired)
            && (answer.Success? ==> answer.value.after == cursor.position)
  {
  }

  /** A page fails exactly when a row it needs is missing or has lost its message. */
  lemma PageSucceedsExactly(store: Store, request: Request, scope: string)
    requires 0 <= request.after <= request.upper && 1 <= request.limit <= 100
    ensures var end := Min(request.after + request.limit, request.upper);
            ClosePage(store, request, scope).Success? <==>
              Complete(store, request.after, end) && (end == request.upper || RowsLeft(store.rows, end, request.upper))
  {
    var end := Min(request.after + request.limit, request.upper);
    if Complete(store, request.after, end) {
      ProgressStops(store, request.after, end, end);
    }
  }

  /** No cursor of a run is ever called invalid on its way back. */
  lemma RunCursorsAreNeverInvalid(codec: Codec, conversations: set<nat>, now: int, scope: string, steps: seq<Step>)
    requires Lawful(codec)
    ensures var feed := Run(Initial(conversations, now), scope, steps);
            feed.held.Some? && Representable(feed.held.value) ==>
              DecodeCursor(codec, EncodeCursor(codec, feed.held.value), scope, feed.now) ==
              if feed.now < feed.held.value.expiresAt then Success(feed.held.value) else Failure(ResetRequired)
  {
    var feed := Run(Initial(conversations, now), scope, steps);
    RunKeeps(Initial(conversations, now), scope, steps);
    if feed.held.Some? && Representable(feed.held.value) {
      IssuedCursorsAreNeverInvalid(codec, feed.held.value, scope, feed.now);
    }
  }

  /** The pages a run completes. */
  function Pages(feed: Feed, scope: string, steps: seq<Step>): nat
    decreases |steps|
  {
    if steps == [] then 0
    else (if steps[0].End? && feed.open.Some? && ClosePage(feed.store, feed.open.value, scope).Success? then 1 else 0)
         + Pages(Next(feed, scope, steps[0]), scope, steps[1..])
  }

  /** A snapshot stays open throughout the run. */
  predicate Paging(feed: Feed, scope: string, steps: seq<Step>)
    decreases |steps|
  {
    && feed.held.Some? && feed.held.value.upper.Some?
    && (steps == [] || (!steps[0].Reset? && Paging(Next(feed, scope, steps[0]), scope, steps[1..])))
  }

  /** What one step does to an open snapshot: nothing, or a page further under the same bound and
      the same deadline. */
  lemma SnapshotStep(feed: Feed, scope: string, step: Step)
    requires Inv(feed, scope) && feed.held.Some? && feed.held.value.upper.Some? && !step.Reset?
    requires var next := Next(feed, scope, step); next.held.Some? && next.held.value.upper.Some?
    ensures var next := Next(feed, scope, step).held.value;
            && next.upper == feed.held.value.upper && next.expiresAt == feed.held.value.expiresAt
            && next.position >= feed.held.value.position + Pages(feed, scope, [step])
  {
    assert [step][1..] == [];
    if step.End? && feed.open.Some? && ClosePage(feed.store, feed.open.value, scope).Success? {
      PageReads(feed.store, feed.open.value, scope);
    }
  }

  /** However much is appended meanwhile, a snapshot keeps its bound and deadline and closes
      within `upper - position` pages. */
  lemma {:induction false} SnapshotDrains(feed: Feed, scope: string, steps: seq<Step>)
    requires Inv(feed, scope) && Paging(feed, scope, steps)
    ensures var last := Run(feed, scope, steps).held;
            && last.Some? && last.value.upper == feed.held.value.upper
            && last.value.expiresAt == feed.held.value.expiresAt
            && feed.held.value.position + Pages(feed, scope, steps) <= last.value.position < feed.held.value.upper.value
    decreases |steps|
  {
    if steps != [] {
      var next := Next(feed, scope, steps[0]);
      NextKeeps(feed, scope, steps[0]);
      SnapshotStep(feed, scope, steps[0]);
      SnapshotDrains(next, scope, steps[1..]);
      assert Pages(feed, scope, [steps[0]]) + Pages(next, scope, steps[1..]) == Pages(feed, scope, steps);
    }
  }
}
