/** The scan of one account's delivery stream (src/infrastructure/postgres/sync.rs). */
module SyncFeed {
  import opened Basics
  import opened Results

  datatype Kind = Message | MessageStatus | SystemEvent

  /** One row of the account's outbox. */
  datatype Delivery = Delivery(id: nat, kind: Kind, conversation: Option<nat>, message: Option<nat>)

  /** What a client is told: where to fetch the current state from. The message is given by its
      sequence number, which `MessageCodes` shows to be the same as giving its code. */
  datatype SyncEvent = SyncEvent(id: nat, sequence: int, kind: Kind, conversation: nat, message: nat)

  datatype AppError = Validation | ResetRequired | Internal

  /** One account's stream: the last sequence handed out, the floor sync starts above, the
      retained rows, and the conversations the account takes part in. */
  datatype Store = Store(head: int, floor: int, rows: map<int, Delivery>, conversations: set<nat>)

  datatype SyncScan = SyncScan(events: seq<SyncEvent>, position: int, hasMore: bool)

  predicate Authorized(store: Store, d: Delivery) {
    !d.kind.SystemEvent? && d.conversation.Some? && d.conversation.value in store.conversations
  }

  /** An authorized row whose message is gone. */
  predicate Lost(store: Store, d: Delivery) {
    Authorized(store, d) && (d.message.None? || d.message.value < 1)
  }

  function EventOf(sequence: int, d: Delivery): SyncEvent
    requires d.conversation.Some? && d.message.Some? && d.message.value >= 1
  {
    SyncEvent(d.id, sequence, d.kind, d.conversation.value, d.message.value)
  }

  /** Rows `after + 1` to `to` are all there, and every one that is shown can be shown. */
  predicate Complete(store: Store, after: int, to: int) {
    forall s :: after < s <= to ==> s in store.rows && !Lost(store, store.rows[s])
  }

  /** The last position an unbroken run of rows from `after` reaches, up to `end`. */
  function Progress(store: Store, after: int, end: int): (position: int)
    requires after <= end
    ensures after <= position <= end && Complete(store, after, position)
    ensures position < end ==> position + 1 !in store.rows || Lost(store, store.rows[position + 1])
    decreases end - after
  {
    if after < end && after + 1 in store.rows && !Lost(store, store.rows[after + 1])
    then Progress(store, after + 1, end) else after
  }

  /** The references of the `n` rows after `after` that the account may see now. */
  function Events(store: Store, after: int, n: nat): seq<SyncEvent>
    requires Complete(store, after, after + n)
  {
    if n == 0 then [] else Events(store, after, n - 1) + Shown(store, after + n)
  }

  function Shown(store: Store, s: int): seq<SyncEvent>
    requires s in store.rows && !Lost(store, store.rows[s])
  {
    if Authorized(store, store.rows[s]) then [EventOf(s, store.rows[s])] else []
  }

  lemma EventsNext(store: Store, after: int, n: nat, sequence: int, events: seq<SyncEvent>)
    requires Complete(store, after, after + n) && events == Events(store, after, n)
    requires sequence == after + n + 1 && sequence in store.rows && !Lost(store, store.rows[sequence])
    ensures Complete(store, after, after + (n + 1))
    ensures Events(store, after, n + 1) ==
            if Authorized(store, store.rows[sequence]) then events + [EventOf(sequence, store.rows[sequence])] else events
  {
    assert after + (n + 1) == sequence;
    assert Events(store, after, n + 1) == Events(store, after, n) + Shown(store, sequence);
  }

  predicate RowsLeft(rows: map<int, Delivery>, after: int, upper: int) {
    exists s :: after < s <= upper && s in rows
  }

  /** What one scan answers: `limit` rows, or all that are left, and a reset whenever a row in
      between has expired. */
  function Scan(store: Store, after: int, upper: int, limit: int): Result<SyncScan, AppError> {
    if after < 0 || upper < after || !(1 <= limit <= 100) then Failure(Validation)
    else
      var end := Min(after + limit, upper);
      var reached := Progress(store, after, end);
      if reached < end then Failure(if reached + 1 in store.rows then Internal else ResetRequired)
      else if end == upper then Success(SyncScan(Events(store, after, end - after), upper, false))
      else if RowsLeft(store.rows, end, upper)
      then Success(SyncScan(Events(store, after, end - after), end, true))
      else Failure(ResetRequired)
  }

  /** `WHERE sequence > after AND sequence <= upper ORDER BY sequence LIMIT n`. */
  function Select(rows: map<int, Delivery>, after: int, upper: int, n: nat): (selected: seq<int>)
    ensures |selected| <= n
    decreases upper - after
  {
    if n == 0 || upper <= after then []
    else if after + 1 in rows then [after + 1] + Select(rows, after + 1, upper, n - 1)
    else Select(rows, after + 1, upper, n)
  }

  /** Progress stops exactly where the run of complete rows does. */
  lemma {:induction false} ProgressStops(store: Store, after: int, position: int, end: int)
    requires after <= position <= end && Complete(store, after, position)
    requires position < end ==> position + 1 !in store.rows || Lost(store, store.rows[position + 1])
    ensures Progress(store, after, end) == position
    decreases if position > after then position - after else 0
  {
    if after < position {
      assert after + 1 in store.rows && !Lost(store, store.rows[after + 1]);
      ProgressStops(store, after + 1, position, end);
    }
  }

  predicate ValidBounds(after: int, upper: int, limit: int) {
    0 <= after <= upper && 1 <= limit <= 100
  }

  lemma ScanStopsAt(store: Store, after: int, upper: int, limit: int, position: int)
    requires ValidBounds(after, upper, limit) && after <= position < Min(after + limit, upper)
    requires Complete(store, after, position)
    requires position + 1 !in store.rows || Lost(store, store.rows[position + 1])
    ensures Scan(store, after, upper, limit) == Failure(if position + 1 in store.rows then Internal else ResetRequired)
  {
    ProgressStops(store, after, position, Min(after + limit, upper));
  }

  lemma ScanReaches(store: Store, after: int, upper: int, limit: int)
    requires ValidBounds(after, upper, limit)
    requires Complete(store, after, Min(after + limit, upper))
    ensures var end := Min(after + limit, upper);
            Scan(store, after, upper, limit) ==
            if end == upper then Success(SyncScan(Events(store, after, end - after), upper, false))
            else if RowsLeft(store.rows, end, upper)
            then Success(SyncScan(Events(store, after, end - after), end, true)) else Failure(ResetRequired)
  {
    var end := Min(after + limit, upper);
    ProgressStops(store, after, end, end);
  }

  /** The next selected row is the next row there is. */
  lemma {:induction false} SelectNext(rows: map<int, Delivery>, after: int, upper: int, n: nat, rest: seq<int>)
    requires n > 0 && rest == Select(rows, after, upper, n)
    ensures rest == [] <==> !RowsLeft(rows, after, upper)
    ensures rest != [] ==> after < rest[0] <= upper && rest[0] in rows && (rest[0] == after + 1 <==> after + 1 in rows)
    ensures rest != [] && rest[0] == after + 1 ==> rest[1..] == Select(rows, after + 1, upper, n - 1)
    decreases upper - after
  {
    if after < upper && after + 1 !in rows {
      SelectNext(rows, after + 1, upper, n, rest);
    }
  }

  /** Once every selected row up to the limit has been passed, what is still selected decides. */
  lemma ScanEnds(store: Store, after: int, upper: int, limit: int, position: int, rest: seq<int>)
    requires ValidBounds(after, upper, limit) && after <= position <= Min(after + limit, upper)
    requires Complete(store, after, position)
    requires rest == Select(store.rows, position, upper, after + limit + 1 - position)
    requires rest != [] ==> position == after + limit
    ensures Scan(store, after, upper, limit) ==
            if rest == [] && position != upper then Failure(ResetRequired)
            else Success(SyncScan(Events(store, after, position - after), position, rest != []))
  {
    SelectNext(store.rows, position, upper, after + limit + 1 - position, rest);
    if position < Min(after + limit, upper) {
      ScanStopsAt(store, after, upper, limit, position);
    } else {
      ScanReaches(store, after, upper, limit);
    }
  }

  /** The loop over the selected rows: their references, or the error `Scan` answers with. */
  method ReadRows(store: Store, after: int, upper: int, limit: int, rows: seq<int>, ghost selected: seq<int>)
    returns (read: Result<seq<SyncEvent>, AppError>)
    requires ValidBounds(after, upper, limit) && |rows| <= limit && rows <= selected
    requires selected == Select(store.rows, after, upper, limit + 1)
    ensures read.Failure? ==> Scan(store, after, upper, limit) == Failure(read.error)
    ensures read.Success? ==>
              && after + |rows| <= upper && Complete(store, after, after + |rows|)
              && read.value == Events(store, after, |rows|)
              && selected[|rows|..] == Select(store.rows, after + |rows|, upper, limit + 1 - |rows|)
  {
    var position, events := after, [];
    ghost var rest := selected;
    for i := 0 to |rows|
      invariant position == after + i <= upper && Complete(store, after, after + i)
      invariant events == Events(store, after, i)
      invariant rest == selected[i..] == Select(store.rows, position, upper, limit + 1 - i)
    {
      var sequence := rows[i];
      SelectNext(store.rows, position, upper, limit + 1 - i, rest);
      if position + 1 != sequence {
        ScanStopsAt(store, after, upper, limit, position);
        return Failure(ResetRequired);
      }
      var row := store.rows[sequence];
      if Lost(store, row) {
        ScanStopsAt(store, after, upper, limit, position);
        return Failure(Internal);
      }
      EventsNext(store, after, i, sequence, events);
      if Authorized(store, row) {
        events := events + [EventOf(sequence, row)];
      }
      position, rest := sequence, rest[1..];
    }
    return Success(events);
  }

  /** `sync_events`: reading the selected rows answers what `Scan` says. */
  method SyncEvents(store: Store, after: int, upper: int, limit: int) returns (result: Result<SyncScan, AppError>)
    ensures result == Scan(store, after, upper, limit)
  {
    if !ValidBounds(after, upper, limit) {
      return Failure(Validation);
    }
    var selected := Select(store.rows, after, upper, limit + 1);
    var hasMore := |selected| > limit;
    var rows := if hasMore then selected[..limit] else selected;
    var read := ReadRows(store, after, upper, limit, rows, selected);
    if read.Failure? {
      return Failure(read.error);
    }
    var position := after + |rows|;
    ScanEnds(store, after, upper, limit, position, selected[|rows|..]);
    if !hasMore && position != upper {
      return Failure(ResetRequired);
    }
    return Success(SyncScan(read.value, position, hasMore));
  }

  // ---------------------------------------------------------------- two rows on one sequence

  /** The sequences of the rows a scan has before it, in the order of the query. A stream's own
      sequences are unique, but re-linking an identity can bring rows of an older stream under
      sequences already taken. */
  predicate Listed(rows: seq<int>, after: int, upper: int) {
    && (forall i :: 0 <= i < |rows| ==> after < rows[i] <= upper)
    && (forall i, j :: 0 <= i < j < |rows| ==> rows[i] <= rows[j])
  }

  /** The first `n` rows follow one another without a gap or a repeat. */
  predicate Consecutive(rows: seq<int>, after: int, n: int) {
    forall i :: 0 <= i < n && i < |rows| ==> rows[i] == after + 1 + i
  }

  /** The loop over rows that may share a sequence: where it ends, and whether there is more. */
  method ScanSequences(rows: seq<int>, after: int, upper: int, limit: int) returns (result: Result<(int, bool), AppError>)
    requires Listed(rows, after, upper) && ValidBounds(after, upper, limit)
    ensures result.Success? <==> Consecutive(rows, after, limit) && (|rows| > limit || after + |rows| == upper)
    ensures result.Success? ==> result.value == (after + Min(|rows|, limit), |rows| > limit)
    ensures result.Failure? ==> result.error == ResetRequired
  {
    var hasMore := |rows| > limit;
    var position := after;
    for i := 0 to Min(|rows|, limit)
      invariant position == after + i && Consecutive(rows, after, i)
    {
      if position + 1 != rows[i] {
        return Failure(ResetRequired);
      }
      position := rows[i];
    }
    if !hasMore && position != upper {
      return Failure(ResetRequired);
    }
    return Success((position, hasMore));
  }

  /** A row the page did not read lies at or below where it says it ended: the next page, which
      starts above that, will never read it. */
  predicate Skips(rows: seq<int>, after: int, limit: int) {
    exists i :: 0 <= i < |rows| && limit <= i && rows[i] <= after + limit
  }

  /** A page that succeeds skips a row if and only if its limit falls between two rows of one
      sequence. Anywhere else, two such rows make it ask for a reset. */
  lemma SkipsExactlyAtItsLimit(rows: seq<int>, after: int, upper: int, limit: int)
    requires Listed(rows, after, upper) && ValidBounds(after, upper, limit) && Consecutive(rows, after, limit)
    ensures Skips(rows, after, limit) <==> |rows| > limit && rows[limit] == rows[limit - 1]
  {
    if |rows| > limit {
      assert rows[limit - 1] == after + limit && rows[limit - 1] <= rows[limit];
    }
  }

  /** Some page size skips a row if and only if the first repeat is among the first 101 rows. */
  lemma SomePageSkips(rows: seq<int>, after: int, upper: int)
    requires 0 <= after <= upper && Listed(rows, after, upper)
    ensures (exists limit :: 1 <= limit <= 100 && Consecutive(rows, after, limit) && Skips(rows, after, limit)) <==>
            (exists n :: 1 <= n <= 100 && n < |rows| && Consecutive(rows, after, n) && rows[n] == rows[n - 1])
  {
    if limit :| 1 <= limit <= 100 && Consecutive(rows, after, limit) && Skips(rows, after, limit) {
      SkipsExactlyAtItsLimit(rows, after, upper, limit);
    }
    if n :| 1 <= n <= 100 && n < |rows| && Consecutive(rows, after, n) && rows[n] == rows[n - 1] {
      SkipsExactlyAtItsLimit(rows, after, upper, n);
    }
  }

  /** It does happen: with two rows on sequence 1, a page of one row ends at 1 and the second row
      is never read. */
  lemma RepeatIsSkipped()
    ensures Listed([1, 1], 0, 1) && Consecutive([1, 1], 0, 1) && Skips([1, 1], 0, 1)
  {
    assert [1, 1][1] <= 0 + 1;
  }
}
