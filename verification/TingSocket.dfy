/** The driver of the one publisher socket to Ting (src/infrastructure/ting.rs): requests go out
    one at a time, and a connection on which one went unanswered is never used again. */
module TingSocket {
  import opened Basics
  import opened Results

  const MAX_FRAME_BYTES := 1024 * 1024

  datatype Op = ReadyOp | AcceptedOp | ErrorOp | OtherOp

  /** The fields of an application frame the driver looks at. `greets` says that it names protocol
      v1 and a receiver; `createdAt` is absent unless it is a UTC timestamp. */
  datatype Response = Response(
    op: Op, greets: bool, requestId: Option<nat>, accepted: bool, key: Option<string>,
    id: Option<string>, createdAt: Option<int>, silent: Option<bool>, code: Option<string>)

  /** A text frame, unparsable when it has no response; anything but text, ping and pong, the end
      of the stream included, is `Bad`. */
  datatype Incoming = Text(response: Option<Response>) | Ping(payload: nat) | Pong | Bad

  datatype TingAcceptance = TingAcceptance(id: string, createdAt: int, silent: bool)

  datatype TingFailure = InvalidRequest | Transport | Protocol | Timeout | Rejected(code: string)

  datatype SendRequest = SendRequest(body: string, key: string, frameLength: nat)

  /** What happened on a connection, in order. A write counts even if it failed half-way. */
  datatype Entry = Wrote(requestId: nat, body: string) | Ponged(payload: nat) | Read(response: Response)

  predicate PlainText(s: string, max: nat) {
    s != "" && |s| <= max && forall i :: 0 <= i < |s| ==> !Control(s[i])
  }

  predicate Control(c: char) {
    c < ' ' || '\U{007F}' <= c <= '\U{009F}'
  }

  function Acceptance(response: Response, key: string): Result<TingAcceptance, TingFailure> {
    if !response.op.AcceptedOp? || !response.accepted || response.key != Some(key) then Failure(Protocol)
    else if response.id.None? || !PlainText(response.id.value, 255) then Failure(Protocol)
    else if response.createdAt.None? || response.silent.None? then Failure(Protocol)
    else Success(TingAcceptance(response.id.value, response.createdAt.value, response.silent.value))
  }

  function RejectionCode(response: Response): string {
    if response.code.Some? && response.code.value != "" && |response.code.value| <= 100 && Slug(response.code.value)
    then response.code.value else "ting_rejected"
  }

  predicate Slug(s: string) {
    forall i :: 0 <= i < |s| ==> 'a' <= s[i] <= 'z' || '0' <= s[i] <= '9' || s[i] == '_'
  }

  /** Every request written has been answered by a frame with its id. */
  predicate Answered(log: seq<Entry>) {
    forall i :: 0 <= i < |log| && log[i].Wrote? ==> AnsweredAfter(log, i)
  }

  predicate AnsweredAfter(log: seq<Entry>, i: nat)
    requires i < |log| && log[i].Wrote?
  {
    exists j :: i < j < |log| && log[j].Read? && log[j].response.requestId == Some(log[i].requestId)
  }

  /** The driver's promise: whenever a request was written, all earlier ones had been answered. */
  predicate Orderly(log: seq<Entry>) {
    forall i :: 0 <= i < |log| && log[i].Wrote? ==> Answered(log[..i])
  }

  predicate NoRequest(log: seq<Entry>, from: nat, to: int)
    requires to <= |log|
  {
    forall i :: from <= i < to ==> !log[i].Wrote?
  }

  /** A request may be written to a connection with nothing outstanding. */
  lemma OrderlyExtends(log: seq<Entry>, later: seq<Entry>)
    requires Orderly(log) && Answered(log) && log < later && NoRequest(later, |log| + 1, |later|)
    ensures Orderly(later)
  {
    forall i | 0 <= i < |later| && later[i].Wrote? ensures Answered(later[..i]) {
      if i < |log| {
        assert later[..i] == log[..i];
      } else {
        assert later[..|log|] == log;
      }
    }
  }

  /** ... and its answer leaves nothing outstanding. */
  lemma AnswerSettles(log: seq<Entry>, later: seq<Entry>)
    requires Answered(log) && log < later && NoRequest(later, |log| + 1, |later|)
    requires later[|log|].Wrote? && |log| + 1 < |later| && later[|later| - 1].Read?
    requires later[|later| - 1].response.requestId == Some(later[|log|].requestId)
    ensures Answered(later)
  {
    forall i | 0 <= i < |later| && later[i].Wrote? ensures AnsweredAfter(later, i) {
      if i < |log| {
        assert AnsweredAfter(log, i);
        var j :| i < j < |log| && log[j].Read? && log[j].response.requestId == Some(log[i].requestId);
        assert later[j] == log[j];
      }
    }
  }

  /** What reading a frame puts on the log: an application frame itself, a pong for a ping. */
  function Reaction(frame: Incoming): seq<Entry> {
    match frame
    case Text(Some(response)) => [Read(response)]
    case Ping(payload) => [Ponged(payload)]
    case _ => []
  }

  function Reactions(frames: seq<Incoming>): seq<Entry> {
    if frames == [] then [] else Reactions(frames[..|frames| - 1]) + Reaction(frames[|frames| - 1])
  }

  lemma ReactionsGrow(frames: seq<Incoming>, frame: Incoming)
    ensures Reactions(frames + [frame]) == Reactions(frames) + Reaction(frame)
  {
    assert (frames + [frame])[..|frames|] == frames;
  }

  /** The pings among frames, each of which takes a write to answer. */
  function Pings(frames: seq<Incoming>): nat {
    if frames == [] then 0 else Pings(frames[..|frames| - 1]) + if frames[|frames| - 1].Ping? then 1 else 0
  }

  lemma PingsGrow(frames: seq<Incoming>, frame: Incoming)
    ensures Pings(frames + [frame]) == Pings(frames) + if frame.Ping? then 1 else 0
  {
    assert (frames + [frame])[..|frames|] == frames;
  }

  lemma {:induction false} FewerPings(frames: seq<Incoming>, n: nat)
    requires n <= |frames|
    ensures Pings(frames[..n]) <= Pings(frames)
  {
    if n < |frames| {
      FewerPings(frames[..|frames| - 1], n);
      assert frames[..|frames| - 1][..n] == frames[..n];
    } else {
      assert frames[..n] == frames;
    }
  }

  /** Nothing but pings and pongs. */
  predicate Keepalive(frames: seq<Incoming>) {
    forall i :: 0 <= i < |frames| ==> frames[i].Ping? || frames[i].Pong?
  }

  /** No application frame among them. */
  predicate Quiet(frames: seq<Incoming>) {
    forall i :: 0 <= i < |frames| ==> !frames[i].Text? || frames[i].response.None?
  }

  function Last(frames: seq<Incoming>): Incoming {
    if frames == [] then Bad else frames[|frames| - 1]
  }

  /** What waiting for an application frame came to, with `writable` writes to answer pings. */
  predicate Heard(result: Option<Result<Response, TingFailure>>, taken: seq<Incoming>, rest: seq<Incoming>, writable: nat) {
    match result
    case None => Keepalive(taken)
    case Some(Success(response)) =>
      taken != [] && Keepalive(taken[..|taken| - 1]) && Last(taken) == Text(Some(response)) && Pings(taken) <= writable
    case Some(Failure(error)) =>
      && Quiet(taken) && (taken != [] ==> Keepalive(taken[..|taken| - 1]))
      && error == (if Last(taken) == Text(None) then Protocol else Transport)
      && (Last(taken) == Text(None) || (taken != [] && Last(taken).Bad?) || rest == [] || Pings(taken) > writable)
  }

  lemma FrameTaken(before: seq<Incoming>, frame: Incoming, taken: seq<Incoming>)
    requires taken == before + [frame] || (taken == before && frame == Bad)
    ensures Pings(taken) == Pings(before) + if frame.Ping? then 1 else 0
    ensures Keepalive(before) && (frame.Ping? || frame.Pong?) ==> Keepalive(taken)
  {
    PingsGrow(before, frame);
  }

  lemma HeardLast(before: seq<Incoming>, frame: Incoming, taken: seq<Incoming>, result: Result<Response, TingFailure>,
                  rest: seq<Incoming>, writable: nat)
    requires Keepalive(before) && (taken == before + [frame] || (taken == before && frame == Bad && rest == []))
    requires frame.Text? || frame.Bad? || (frame.Ping? && Pings(taken) > writable)
    requires Pings(before) <= writable
    requires result == if frame.Text? && frame.response.Some? then Success(frame.response.value)
                       else Failure(if frame.Text? then Protocol else Transport)
    ensures Heard(Some(result), taken, rest, writable)
  {
    PingsGrow(before, frame);
    if taken != before {
      assert taken[..|taken| - 1] == before;
    } else if taken != [] {
      assert Last(taken) == before[|before| - 1];
    }
  }

  /** A connection: the frames the peer will send, how many more writes will succeed, and what
      has happened so far. */
  class Socket {
    var inbox: seq<Incoming>
    var writable: nat
    var log: seq<Entry>

    constructor (inbox: seq<Incoming>, writable: nat)
      ensures this.inbox == inbox && this.writable == writable && log == []
    {
      this.inbox, this.writable, log := inbox, writable, [];
    }

    method Next() returns (frame: Incoming)
      modifies this`inbox, this`log
      ensures if old(inbox) == [] then frame == Bad && inbox == [] else [frame] + inbox == old(inbox)
      ensures log == old(log) + (if frame.Text? && frame.response.Some? then [Read(frame.response.value)] else [])
    {
      if inbox == [] {
        return Bad;
      }
      frame, inbox := inbox[0], inbox[1..];
      if frame.Text? && frame.response.Some? {
        log := log + [Read(frame.response.value)];
      }
    }

    method Send(entry: Entry) returns (ok: bool)
      modifies this`writable, this`log
      ensures log == old(log) + [entry] && ok == (old(writable) > 0)
      ensures writable == if ok then old(writable) - 1 else old(writable)
    {
      log := log + [entry];
      ok := writable > 0;
      if ok {
        writable := writable - 1;
      }
    }

    /** `taken` is what has been read since the stream was `stream`, and the log says so. */
    ghost predicate HasTaken(taken: seq<Incoming>, stream: seq<Incoming>, start: seq<Entry>)
      reads this
    {
      taken + inbox == stream && log == start + Reactions(taken)
    }

    /** The next frame, if the stream has one, and the answer to it if it is a ping. */
    method Take(ghost before: seq<Incoming>, ghost stream: seq<Incoming>, ghost start: seq<Entry>)
      returns (frame: Incoming, ok: bool, ghost taken: seq<Incoming>)
      requires HasTaken(before, stream, start)
      modifies this
      ensures HasTaken(taken, stream, start)
      ensures taken == before + [frame] || (taken == before && frame == Bad && inbox == [])
      ensures ok == (frame.Ping? ==> old(writable) > 0)
      ensures writable == if frame.Ping? && ok then old(writable) - 1 else old(writable)
    {
      taken, ok := before, true;
      frame := Next();
      if old(inbox) != [] {
        taken := before + [frame];
        ReactionsGrow(before, frame);
        Regroup(before, [frame], inbox);
        Regroup(start, Reactions(before), Reaction(frame));
      }
      if frame.Ping? {
        ok := Send(Ponged(frame.payload));
      }
    }

    /** The next application frame; pings on the way are answered, pongs passed over. The wait is
        dropped after `patience` frames (`None`). */
    method NextJson(patience: nat) returns (result: Option<Result<Response, TingFailure>>, ghost taken: seq<Incoming>)
      modifies this
      ensures HasTaken(taken, old(inbox), old(log))
      ensures |taken| <= patience && Heard(result, taken, inbox, old(writable))
      ensures result.None? ==> |taken| == patience
    {
      var left := patience;
      taken := [];
      while left > 0
        invariant HasTaken(taken, old(inbox), old(log))
        invariant |taken| + left == patience && Keepalive(taken)
        invariant writable + Pings(taken) == old(writable)
      {
        left := left - 1;
        ghost var before := taken;
        var frame, ok;
        frame, ok, taken := Take(before, old(inbox), old(log));
        FrameTaken(before, frame, taken);
        if frame.Text? || frame.Bad? || !ok {
          result := Some(if frame.Text? && frame.response.Some? then Success(frame.response.value)
                         else Failure(if frame.Text? then Protocol else Transport));
          HeardLast(before, frame, taken, result.value, inbox, old(writable));
          return;
        }
      }
      return None, taken;
    }

    /** One attempt under the fresh id `requestId`, dropped after `patience` frames. It writes the
        request once, or not at all if its frame is too large; its outcome is what the frame it
        stopped at says of this request; and if the connection is kept, nothing is outstanding. */
    method SendOne(request: SendRequest, requestId: nat, patience: nat)
      returns (result: Option<Result<TingAcceptance, TingFailure>>)
      requires Orderly(log) && Answered(log)
      modifies this
      ensures Orderly(log) && old(log) <= log
      ensures request.frameLength > MAX_FRAME_BYTES <==> result == Some(Failure(InvalidRequest))
      ensures request.frameLength > MAX_FRAME_BYTES ==> log == old(log)
      ensures request.frameLength <= MAX_FRAME_BYTES ==>
                |old(log)| < |log| && log[|old(log)|] == Wrote(requestId, request.body) && NoRequest(log, |old(log)| + 1, |log|)
      ensures request.frameLength <= MAX_FRAME_BYTES ==>
                if log[|log| - 1].Read? then result == Some(Meaning(log[|log| - 1].response, requestId, request.key))
                else result.None? || result.value in {Failure(Transport), Failure(Protocol)}
      ensures Keeps(result) ==> Answered(log)
      ensures result.Some? ==> Justified(log, Reply(request, requestId, result.value, |old(log)|, |log| - 1))
    {
      if request.frameLength > MAX_FRAME_BYTES {
        return Some(Failure(InvalidRequest));
      }
      ghost var before := log;
      var ok := Send(Wrote(requestId, request.body));
      if !ok {
        OrderlyExtends(before, log);
        return Some(Failure(Transport));
      }
      ghost var taken;
      var answer;
      answer, taken := NextJson(patience);
      QuietFrames(taken);
      assert log == before + ([Wrote(requestId, request.body)] + Reactions(taken));
      OrderlyExtends(before, log);
      if answer.None? {
        return None;
      }
      if answer.value.Failure? {
        return Some(Failure(answer.value.error));
      }
      var response := answer.value.value;
      AnswerIsLast(taken, response);
      if response.requestId != Some(requestId) {
        return Some(Failure(Protocol));
      }
      AnswerSettles(before, log);
      if response.op.ErrorOp? {
        return Some(Failure(Rejected(RejectionCode(response))));
      }
      return Some(Acceptance(response, request.key));
    }
  }

  /** What an application frame says of a request. */
  function Meaning(response: Response, requestId: nat, key: string): Result<TingAcceptance, TingFailure> {
    if response.requestId != Some(requestId) then Failure(Protocol)
    else if response.op.ErrorOp? then Failure(Rejected(RejectionCode(response)))
    else Acceptance(response, key)
  }

  /** Reading never writes a request, and ends on a `Read` only with an application frame. */
  lemma {:induction false} QuietFrames(frames: seq<Incoming>)
    ensures NoRequest(Reactions(frames), 0, |Reactions(frames)|)
    ensures Quiet(frames) ==> forall i :: 0 <= i < |Reactions(frames)| ==> !Reactions(frames)[i].Read?
  {
    if frames != [] {
      QuietFrames(frames[..|frames| - 1]);
    }
  }

  lemma AnswerIsLast(frames: seq<Incoming>, response: Response)
    requires Last(frames) == Text(Some(response))
    ensures Reactions(frames) != [] && Reactions(frames)[|Reactions(frames)| - 1] == Read(response)
  {
  }

  /** The outcomes after which a connection goes on being used. */
  predicate Keeps(result: Option<Result<TingAcceptance, TingFailure>>) {
    result.Some? && (result.value.Success? || result.value.error.InvalidRequest? || result.value.error.Rejected?)
  }

  /** An outcome reported to a caller, with the stretch of the log it comes from. */
  datatype Reply = Reply(
    request: SendRequest, requestId: nat, result: Result<TingAcceptance, TingFailure>, sentAt: int, answeredAt: int)

  predicate FromPeer(result: Result<TingAcceptance, TingFailure>) {
    result.Success? || result.error.Rejected?
  }

  /** An acceptance or a rejection is the answer to this request: read after it was written and
      before any other request was, under its id, and an acceptance carries its key. */
  predicate Justified(log: seq<Entry>, reply: Reply) {
    FromPeer(reply.result) ==>
      && 0 <= reply.sentAt < reply.answeredAt < |log|
      && log[reply.sentAt] == Wrote(reply.requestId, reply.request.body)
      && NoRequest(log, reply.sentAt + 1, reply.answeredAt)
      && log[reply.answeredAt].Read?
      && log[reply.answeredAt].response.requestId == Some(reply.requestId)
      && (log[reply.answeredAt].response.op.ErrorOp? <==> reply.result.Failure?)
      && (reply.result.Success? ==>
            && log[reply.answeredAt].response.key == Some(reply.request.key)
            && Acceptance(log[reply.answeredAt].response, reply.request.key) == reply.result)
  }

  // ---------------------------------------------------------------- the driver's loops

  /** What the driver meets while a connection is up: a request, already stale or not, that is
      dropped by its caller or by its deadline after `patience` frames; a frame nobody asked for;
      or the end of the service. */
  datatype Event =
    | Ask(request: SendRequest, requestId: nat, stale: bool, patience: nat, cancelled: bool)
    | Frame
    | Shutdown

  /** The requests among the first `n` events that are still wanted. */
  function Wanted(events: seq<Event>, n: nat): seq<SendRequest>
    requires n <= |events|
  {
    if n == 0 then []
    else Wanted(events, n - 1) + if events[n - 1].Ask? && !events[n - 1].stale then [events[n - 1].request] else []
  }

  predicate RepliesTo(replies: seq<Reply>, requests: seq<SendRequest>) {
    |replies| == |requests| && forall i :: 0 <= i < |replies| ==> replies[i].request == requests[i]
  }

  /** The outcomes that end a connection: they leave open whether the request was accepted. */
  predicate Uncertain(result: Result<TingAcceptance, TingFailure>) {
    result.Failure? && (result.error.Transport? || result.error.Protocol? || result.error.Timeout?)
  }

  /** Serves one connection until it must be discarded or the service stops. Every wanted request
      of the events served gets one reply, in order; only the last can be uncertain, and then the
      connection is given up, as it is on a cancelled request and on a frame nobody asked for. */
  method Serve(socket: Socket, events: seq<Event>) returns (replies: seq<Reply>, stop: bool, served: nat)
    requires Orderly(socket.log) && Answered(socket.log)
    modifies socket
    ensures Orderly(socket.log)
    ensures forall i :: 0 <= i < |replies| ==> Justified(socket.log, replies[i])
    ensures served <= |events| && RepliesTo(replies, Wanted(events, served))
    ensures forall i :: 0 <= i < |replies| - 1 ==> !Uncertain(replies[i].result)
    ensures stop ==> served == |events| || events[served].Shutdown?
    ensures !stop ==>
              || (replies != [] && Uncertain(replies[|replies| - 1].result))
              || (served < |events| && (events[served].Frame? || (events[served].Ask? && events[served].cancelled)))
    ensures stop && replies != [] ==> !Uncertain(replies[|replies| - 1].result)
  {
    replies := [];
    for n := 0 to |events|
      invariant Orderly(socket.log) && Answered(socket.log)
      invariant forall i :: 0 <= i < |replies| ==> Justified(socket.log, replies[i])
      invariant forall i :: 0 <= i < |replies| ==> !Uncertain(replies[i].result)
      invariant RepliesTo(replies, Wanted(events, n))
    {
      match events[n]
      case Shutdown => return replies, true, n;
      case Frame =>
        ghost var before := socket.log;
        var frame := socket.Next();
        match frame {
          case Ping(payload) =>
            var ok := socket.Send(Ponged(payload));
            QuietKeeps(before, socket.log, replies);
            if !ok {
              return replies, false, n;
            }
          case Pong =>
            QuietKeeps(before, socket.log, replies);
          case _ =>
            QuietKeeps(before, socket.log, replies);
            return replies, false, n;
        }
      case Ask(request, requestId, stale, patience, cancelled) =>
        if !stale {
          var sentAt := |socket.log|;
          ghost var before := socket.log;
          var outcome := socket.SendOne(request, requestId, patience);
          JustifiedStill(before, socket.log, replies);
          if outcome.None? && cancelled {
            return replies, false, n;
          }
          var result := if outcome.None? then Failure(Timeout) else outcome.value;
          replies := replies + [Reply(request, requestId, result, sentAt, |socket.log| - 1)];
          if Uncertain(result) {
            return replies, false, n + 1;
          }
        }
    }
    return replies, true, |events|;
  }

  lemma JustifiedStill(log: seq<Entry>, later: seq<Entry>, replies: seq<Reply>)
    requires log <= later && forall i :: 0 <= i < |replies| ==> Justified(log, replies[i])
    ensures forall i :: 0 <= i < |replies| ==> Justified(later, replies[i])
  {
  }

  /** Frames that are not requests leave a settled connection settled. */
  lemma QuietKeeps(log: seq<Entry>, later: seq<Entry>, replies: seq<Reply>)
    requires Orderly(log) && Answered(log) && log <= later && NoRequest(later, |log|, |later|)
    requires forall i :: 0 <= i < |replies| ==> Justified(log, replies[i])
    ensures Orderly(later) && Answered(later)
    ensures forall i :: 0 <= i < |replies| ==> Justified(later, replies[i])
  {
    JustifiedStill(log, later, replies);
    forall i | 0 <= i < |later| && later[i].Wrote? ensures Answered(later[..i]) && AnsweredAfter(later, i) {
      assert later[..i] == log[..i];
      assert AnsweredAfter(log, i);
      var j :| i < j < |log| && log[j].Read? && log[j].response.requestId == Some(log[i].requestId);
      assert later[j] == log[j];
    }
  }

  const U32_MAX := 0xFFFF_FFFF

  /** The delay before reconnecting, in milliseconds, before its random spread. */
  function BaseDelay(failures: nat): nat {
    var doubled := Pow2(if failures < 5 then failures else 5);
    1000 * (if doubled < 30 then doubled else 30)
  }

  function ReconnectDelay(failures: nat, randomness: nat): nat
    requires randomness < 256
  {
    var spread := BaseDelay(failures) * (800 + randomness * 400 / 255) / 1000;
    if spread < 30_000 then spread else 30_000
  }

  /** The first six base delays are 1, 2, 4, 8, 16 and 30 seconds; then it stays at 30. */
  lemma BaseDelays(failures: nat)
    ensures BaseDelay(failures) ==
            if failures == 0 then 1000 else if failures == 1 then 2000 else if failures == 2 then 4000
            else if failures == 3 then 8000 else if failures == 4 then 16000 else 30000
  {
    assert Pow2(5) == 2 * Pow2(4) == 4 * Pow2(3) == 8 * Pow2(2) == 16 * Pow2(1) == 32 * Pow2(0);
  }

  /** The delay is within a fifth of its base, never above thirty seconds, and a longer streak of
      failures never waits less than a shorter one on the same draw. */
  lemma ReconnectDelayBounds(failures: nat, randomness: nat)
    requires randomness < 256
    ensures BaseDelay(failures) * 8 / 10 <= ReconnectDelay(failures, randomness) <= BaseDelay(failures) * 12 / 10
    ensures 800 <= ReconnectDelay(failures, randomness) <= 30_000
    ensures ReconnectDelay(failures, randomness) <= ReconnectDelay(failures + 1, randomness)
  {
    BaseDelays(failures);
    BaseDelays(failures + 1);
    assert 0 <= randomness * 400 / 255 <= 400;
  }

  /** One turn of the outer loop: a peer that may be out of reach or may not greet, and what it
      and the callers do on the connection. */
  datatype Session = Session(
    reachable: bool, inbox: seq<Incoming>, writable: nat, greeting: nat, events: seq<Event>, lasted: bool, randomness: nat)

  /** The connection of one session: what happened on it, the replies to its callers, and how many
      of the session's events it served. */
  datatype Connection = Connection(session: nat, log: seq<Entry>, replies: seq<Reply>, served: nat)

  /** The first application frame, after pings that could be answered and pongs, and before the wait
      is dropped, is a v1 ready frame. */
  predicate Greets(session: Session) {
    session.reachable && exists k :: 0 <= k < |session.inbox| && GreetsWith(session, k)
  }

  predicate GreetsWith(session: Session, k: nat)
    requires k < |session.inbox|
  {
    && k < session.greeting
    && (forall i :: 0 <= i < k ==> session.inbox[i].Ping? || session.inbox[i].Pong?)
    && Pings(session.inbox[..k]) <= session.writable
    && session.inbox[k].Text? && session.inbox[k].response.Some?
    && session.inbox[k].response.value.op.ReadyOp? && session.inbox[k].response.value.greets
  }

  /** Reading `taken` settles whether the peer greets: only if that is where it does. */
  lemma GreetingIsDecided(session: Session, taken: seq<Incoming>, k: nat)
    requires session.reachable && taken <= session.inbox && k < |session.inbox| && GreetsWith(session, k)
    requires forall i :: 0 <= i < |taken| - 1 ==> taken[i].Ping? || taken[i].Pong?
    ensures |taken| <= k + 1 && (|taken| == k + 1 ==> Last(taken) == session.inbox[k])
    ensures |taken| <= k ==>
              Quiet(taken) && Pings(taken) <= session.writable && Last(taken) != Text(None) && (taken != [] ==> !Last(taken).Bad?)
  {
    assert forall i :: 0 <= i < |taken| ==> taken[i] == session.inbox[i];
    if |taken| <= k {
      FewerPings(session.inbox[..k], |taken|);
      assert session.inbox[..k][..|taken|] == taken;
    }
  }

  /** The failures counted when the delay after session `n` is drawn: a connection that lasted a
      minute starts over. */
  function Failures(sessions: seq<Session>, n: nat): nat
    requires n < |sessions|
  {
    if Greets(sessions[n]) && sessions[n].lasted then 0 else FailuresBefore(sessions, n)
  }

  function FailuresBefore(sessions: seq<Session>, n: nat): nat
    requires n <= |sessions|
    decreases n, 0
  {
    if n == 0 then 0
    else
      var before := if Greets(sessions[n - 1]) && sessions[n - 1].lasted then 0 else FailuresBefore(sessions, n - 1);
      if before < U32_MAX then before + 1 else before
  }

  /** One more failure than the delay before was drawn for. */
  lemma FailuresFollow(sessions: seq<Session>, n: nat)
    requires n < |sessions|
    ensures var now := Failures(sessions, n);
            FailuresBefore(sessions, n + 1) == if now < U32_MAX then now + 1 else now
  {
  }

  function DelayAfter(sessions: seq<Session>, n: nat): nat
    requires n < |sessions| && sessions[n].randomness < 256
  {
    ReconnectDelay(Failures(sessions, n), sessions[n].randomness)
  }

  /** How many of the first `n` peers greet. */
  function Greeted(sessions: seq<Session>, n: nat): nat
    requires n <= |sessions|
  {
    if n == 0 then 0 else Greeted(sessions, n - 1) + if Greets(sessions[n - 1]) then 1 else 0
  }

  /** A connection of a peer that greeted, orderly, with one justified reply to every wanted request
      of the events it served. */
  predicate KeepsPromise(session: Session, c: Connection) {
    && Greets(session) && Orderly(c.log)
    && (forall i :: 0 <= i < |c.replies| ==> Justified(c.log, c.replies[i]))
    && c.served <= |session.events| && RepliesTo(c.replies, Wanted(session.events, c.served))
  }

  predicate AllKeepPromise(sessions: seq<Session>, connections: seq<Connection>) {
    && (forall i :: 0 <= i < |connections| ==>
          connections[i].session < |sessions| && KeepsPromise(sessions[connections[i].session], connections[i]))
    && (forall i, j :: 0 <= i < j < |connections| ==> connections[i].session < connections[j].session)
  }

  lemma PromisesExtend(sessions: seq<Session>, connections: seq<Connection>, c: Connection)
    requires AllKeepPromise(sessions, connections) && c.session < |sessions| && KeepsPromise(sessions[c.session], c)
    requires forall i :: 0 <= i < |connections| ==> connections[i].session < c.session
    ensures AllKeepPromise(sessions, connections + [c])
  {
  }

  /** One connection: a peer is used if and only if it is within reach and greets as expected. */
  method Connect(session: Session, n: nat) returns (up: bool, c: Connection, stop: bool)
    ensures up <==> Greets(session)
    ensures up ==> c.session == n && KeepsPromise(session, c)
    ensures stop ==> up && (c.served == |session.events| || session.events[c.served].Shutdown?)
  {
    c := Connection(n, [], [], 0);
    if !session.reachable {
      return false, c, false;
    }
    var socket := new Socket(session.inbox, session.writable);
    ghost var taken;
    var ready;
    ready, taken := socket.NextJson(session.greeting);
    QuietFrames(taken);
    if k :| 0 <= k < |session.inbox| && GreetsWith(session, k) {
      GreetingIsDecided(session, taken, k);
    }
    if ready.None? || ready.value.Failure? || !ready.value.value.op.ReadyOp? || !ready.value.value.greets {
      return false, c, false;
    }
    TakenGreeting(session, taken);
    QuietKeeps([], socket.log, []);
    var replies, served;
    replies, stop, served := Serve(socket, session.events);
    return true, Connection(n, socket.log, replies, served), stop;
  }

  lemma TakenGreeting(session: Session, taken: seq<Incoming>)
    requires session.reachable && taken <= session.inbox && 0 < |taken| <= session.greeting && Pings(taken) <= session.writable
    requires forall i :: 0 <= i < |taken| - 1 ==> taken[i].Ping? || taken[i].Pong?
    requires Last(taken).Text? && Last(taken).response.Some?
    requires Last(taken).response.value.op.ReadyOp? && Last(taken).response.value.greets
    ensures Greets(session)
  {
    var k := |taken| - 1;
    assert session.inbox[..k] == taken[..k];
    FewerPings(taken, k);
    assert GreetsWith(session, k);
  }

  /** However often it reconnects, the driver has one connection for every peer that greets and no
      other, keeps its promise on each, and before each new one waits the delay its failures so far
      call for, between 0.8 and 30 seconds. */
  method Run(sessions: seq<Session>) returns (connections: seq<Connection>, delays: seq<nat>)
    requires forall i :: 0 <= i < |sessions| ==> sessions[i].randomness < 256
    ensures AllKeepPromise(sessions, connections) && |delays| <= |sessions|
    ensures |connections| == Greeted(sessions, if |delays| < |sessions| then |delays| + 1 else |delays|)
    ensures |delays| < |sessions| ==> Greets(sessions[|delays|])
    ensures forall i :: 0 <= i < |delays| ==>
              800 <= delays[i] <= 30_000 && delays[i] == DelayAfter(sessions, i)
  {
    connections, delays := [], [];
    var failures := 0;
    for n := 0 to |sessions|
      invariant |delays| == n && |connections| == Greeted(sessions, n) && failures == FailuresBefore(sessions, n)
      invariant AllKeepPromise(sessions, connections)
      invariant forall i :: 0 <= i < |connections| ==> connections[i].session < n
      invariant forall i :: 0 <= i < |delays| ==>
                  800 <= delays[i] <= 30_000 && delays[i] == DelayAfter(sessions, i)
    {
      var session := sessions[n];
      var up, c, stop := Connect(session, n);
      FailuresFollow(sessions, n);
      if up {
        PromisesExtend(sessions, connections, c);
        connections := connections + [c];
        if stop {
          return;
        }
        if session.lasted {
          failures := 0;
        }
      }
      ReconnectDelayBounds(failures, session.randomness);
      delays := delays + [ReconnectDelay(failures, session.randomness)];
      failures := if failures < U32_MAX then failures + 1 else failures;
    }
  }
}
