/** The signed cursor of `GET /api/v1/sync` (src/api/sync.rs). JSON, base64 and the keyed hash
    are libraries: they enter as the functions of a `Codec`. */
module SyncCursors {
  import opened Basics
  import opened Results
  import opened SyncFeed

  const CURSOR_SECONDS := 24 * 60 * 60
  const CURSOR_VERSION := 2
  const MAX_CURSOR_LENGTH := 2048
  const SCOPE_LENGTH := 64

  type Bytes = seq<byte>

  datatype SyncCursor = SyncCursor(version: int, scope: string, position: int, upper: Option<int>, expiresAt: int)

  datatype Codec = Codec(
    json: SyncCursor -> Bytes,
    parse: Bytes -> Option<SyncCursor>,
    base64: Bytes -> string,
    unbase64: string -> Option<Bytes>,
    mac: Bytes -> Bytes)

  /** A cursor of the shape the server makes: a scope of 64 hex digits and 64-bit numbers. */
  predicate Representable(c: SyncCursor) {
    && c.version == CURSOR_VERSION && |c.scope| == SCOPE_LENGTH
    && (forall i :: 0 <= i < |c.scope| ==> '0' <= c.scope[i] <= '9' || 'a' <= c.scope[i] <= 'f')
    && IsI64(c.position) && IsI64(c.expiresAt) && (c.upper.Some? ==> IsI64(c.upper.value))
  }

  /** What the libraries guarantee: reading undoes writing, the URL-safe alphabet has no dot, and
      the sizes of a hash, of unpadded base64 and of the JSON of five short fields. */
  ghost predicate Lawful(codec: Codec) {
    && (forall c :: Representable(c) ==> codec.parse(codec.json(c)) == Some(c) && |codec.json(c)| <= 256)
    && (forall b :: codec.unbase64(codec.base64(b)) == Some(b) && '.' !in codec.base64(b))
    && (forall b :: |codec.base64(b)| == (4 * |b| + 2) / 3)
    && (forall b :: |codec.mac(b)| == 32)
  }

  function EncodeCursor(codec: Codec, c: SyncCursor): string {
    var body := codec.json(c);
    codec.base64(body) + "." + codec.base64(codec.mac(body))
  }

  /** The text before and after the first dot. */
  function SplitOnce(value: string): (parts: Option<(string, string)>)
    ensures parts.None? <==> '.' !in value
    ensures parts.Some? ==> value == parts.value.0 + "." + parts.value.1 && '.' !in parts.value.0
  {
    if value == "" then None
    else if value[0] == '.' then
      assert value == "" + "." + value[1..];
      Some(("", value[1..]))
    else match SplitOnce(value[1..])
      case None => None
      case Some(parts) =>
        assert value == [value[0]] + value[1..];
        Some(([value[0]] + parts.0, parts.1))
  }

  /** The checks on a cursor whose signature held. */
  function CheckCursor(c: SyncCursor, scope: string, now: int): Result<SyncCursor, AppError> {
    if c.version != CURSOR_VERSION || c.position < 0 || (c.upper.Some? && c.upper.value < c.position)
    then Failure(Validation)
    else if c.scope != scope || c.expiresAt <= now then Failure(ResetRequired)
    else Success(c)
  }

  function DecodeCursor(codec: Codec, value: string, scope: string, now: int): Result<SyncCursor, AppError> {
    if |value| > MAX_CURSOR_LENGTH then Failure(Validation)
    else match SplitOnce(value)
      case None => Failure(Validation)
      case Some(parts) =>
        match codec.unbase64(parts.0)
        case None => Failure(Validation)
        case Some(body) =>
          match codec.unbase64(parts.1)
          case None => Failure(Validation)
          case Some(signature) =>
            if codec.mac(body) != signature then Failure(ResetRequired)
            else match codec.parse(body)
              case None => Failure(Validation)
              case Some(c) => CheckCursor(c, scope, now)
  }

  lemma {:induction false} SplitsAtFirstDot(left: string, right: string)
    requires '.' !in left
    ensures SplitOnce(left + "." + right) == Some((left, right))
  {
    var value := left + "." + right;
    if left == "" {
      assert value[1..] == right;
    } else {
      assert value[1..] == left[1..] + "." + right;
      SplitsAtFirstDot(left[1..], right);
      assert [left[0]] + left[1..] == left;
    }
  }

  /** The wire adds nothing to the checks: a cursor the server wrote is read back as itself. */
  lemma CursorRoundTrips(codec: Codec, c: SyncCursor, scope: string, now: int)
    requires Lawful(codec) && Representable(c)
    ensures DecodeCursor(codec, EncodeCursor(codec, c), scope, now) == CheckCursor(c, scope, now)
  {
    var body := codec.json(c);
    var left, right := codec.base64(body), codec.base64(codec.mac(body));
    assert |left| <= 342 && |right| == 43;
    SplitsAtFirstDot(left, right);
  }

  /** What a server may issue is never called invalid, only out of scope or expired; and both
      happen exactly then. */
  lemma IssuedCursorsAreNeverInvalid(codec: Codec, c: SyncCursor, scope: string, now: int)
    requires Lawful(codec) && Representable(c)
    requires 0 <= c.position && (c.upper.Some? ==> c.position <= c.upper.value)
    ensures DecodeCursor(codec, EncodeCursor(codec, c), scope, now) ==
            if c.scope == scope && now < c.expiresAt then Success(c) else Failure(ResetRequired)
  {
    CursorRoundTrips(codec, c, scope, now);
  }

  /** A cursor signed under another key is not an error: the client resets and goes on. */
  lemma ForeignCursorsAskForReset(codec: Codec, other: Codec, c: SyncCursor, scope: string, now: int)
    requires Lawful(codec) && Representable(c) && other == codec.(mac := other.mac)
    requires |other.mac(codec.json(c))| == 32 && other.mac(codec.json(c)) != codec.mac(codec.json(c))
    ensures DecodeCursor(codec, EncodeCursor(other, c), scope, now) == Failure(ResetRequired)
  {
    var body := codec.json(c);
    SplitsAtFirstDot(codec.base64(body), codec.base64(other.mac(body)));
  }

  /** Nothing is accepted that was not signed: an accepted text spells a signed body, in scope
      and unexpired, whose bounds are in order. */
  lemma AcceptedCursorsAreSigned(codec: Codec, value: string, scope: string, now: int, left: string, right: string)
    requires value == left + "." + right && '.' !in left
    requires DecodeCursor(codec, value, scope, now).Success?
    ensures var c := DecodeCursor(codec, value, scope, now).value;
            && codec.unbase64(left).Some?
            && codec.unbase64(right) == Some(codec.mac(codec.unbase64(left).value))
            && codec.parse(codec.unbase64(left).value) == Some(c)
            && c.scope == scope && now < c.expiresAt && 0 <= c.position
            && (c.upper.Some? ==> c.position <= c.upper.value)
  {
    SplitsAtFirstDot(left, right);
  }
}
