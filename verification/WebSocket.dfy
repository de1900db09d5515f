/** WebSocket framing in the local Ting stand-in (scripts/dev_ting_stub.py), against the frame
    layout of sections 5.2 to 5.4 of RFC 6455. */
module WebSocket {
  import opened Basics
  import opened Results

  const CLOSE := 0x8
  const PING := 0x9
  const PONG := 0xA

  // ---------------------------------------------------------------- numbers and masks

  function Pow256(k: nat): (p: nat)
    ensures p >= 1
  {
    if k == 0 then 1 else 256 * Pow256(k - 1)
  }

  /** A number in network byte order. */
  function BigEndian(s: seq<byte>): nat {
    if s == [] then 0 else 256 * BigEndian(s[..|s| - 1]) + s[|s| - 1]
  }

  /** `n` in `k` bytes, most significant first. */
  function Pack(n: nat, k: nat): (s: seq<byte>)
    ensures |s| == k
  {
    if k == 0 then [] else Pack(n / 256, k - 1) + [n % 256]
  }

  lemma {:induction false} PackRoundTrips(n: nat, k: nat)
    requires n < Pow256(k)
    ensures BigEndian(Pack(n, k)) == n
  {
    if k > 0 {
      PackRoundTrips(n / 256, k - 1);
      assert Pack(n, k)[..k - 1] == Pack(n / 256, k - 1);
    }
  }

  lemma {:induction false} BigEndianBound(s: seq<byte>)
    ensures BigEndian(s) < Pow256(|s|)
  {
    if s != [] {
      BigEndianBound(s[..|s| - 1]);
    }
  }

  function XorBits(a: nat, b: nat, bits: nat): nat {
    if bits == 0 then 0 else (if a % 2 == b % 2 then 0 else 1) + 2 * XorBits(a / 2, b / 2, bits - 1)
  }

  lemma {:induction false} XorBitsBound(a: nat, b: nat, bits: nat)
    ensures XorBits(a, b, bits) < Pow2(bits)
  {
    if bits > 0 {
      XorBitsBound(a / 2, b / 2, bits - 1);
    }
  }

  lemma Halves(bit: nat, rest: nat)
    requires bit < 2
    ensures (bit + 2 * rest) % 2 == bit && (bit + 2 * rest) / 2 == rest
  {
  }

  lemma {:induction false} XorBitsUndoes(a: nat, b: nat, bits: nat)
    requires a < Pow2(bits)
    ensures XorBits(XorBits(a, b, bits), b, bits) == a
  {
    if bits > 0 {
      XorBitsUndoes(a / 2, b / 2, bits - 1);
      Halves(if a % 2 == b % 2 then 0 else 1, XorBits(a / 2, b / 2, bits - 1));
    }
  }

  lemma EightBits()
    ensures Pow2(8) == 256
  {
    assert Pow2(8) == 2 * Pow2(7) == 4 * Pow2(6) == 8 * Pow2(5) == 16 * Pow2(4) == 32 * Pow2(3) == 64 * Pow2(2)
        == 128 * Pow2(1) == 256 * Pow2(0);
  }

  /** Exclusive or of two bytes. */
  function Xor(a: byte, b: byte): (r: byte) {
    XorBitsBound(a, b, 8);
    EightBits();
    XorBits(a, b, 8)
  }

  lemma XorUndoes(a: byte, b: byte)
    ensures Xor(Xor(a, b), b) == a
  {
    EightBits();
    XorBitsUndoes(a, b, 8);
  }

  /** Masking, which is its own inverse. */
  function Mask(payload: seq<byte>, mask: seq<byte>): (s: seq<byte>)
    requires |mask| == 4
    ensures |s| == |payload|
  {
    if payload == [] then []
    else Mask(payload[..|payload| - 1], mask) + [Xor(payload[|payload| - 1], mask[(|payload| - 1) % 4])]
  }

  lemma {:induction false} MaskUndoes(payload: seq<byte>, mask: seq<byte>)
    requires |mask| == 4
    ensures Mask(Mask(payload, mask), mask) == payload
  {
    if payload != [] {
      var n := |payload| - 1;
      MaskUndoes(payload[..n], mask);
      XorUndoes(payload[n], mask[n % 4]);
      assert Mask(payload, mask)[..n] == Mask(payload[..n], mask);
      assert payload == payload[..n] + [payload[n]];
    }
  }

  /** Octet `i` is masked with octet `i` modulo 4 of the key. */
  lemma {:induction false} MaskAt(payload: seq<byte>, mask: seq<byte>, i: nat)
    requires |mask| == 4 && i < |payload|
    ensures Mask(payload, mask)[i] == Xor(payload[i], mask[i % 4])
  {
    if i < |payload| - 1 {
      MaskAt(payload[..|payload| - 1], mask, i);
    }
  }

  // ---------------------------------------------------------------- the frame layout

  datatype LengthForm = Short | Medium | Long

  /** A frame as the standard lays it out: reserved bits, any of the length forms its payload fits
      in, masked or not. */
  datatype Frame = Frame(fin: bool, reserved: nat, opcode: nat, form: LengthForm, mask: Option<seq<byte>>, payload: seq<byte>)

  predicate WellFormed(f: Frame) {
    && f.reserved < 8 && f.opcode < 16
    && (f.mask.Some? ==> |f.mask.value| == 4)
    && Fits(f.form, |f.payload|)
  }

  predicate Fits(form: LengthForm, length: nat) {
    match form
    case Short => length < 126
    case Medium => length < Pow256(2)
    case Long => length < Pow256(8)
  }

  function ExtendedBytes(form: LengthForm): nat {
    match form case Short => 0 case Medium => 2 case Long => 8
  }

  function FirstByte(f: Frame): byte
    requires WellFormed(f)
  {
    (if f.fin then 128 else 0) + 16 * f.reserved + f.opcode
  }

  function SecondByte(f: Frame): byte
    requires WellFormed(f)
  {
    (if f.mask.Some? then 128 else 0)
    + (match f.form case Short => |f.payload| case Medium => 126 case Long => 127)
  }

  function Key(f: Frame): seq<byte>
    requires WellFormed(f)
  {
    if f.mask.Some? then f.mask.value else []
  }

  function Body(f: Frame): seq<byte>
    requires WellFormed(f)
  {
    if f.mask.Some? then Mask(f.payload, f.mask.value) else f.payload
  }

  function Encode(f: Frame): seq<byte>
    requires WellFormed(f)
  {
    [FirstByte(f), SecondByte(f)] + Pack(|f.payload|, ExtendedBytes(f.form)) + Key(f) + Body(f)
  }

  // ---------------------------------------------------------------- what the reader makes of bytes

  datatype Received = Gone | Got(fin: bool, opcode: nat, payload: seq<byte>, rest: seq<byte>)

  function ExtendedOf(second: byte): nat {
    if second % 128 == 126 then 2 else if second % 128 == 127 then 8 else 0
  }

  /** The length after the first two bytes. One that is cut off reads as 0. */
  function LengthOf(second: byte, s: seq<byte>): nat {
    var extended := ExtendedOf(second);
    if extended == 0 then second % 128 else if |s| < extended then 0 else BigEndian(s[..extended])
  }

  /** What is left of `s` after `n` bytes were asked for; a short stream is used up. */
  function After(s: seq<byte>, n: nat): seq<byte> {
    if |s| < n then [] else s[n..]
  }

  /** The payload, unmasked, and what follows it. */
  function ReadBody(masked: bool, length: nat, body: seq<byte>): (r: Option<(seq<byte>, seq<byte>)>)
    ensures r.Some? ==> |r.value.1| <= |body|
  {
    if masked then
      if |body| < 4 + length then None
      else Some((Mask(body[4..4 + length], body[..4]), body[4 + length..]))
    else if |body| < length then None else Some((body[..length], body[length..]))
  }

  function ReadFrame(s: seq<byte>): (r: Received)
    ensures r.Got? ==> |r.rest| < |s|
  {
    if |s| < 2 then Gone
    else
      var read := ReadBody(s[1] >= 128, LengthOf(s[1], s[2..]), After(s[2..], ExtendedOf(s[1])));
      if read.None? then Gone else Got(s[0] >= 128, s[0] % 16, read.value.0, read.value.1)
  }

  /** What a whole message comes to: its bytes, the pongs sent meanwhile, what is left unread. */
  datatype Outcome = Closed(pongs: seq<byte>) | Message(payload: seq<byte>, pongs: seq<byte>, rest: seq<byte>)

  function ReadMessageFrom(s: seq<byte>, parts: seq<byte>, pongs: seq<byte>): Outcome
    decreases |s|
  {
    match ReadFrame(s)
    case Gone => Closed(pongs)
    case Got(fin, opcode, payload, rest) =>
      if opcode == CLOSE then Closed(pongs)
      else if opcode == PING then ReadMessageFrom(rest, parts, pongs + SentFrame(PONG, payload))
      else if opcode == PONG then ReadMessageFrom(rest, parts, pongs)
      else if fin then Message(parts + payload, pongs, rest)
      else ReadMessageFrom(rest, parts + payload, pongs)
  }

  /** A frame as the stand-in writes it: unfragmented, unmasked, with the shortest length. */
  function SentFrame(opcode: nat, payload: seq<byte>): seq<byte> {
    if opcode >= 16 || |payload| >= Pow256(8) then []
    else Encode(Frame(true, 0, opcode, ShortestForm(|payload|), None, payload))
  }

  function ShortestForm(length: nat): (form: LengthForm)
    requires length < Pow256(8)
    ensures Fits(form, length)
  {
    assert Pow256(2) == 256 * Pow256(1) && Pow256(1) == 256 * Pow256(0);
    if length < 126 then Short else if length < 65536 then Medium else Long
  }

  // ---------------------------------------------------------------- round trips

  lemma HeaderFields(f: Frame)
    requires WellFormed(f)
    ensures (FirstByte(f) >= 128) == f.fin && FirstByte(f) % 16 == f.opcode
    ensures (SecondByte(f) >= 128) == f.mask.Some? && ExtendedOf(SecondByte(f)) == ExtendedBytes(f.form)
    ensures f.form.Short? ==> SecondByte(f) % 128 == |f.payload|
  {
  }

  /** The length is read back whatever form it was written in. */
  lemma LengthRoundTrips(f: Frame, tail: seq<byte>)
    requires WellFormed(f)
    ensures LengthOf(SecondByte(f), Pack(|f.payload|, ExtendedBytes(f.form)) + tail) == |f.payload|
    ensures After(Pack(|f.payload|, ExtendedBytes(f.form)) + tail, ExtendedBytes(f.form)) == tail
  {
    HeaderFields(f);
    var packed := Pack(|f.payload|, ExtendedBytes(f.form));
    assert (packed + tail)[..ExtendedBytes(f.form)] == packed;
    if !f.form.Short? {
      PackRoundTrips(|f.payload|, ExtendedBytes(f.form));
    }
  }

  lemma Split<T>(a: seq<T>, b: seq<T>, c: seq<T>)
    ensures (a + b + c)[..|a|] == a && (a + b + c)[|a|..|a| + |b|] == b && (a + b + c)[|a| + |b|..] == c
  {
  }

  lemma MaskedBodyRoundTrips(f: Frame, rest: seq<byte>)
    requires WellFormed(f) && f.mask.Some?
    ensures ReadBody(true, |f.payload|, Key(f) + Body(f) + rest) == Some((f.payload, rest))
  {
    Split(Key(f), Body(f), rest);
    MaskUndoes(f.payload, f.mask.value);
  }

  lemma PlainBodyRoundTrips(f: Frame, rest: seq<byte>)
    requires WellFormed(f) && f.mask.None?
    ensures ReadBody(false, |f.payload|, Key(f) + Body(f) + rest) == Some((f.payload, rest))
  {
    Split(Key(f), Body(f), rest);
  }

  lemma BodyRoundTrips(f: Frame, rest: seq<byte>)
    requires WellFormed(f)
    ensures ReadBody(f.mask.Some?, |f.payload|, Key(f) + Body(f) + rest) == Some((f.payload, rest))
  {
    if f.mask.Some? {
      MaskedBodyRoundTrips(f, rest);
    } else {
      PlainBodyRoundTrips(f, rest);
    }
  }

  lemma Layout<T>(x: T, y: T, p: seq<T>, k: seq<T>, b: seq<T>, rest: seq<T>)
    ensures var s := [x, y] + p + k + b + rest; s[0] == x && s[1] == y && s[2..] == p + (k + b + rest)
  {
  }

  /** Every well-formed frame is read back, and nothing after it is touched. */
  lemma FrameRoundTrips(f: Frame, rest: seq<byte>)
    requires WellFormed(f)
    ensures ReadFrame(Encode(f) + rest) == Got(f.fin, f.opcode, f.payload, rest)
  {
    var s, body := Encode(f) + rest, Key(f) + Body(f) + rest;
    HeaderFields(f);
    LengthRoundTrips(f, body);
    BodyRoundTrips(f, rest);
    Layout(FirstByte(f), SecondByte(f), Pack(|f.payload|, ExtendedBytes(f.form)), Key(f), Body(f), rest);
  }

  /** A message as a peer may send it: data frames, only the last of them final, with pings and
      pongs anywhere before it. */
  predicate IsMessage(frames: seq<Frame>) {
    && frames != []
    && (forall i :: 0 <= i < |frames| ==> WellFormed(frames[i]) && frames[i].opcode != CLOSE)
    && Final(frames[|frames| - 1])
    && (forall i :: 0 <= i < |frames| - 1 ==> !Final(frames[i]))
  }

  predicate IsControl(f: Frame) {
    f.opcode == PING || f.opcode == PONG
  }

  predicate Final(f: Frame) {
    f.fin && !IsControl(f)
  }

  function EncodeAll(frames: seq<Frame>): seq<byte>
    requires forall i :: 0 <= i < |frames| ==> WellFormed(frames[i])
  {
    if frames == [] then [] else Encode(frames[0]) + EncodeAll(frames[1..])
  }

  /** The message: the payloads of its data frames, in order. */
  function Data(frames: seq<Frame>): seq<byte> {
    if frames == [] then [] else (if IsControl(frames[0]) then [] else frames[0].payload) + Data(frames[1..])
  }

  /** What is owed in between: a pong with the payload of every ping, in order. */
  function Pongs(frames: seq<Frame>): seq<byte> {
    if frames == [] then []
    else (if frames[0].opcode == PING then SentFrame(PONG, frames[0].payload) else []) + Pongs(frames[1..])
  }

  lemma FrameIsTaken(f: Frame, tail: seq<byte>, parts: seq<byte>, pongs: seq<byte>)
    requires WellFormed(f) && f.opcode != CLOSE
    ensures ReadMessageFrom(Encode(f) + tail, parts, pongs) ==
            if Final(f) then Message(parts + f.payload, pongs, tail)
            else ReadMessageFrom(tail, parts + Data([f]), pongs + Pongs([f]))
  {
    FrameRoundTrips(f, tail);
    assert [f][1..] == [];
    assert Data([f]) == if IsControl(f) then [] else f.payload;
    assert Pongs([f]) == if f.opcode == PING then SentFrame(PONG, f.payload) else [];
    assert parts + [] == parts && pongs + [] == pongs;
  }

  lemma UnfoldBytes(frames: seq<Frame>, rest: seq<byte>)
    requires frames != [] && forall i :: 0 <= i < |frames| ==> WellFormed(frames[i])
    ensures EncodeAll(frames) + rest == Encode(frames[0]) + (EncodeAll(frames[1..]) + rest)
  {
    Regroup(Encode(frames[0]), EncodeAll(frames[1..]), rest);
  }

  lemma UnfoldData(frames: seq<Frame>, parts: seq<byte>)
    requires frames != []
    ensures parts + Data(frames) == parts + Data([frames[0]]) + Data(frames[1..])
  {
    var f := frames[0];
    assert [f][1..] == [];
    assert Data([f]) == if IsControl(f) then [] else f.payload;
    Regroup(parts, Data([f]), Data(frames[1..]));
  }

  lemma UnfoldPongs(frames: seq<Frame>, pongs: seq<byte>)
    requires frames != []
    ensures pongs + Pongs(frames) == pongs + Pongs([frames[0]]) + Pongs(frames[1..])
  {
    var f := frames[0];
    assert [f][1..] == [];
    assert Pongs([f]) == if f.opcode == PING then SentFrame(PONG, f.payload) else [];
    Regroup(pongs, Pongs([f]), Pongs(frames[1..]));
  }

  lemma RestIsMessage(frames: seq<Frame>)
    requires IsMessage(frames) && |frames| > 1
    ensures IsMessage(frames[1..])
  {
    assert forall i :: 0 <= i < |frames| - 1 ==> frames[1..][i] == frames[i + 1];
  }

  lemma SingleFrame(f: Frame, frames: seq<Frame>, rest: seq<byte>)
    requires frames == [f] && Final(f)
    ensures EncodeAll(frames[1..]) + rest == rest && Data(frames) == f.payload && Pongs(frames) == []
  {
    assert frames[1..] == [];
    assert f.payload + [] == f.payload;
  }

  /** For any masks, any fragmentation and any interleaved pings and pongs, the message comes out
      whole, every ping is answered with its payload, and the next message is left alone. */
  lemma {:induction false} MessageRoundTrips(frames: seq<Frame>, rest: seq<byte>, parts: seq<byte>, pongs: seq<byte>)
    requires IsMessage(frames)
    ensures ReadMessageFrom(EncodeAll(frames) + rest, parts, pongs)
         == Message(parts + Data(frames), pongs + Pongs(frames), rest)
    decreases |frames|
  {
    UnfoldBytes(frames, rest);
    UnfoldData(frames, parts);
    UnfoldPongs(frames, pongs);
    FrameIsTaken(frames[0], EncodeAll(frames[1..]) + rest, parts, pongs);
    if |frames| == 1 {
      SingleFrame(frames[0], frames, rest);
      assert pongs + [] == pongs;
    } else {
      RestIsMessage(frames);
      MessageRoundTrips(frames[1..], rest, parts + Data([frames[0]]), pongs + Pongs([frames[0]]));
    }
  }

  /** In particular the stand-in reads what it writes, for every payload a length can express. */
  lemma SentIsRead(opcode: nat, payload: seq<byte>, rest: seq<byte>)
    requires opcode < 16 && opcode !in {CLOSE, PING, PONG} && |payload| < Pow256(8)
    ensures ReadMessageFrom(SentFrame(opcode, payload) + rest, [], []) == Message(payload, [], rest)
  {
    FrameRoundTrips(Frame(true, 0, opcode, ShortestForm(|payload|), None, payload), rest);
    assert [] + payload == payload;
  }

  /** A stream that ends inside an extended length is not reported as gone if the frame is
      unmasked: the length reads as 0 and the frame as an empty one. With a mask it is. */
  lemma CutLengthReadsAsEmpty(first: byte, second: byte, cut: seq<byte>)
    requires |cut| < ExtendedOf(second)
    ensures ReadFrame([first, second] + cut) ==
            if second >= 128 then Gone else Got(first >= 128, first % 16, [], [])
  {
    var s := [first, second] + cut;
    assert s[2..] == cut;
  }

  lemma CutLayout<T>(h: seq<T>, p: seq<T>, k: seq<T>, b: seq<T>, n: nat)
    requires |h| <= n <= |h| + |p| + |k| + |b|
    ensures n < |h| + |p| ==> (h + p + k + b)[..n] == h + p[..n - |h|]
    ensures n >= |h| + |p| ==> (h + p + k + b)[..n] == h + (p + (k + b)[..n - |h| - |p|])
  {
  }

  /** A frame cut after its length is short of payload, or of its mask. */
  lemma CutBodyIsGone(f: Frame, part: seq<byte>)
    requires WellFormed(f) && |part| < |Key(f)| + |f.payload|
    ensures ReadFrame([FirstByte(f), SecondByte(f)] + (Pack(|f.payload|, ExtendedBytes(f.form)) + part)).Gone?
  {
    var packed := Pack(|f.payload|, ExtendedBytes(f.form));
    HeaderFields(f);
    LengthRoundTrips(f, part);
    assert ([FirstByte(f), SecondByte(f)] + (packed + part))[2..] == packed + part;
  }

  /** A stream that ends inside a frame is reported as a peer that is gone, wherever it ends, if
      and only if it does not end inside the extended length of an unmasked frame. */
  lemma CutFrameIsGone(f: Frame, n: nat)
    requires WellFormed(f) && n < |Encode(f)|
    ensures ReadFrame(Encode(f)[..n]).Gone? <==> !(f.mask.None? && 2 <= n < 2 + ExtendedBytes(f.form))
  {
    if n >= 2 {
      var packed := Pack(|f.payload|, ExtendedBytes(f.form));
      CutLayout([FirstByte(f), SecondByte(f)], packed, Key(f), Body(f), n);
      HeaderFields(f);
      if n < 2 + |packed| {
        CutLengthReadsAsEmpty(FirstByte(f), SecondByte(f), packed[..n - 2]);
      } else {
        CutBodyIsGone(f, (Key(f) + Body(f))[..n - 2 - |packed|]);
      }
    }
  }

  // ---------------------------------------------------------------- the stream

  /** A connection: what the peer has sent and will send, how it comes in, and what was written. */
  class Stream {
    var unread: seq<byte>
    var chunks: seq<nat>
    var written: seq<byte>

    constructor (unread: seq<byte>, chunks: seq<nat>)
      ensures this.unread == unread && this.chunks == chunks && written == []
    {
      this.unread, this.chunks, written := unread, chunks, [];
    }

    /** Some of the next `count` bytes: none only at the end of the stream. */
    method Read(count: nat) returns (chunk: seq<byte>)
      requires count > 0
      modifies this`unread, this`chunks
      ensures |chunk| <= count && chunk + unread == old(unread)
      ensures chunk == [] <==> old(unread) == []
    {
      var size := if chunks == [] || chunks[0] == 0 || chunks[0] > count then count else chunks[0];
      chunks := if chunks == [] then [] else chunks[1..];
      var n := if size < |unread| then size else |unread|;
      chunk, unread := unread[..n], unread[n..];
    }

    /** Exactly `count` bytes however they come in, or nothing and the stream used up. */
    method ReadExact(count: nat) returns (result: Option<seq<byte>>)
      modifies this`unread, this`chunks
      ensures result == if |old(unread)| < count then None else Some(old(unread)[..count])
      ensures unread == After(old(unread), count)
    {
      var data: seq<byte> := [];
      while |data| < count
        invariant |data| <= count && data + unread == old(unread)
        decreases count - |data|
      {
        var chunk := Read(count - |data|);
        if chunk == [] {
          return None;
        }
        data := data + chunk;
      }
      return Some(data);
    }

    method SendFrame(opcode: nat, payload: seq<byte>)
      requires opcode < 16 && |payload| < Pow256(8)
      modifies this`written
      ensures written == old(written) + SentFrame(opcode, payload)
    {
      assert Pow256(2) == 256 * Pow256(1) && Pow256(1) == 256 * Pow256(0);
      var length := |payload|;
      var header: seq<byte>;
      if length < 126 {
        header := [0x80 + opcode, length];
      } else if length < 65536 {
        header := [0x80 + opcode, 126] + Pack(length, 2);
      } else {
        header := [0x80 + opcode, 127] + Pack(length, 8);
      }
      ghost var f := Frame(true, 0, opcode, ShortestForm(length), None, payload);
      assert header == [FirstByte(f), SecondByte(f)] + Pack(length, ExtendedBytes(f.form));
      assert header + payload == Encode(f);
      written := written + (header + payload);
    }

    /** The rest of a frame after its first two bytes and its length. */
    method NextBody(masked: bool, length: nat) returns (payload: Option<seq<byte>>)
      modifies this`unread, this`chunks
      ensures var read := ReadBody(masked, length, old(unread));
              && (payload.Some? <==> read.Some?)
              && (read.Some? ==> payload.value == read.value.0 && unread == read.value.1 && |payload.value| == length)
    {
      var mask := Some([0, 0, 0, 0]);
      ghost var start := unread;
      if masked {
        mask := ReadExact(4);
      }
      var data := Some([]);
      ghost var body := unread;
      if length > 0 {
        data := ReadExact(length);
      }
      if mask.None? || data.None? {
        return None;
      }
      if masked {
        assert start[4..][..length] == start[4..4 + length] && start[4..][length..] == start[4 + length..];
        return Some(Mask(data.value, mask.value));
      }
      ZeroMask(data.value);
      return Some(Mask(data.value, [0, 0, 0, 0]));
    }

    /** The payload length the second byte announces, read on if it is an extended one. */
    method NextLength(second: byte) returns (length: nat)
      modifies this`unread, this`chunks
      ensures length == LengthOf(second, old(unread)) && length < Pow256(8)
      ensures unread == After(old(unread), ExtendedOf(second))
    {
      LengthBound(second, unread);
      ZeroLengths();
      length := second % 128;
      if length == 126 {
        var extended := ReadExact(2);
        length := BigEndian(if extended.Some? then extended.value else [0, 0]);
      } else if length == 127 {
        var extended := ReadExact(8);
        length := BigEndian(if extended.Some? then extended.value else [0, 0, 0, 0, 0, 0, 0, 0]);
      }
    }

    /** One frame off the stream. */
    method NextFrame() returns (frame: Received)
      modifies this`unread, this`chunks
      ensures frame == ReadFrame(old(unread))
      ensures frame.Got? ==> unread == frame.rest && |frame.payload| < Pow256(8)
    {
      var header := ReadExact(2);
      if header.None? {
        return Gone;
      }
      var first, second := header.value[0], header.value[1];
      var length := NextLength(second);
      var payload := NextBody(second >= 128, length);
      if payload.None? {
        return Gone;
      }
      return Got(first >= 128, first % 16, payload.value, unread);
    }

    /** One complete message, its control frames answered in between; nothing when the peer is
        gone. The bytes are those of `ReadMessageFrom`, and so are the pongs. */
    method ReadMessage() returns (message: Option<seq<byte>>)
      modifies this
      ensures var outcome := ReadMessageFrom(old(unread), [], []);
              && written == old(written) + outcome.pongs
              && (outcome.Closed? ==> message == None)
              && (outcome.Message? ==> message == Some(outcome.payload) && unread == outcome.rest)
    {
      var parts: seq<byte> := [];
      ghost var pongs: seq<byte> := [];
      ghost var expected := ReadMessageFrom(unread, [], []);
      assert written + pongs == written;
      while true
        invariant ReadMessageFrom(unread, parts, pongs) == expected
        invariant written == old(written) + pongs
        decreases |unread|
      {
        var frame := NextFrame();
        match frame
        case Gone => return None;
        case Got(fin, opcode, payload, rest) =>
          if opcode == CLOSE {
            return None;
          }
          if opcode == PING {
            SendFrame(PONG, payload);
            Regroup(old(written), pongs, SentFrame(PONG, payload));
            pongs := pongs + SentFrame(PONG, payload);
          } else if opcode != PONG {
            parts := parts + payload;
            if fin {
              return Some(parts);
            }
          }
      }
    }
  }

  lemma {:induction false} ZeroMask(payload: seq<byte>)
    ensures Mask(payload, [0, 0, 0, 0]) == payload
  {
    if payload != [] {
      var n := |payload| - 1;
      ZeroMask(payload[..n]);
      XorZero(payload[n], 8);
      EightBits();
      assert payload == payload[..n] + [payload[n]];
    }
  }

  lemma {:induction false} XorZero(a: nat, bits: nat)
    requires a < Pow2(bits)
    ensures XorBits(a, 0, bits) == a
  {
    if bits > 0 {
      XorZero(a / 2, bits - 1);
    }
  }

  lemma {:induction false} BigEndianOfZeros(s: seq<byte>)
    requires forall i :: 0 <= i < |s| ==> s[i] == 0
    ensures BigEndian(s) == 0
  {
    if s != [] {
      BigEndianOfZeros(s[..|s| - 1]);
    }
  }

  lemma ZeroLengths()
    ensures BigEndian([0, 0]) == 0 && BigEndian([0, 0, 0, 0, 0, 0, 0, 0]) == 0
  {
    BigEndianOfZeros([0, 0]);
    BigEndianOfZeros([0, 0, 0, 0, 0, 0, 0, 0]);
  }

  /** No length a frame can give exceeds what one can be given. */
  lemma LengthBound(second: byte, s: seq<byte>)
    ensures LengthOf(second, s) < Pow256(8)
  {
    var extended := ExtendedOf(second);
    Pow256Grows(2, 8);
    assert Pow256(2) == 256 * Pow256(1) && Pow256(1) == 256 * Pow256(0);
    if extended > 0 && |s| >= extended {
      BigEndianBound(s[..extended]);
    }
  }

  lemma {:induction false} Pow256Grows(m: nat, n: nat)
    requires m <= n
    ensures Pow256(m) <= Pow256(n)
  {
    if m < n {
      Pow256Grows(m, n - 1);
    }
  }
}
