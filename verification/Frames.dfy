/**
 The JSON Lines stream of control frames: a writer that refuses lines the reader could not
 take, and a reader that skips what it does not understand. The reader's decoder is a
 parameter, since the library accepts more spellings of a frame than the writer produces.
 */
module Frames {
  import opened Options
  import opened Utf8
  import opened FrameCodec

  const MAX_LINE: nat := 64 * 1024

  // ---------- writing ----------

  /** An io.Writer: it takes at most `room` more bytes, and a short write is an error. */
  class Sink {
    var data: seq<byte>
    var room: nat

    constructor (room: nat)
      ensures data == [] && this.room == room
    {
      data, this.room := [], room;
    }

    method Write(b: seq<byte>) returns (ok: bool)
      modifies this
      ensures ok == (|b| <= old(room))
      ensures data == old(data) + b[..if ok then |b| else old(room)]
      ensures room == old(room) - if ok then |b| else old(room)
    {
      var n := if |b| <= room then |b| else room;
      ok := n == |b|;
      data, room := data + b[..n], room - n;
    }
  }

  datatype WriteResult = Written | FrameTooLarge | WriteFailed

  function Line(f: Frame): seq<byte> { EncodeFrame(f) + [NEWLINE] }

  predicate Fits(f: Frame) { |Line(f)| <= MAX_LINE }

  /** A frame over the limit is refused and leaves the stream as it was. */
  method Write(w: Sink, f: Frame) returns (r: WriteResult)
    modifies w
    ensures r == FrameTooLarge <==> |EncodeFrame(f)| + 1 > 65536
    ensures r == FrameTooLarge ==> w.data == old(w.data) && w.room == old(w.room)
    ensures r == Written <==> Fits(f) && |Line(f)| <= old(w.room)
    ensures r == Written ==> w.data == old(w.data) + Line(f)
    ensures r == WriteFailed ==> w.data == old(w.data) + Line(f)[..old(w.room)]
  {
    var b := EncodeFrame(f);
    if |b| + 1 > MAX_LINE {
      return FrameTooLarge;
    }
    var ok := w.Write(b + [NEWLINE]);
    return if ok then Written else WriteFailed;
  }

  // ---------- scanning ----------

  datatype Scanned = Token(line: seq<byte>, rest: seq<byte>) | End | TooLong

  /** Bytes before the first newline, or all of them. */
  function LineLength(data: seq<byte>): (n: nat)
    ensures n <= |data|
    ensures forall i :: 0 <= i < n ==> data[i] != NEWLINE
    ensures n < |data| ==> data[n] == NEWLINE
  {
    if data == [] || data[0] == NEWLINE then 0 else 1 + LineLength(data[1..])
  }

  function DropCR(line: seq<byte>): seq<byte> {
    if line != [] && line[|line| - 1] == 0x0D then line[..|line| - 1] else line
  }

  /** One step of the scanner: its buffer holds MAX_LINE bytes, and a line must fit with its newline. */
  function Scan(data: seq<byte>): Scanned {
    var n := LineLength(data);
    if data == [] then End
    else if n >= MAX_LINE then TooLong
    else Token(DropCR(data[..n]), if n < |data| then data[n + 1..] else [])
  }

  // ---------- reading ----------

  type Decoder = seq<byte> -> Option<Frame>

  datatype ReadResult = Got(frame: Frame) | Eof | Failed

  predicate Yields(decode: Decoder, accepted: set<seq<rune>>, line: seq<byte>) {
    decode(line).Some? && decode(line).value.kind in accepted
  }

  /** What Next returns, and what it leaves unread; a failed scanner makes no progress. */
  function NextFrame(decode: Decoder, accepted: set<seq<rune>>, data: seq<byte>): (ReadResult, seq<byte>)
    decreases |data|
  {
    match Scan(data)
    case End => (Eof, [])
    case TooLong => (Failed, data)
    case Token(line, rest) =>
      if Yields(decode, accepted, line) then (Got(decode(line).value), rest)
      else NextFrame(decode, accepted, rest)
  }

  class Reader {
    const decode: Decoder
    const accepted: set<seq<rune>>
    var unread: seq<byte>

    constructor (decode: Decoder, accepted: set<seq<rune>>, data: seq<byte>)
      ensures this.decode == decode && this.accepted == accepted && unread == data
    {
      this.decode, this.accepted, unread := decode, accepted, data;
    }

    method Next() returns (r: ReadResult)
      modifies this
      ensures (r, unread) == NextFrame(decode, accepted, old(unread))
    {
      while true
        invariant NextFrame(decode, accepted, unread) == NextFrame(decode, accepted, old(unread))
        decreases |unread|
      {
        match Scan(unread)
        case End =>
          unread := [];
          return Eof;
        case TooLong => return Failed;
        case Token(line, rest) =>
          unread := rest;
          var f := decode(line);
          if f.Some? && f.value.kind in accepted {
            return Got(f.value);
          }
      }
    }
  }

  /** All frames repeated Next returns, and how the stream ends. */
  function ReadAll(decode: Decoder, accepted: set<seq<rune>>, data: seq<byte>): (seq<Frame>, ReadResult)
    decreases |data|
  {
    match Scan(data)
    case End => ([], Eof)
    case TooLong => ([], Failed)
    case Token(line, rest) =>
      var (frames, end) := ReadAll(decode, accepted, rest);
      ((if Yields(decode, accepted, line) then [decode(line).value] else []) + frames, end)
  }

  /** ReadAll is what repeated calls of Next see. */
  lemma {:induction false} ReadAllIsRepeatedNext(decode: Decoder, accepted: set<seq<rune>>, data: seq<byte>)
    ensures
      var (r, rest) := NextFrame(decode, accepted, data);
      ReadAll(decode, accepted, data) ==
        if r.Got? then ([r.frame] + ReadAll(decode, accepted, rest).0, ReadAll(decode, accepted, rest).1) else ([], r)
    decreases |data|
  {
    match Scan(data)
    case End =>
    case TooLong =>
    case Token(line, rest) =>
      if !Yields(decode, accepted, line) {
        ReadAllIsRepeatedNext(decode, accepted, rest);
        assert [] + ReadAll(decode, accepted, rest).0 == ReadAll(decode, accepted, rest).0;
      }
  }

  /** Once the stream has ended or failed, every further Next says the same again. */
  lemma {:induction false} EndIsFinal(decode: Decoder, accepted: set<seq<rune>>, data: seq<byte>)
    ensures
      var (r, rest) := NextFrame(decode, accepted, data);
      !r.Got? ==> NextFrame(decode, accepted, rest) == (r, rest)
    decreases |data|
  {
    match Scan(data)
    case End =>
    case TooLong =>
    case Token(line, rest) =>
      if !Yields(decode, accepted, line) {
        EndIsFinal(decode, accepted, rest);
      }
  }

  // ---------- the stream ----------

  /** What reaches the stream: a Write of a frame, or a line from elsewhere. */
  datatype Item = Sent(frame: Frame) | Junk(line: seq<byte>)

  function Bytes(item: Item): seq<byte> {
    match item
    case Sent(f) => if Fits(f) then Line(f) else []
    case Junk(line) => line + [NEWLINE]
  }

  function Stream(items: seq<Item>): seq<byte> {
    if items == [] then [] else Bytes(items[0]) + Stream(items[1..])
  }

  /** The frames a reader is owed. */
  function Owed(accepted: set<seq<rune>>, items: seq<Item>): seq<Frame> {
    if items == [] then [] else OwedFor(accepted, items[0]) + Owed(accepted, items[1..])
  }

  function OwedFor(accepted: set<seq<rune>>, item: Item): seq<Frame> {
    if item.Sent? && Fits(item.frame) && item.frame.kind in accepted then [item.frame] else []
  }

  /** The decoder reads back what the encoder writes. */
  ghost predicate RoundTrips(decode: Decoder) {
    forall f :: ReadsBack(decode, f)
  }

  ghost predicate ReadsBack(decode: Decoder, f: Frame) { decode(EncodeFrame(f)) == Some(f) }

  /** Junk is one line within the limit that the reader does not take for a frame it accepts. */
  ghost predicate Harmless(decode: Decoder, accepted: set<seq<rune>>, item: Item) {
    item.Junk? ==> NEWLINE !in item.line && |item.line| < MAX_LINE && !Yields(decode, accepted, DropCR(item.line))
  }

  lemma ScanLine(line: seq<byte>, rest: seq<byte>)
    requires NEWLINE !in line && |line| < MAX_LINE
    ensures Scan(line + [NEWLINE] + rest) == Token(DropCR(line), rest)
  {
    var data := line + [NEWLINE] + rest;
    var n := LineLength(data);
    assert data[|line|] == NEWLINE && n <= |line|;
    assert forall i :: 0 <= i < |line| ==> data[i] == line[i] && line[i] in line;
    assert data[..n] == line && data[n + 1..] == rest;
  }

  /** No line Write emits trips the reader's limit or loses its last byte. */
  lemma ScanWritten(f: Frame, rest: seq<byte>)
    requires Fits(f)
    ensures Scan(Line(f) + rest) == Token(EncodeFrame(f), rest)
  {
    EncodedFrameIsOneLine(f);
    ScanLine(EncodeFrame(f), rest);
  }

  /** Write refuses exactly the frames whose line the reader would fail on. */
  lemma RefusedIffUnreadable(f: Frame, rest: seq<byte>)
    ensures Fits(f) <==> Scan(Line(f) + rest) != TooLong
  {
    EncodedFrameIsOneLine(f);
    if Fits(f) {
      ScanWritten(f, rest);
    } else {
      var line := EncodeFrame(f);
      assert NEWLINE !in line;
      ScanOversized(line, [NEWLINE] + rest);
      assert line + ([NEWLINE] + rest) == Line(f) + rest;
    }
  }

  /** Frames in front of what else a reading finds. */
  function Before(frames: seq<Frame>, reading: (seq<Frame>, ReadResult)): (seq<Frame>, ReadResult) {
    (frames + reading.0, reading.1)
  }

  lemma BeforeBefore(a: seq<Frame>, b: seq<Frame>, reading: (seq<Frame>, ReadResult))
    ensures Before(a, Before(b, reading)) == Before(a + b, reading)
    ensures Before([], reading) == reading
    ensures reading.0 == [] ==> Before(a, reading) == (a, reading.1)
  {
    assert a + (b + reading.0) == (a + b) + reading.0;
    assert [] + reading.0 == reading.0 && a + [] == a;
  }

  lemma ReadSent(decode: Decoder, accepted: set<seq<rune>>, f: Frame, rest: seq<byte>)
    requires Fits(f) && ReadsBack(decode, f)
    ensures ReadAll(decode, accepted, Line(f) + rest)
      == Before(if f.kind in accepted then [f] else [], ReadAll(decode, accepted, rest))
  {
    ScanWritten(f, rest);
  }

  lemma ReadJunk(decode: Decoder, accepted: set<seq<rune>>, line: seq<byte>, rest: seq<byte>)
    requires Harmless(decode, accepted, Junk(line))
    ensures ReadAll(decode, accepted, line + [NEWLINE] + rest) == Before([], ReadAll(decode, accepted, rest))
  {
    ScanLine(line, rest);
  }

  lemma ReadItem(decode: Decoder, accepted: set<seq<rune>>, item: Item, rest: seq<byte>)
    requires (item.Sent? ==> ReadsBack(decode, item.frame)) && Harmless(decode, accepted, item)
    ensures ReadAll(decode, accepted, Bytes(item) + rest) == Before(OwedFor(accepted, item), ReadAll(decode, accepted, rest))
  {
    match item
    case Junk(line) => ReadJunk(decode, accepted, line, rest);
    case Sent(f) =>
      if Fits(f) {
        ReadSent(decode, accepted, f, rest);
      } else {
        assert Bytes(item) + rest == rest;
        BeforeBefore([], [], ReadAll(decode, accepted, rest));
      }
  }

  lemma ItemThen(decode: Decoder, accepted: set<seq<rune>>, item: Item, data: seq<byte>,
                 owed: seq<Frame>, reading: (seq<Frame>, ReadResult))
    requires (item.Sent? ==> ReadsBack(decode, item.frame)) && Harmless(decode, accepted, item)
    requires ReadAll(decode, accepted, data) == Before(owed, reading)
    ensures ReadAll(decode, accepted, Bytes(item) + data) == Before(OwedFor(accepted, item) + owed, reading)
  {
    ReadItem(decode, accepted, item, data);
    BeforeBefore(OwedFor(accepted, item), owed, reading);
  }

  /** A stream the reader can follow to its end. */
  ghost predicate Readable(decode: Decoder, accepted: set<seq<rune>>, items: seq<Item>) {
    RoundTrips(decode) && forall i :: 0 <= i < |items| ==> Harmless(decode, accepted, items[i])
  }

  lemma ReadableFirst(decode: Decoder, accepted: set<seq<rune>>, items: seq<Item>)
    requires Readable(decode, accepted, items) && items != []
    ensures items[0].Sent? ==> ReadsBack(decode, items[0].frame)
    ensures Harmless(decode, accepted, items[0]) && Readable(decode, accepted, items[1..])
  {
  }

  lemma StreamFirst(accepted: set<seq<rune>>, items: seq<Item>, rest: seq<byte>)
    requires items != []
    ensures Stream(items) + rest == Bytes(items[0]) + (Stream(items[1..]) + rest)
    ensures Owed(accepted, items) == OwedFor(accepted, items[0]) + Owed(accepted, items[1..])
  {
  }

  /**
   Whatever is written, with harmless junk anywhere in between, the reader yields exactly the
   accepted frames, in order, and then whatever the rest of the stream holds.
   */
  lemma {:induction false} StreamThen(decode: Decoder, accepted: set<seq<rune>>, items: seq<Item>, rest: seq<byte>)
    requires Readable(decode, accepted, items)
    ensures ReadAll(decode, accepted, Stream(items) + rest) == Before(Owed(accepted, items), ReadAll(decode, accepted, rest))
    decreases |items|
  {
    if items == [] {
      assert Stream(items) + rest == rest;
      BeforeBefore([], [], ReadAll(decode, accepted, rest));
    } else {
      ReadableFirst(decode, accepted, items);
      StreamThen(decode, accepted, items[1..], rest);
      StreamFirst(accepted, items, rest);
      ItemThen(decode, accepted, items[0], Stream(items[1..]) + rest, Owed(accepted, items[1..]), ReadAll(decode, accepted, rest));
    }
  }

  /** The frame stream round trip. */
  lemma StreamRoundTrip(decode: Decoder, accepted: set<seq<rune>>, items: seq<Item>)
    requires Readable(decode, accepted, items)
    ensures ReadAll(decode, accepted, Stream(items)) == (Owed(accepted, items), Eof)
  {
    var none: seq<byte> := [];
    StreamThen(decode, accepted, items, none);
    EmptyStream(decode, accepted, none);
    assert Stream(items) + none == Stream(items);
    BeforeBefore(Owed(accepted, items), [], ReadAll(decode, accepted, none));
  }

  lemma EmptyStream(decode: Decoder, accepted: set<seq<rune>>, data: seq<byte>)
    requires data == []
    ensures ReadAll(decode, accepted, data) == ([], Eof)
  {
  }

  /** What a line is worth to the reader. */
  function FrameOf(decode: Decoder, accepted: set<seq<rune>>, line: seq<byte>): seq<Frame> {
    if decode(line).Some? && decode(line).value.kind in accepted then [decode(line).value] else []
  }

  /** A last line that no newline ends is read like any other. */
  lemma UnendedLastLine(decode: Decoder, accepted: set<seq<rune>>, items: seq<Item>, line: seq<byte>)
    requires Readable(decode, accepted, items)
    requires line != [] && NEWLINE !in line && |line| < MAX_LINE
    ensures ReadAll(decode, accepted, Stream(items) + line) == (Owed(accepted, items) + FrameOf(decode, accepted, DropCR(line)), Eof)
  {
    StreamThen(decode, accepted, items, line);
    LastLine(decode, accepted, line);
  }

  lemma LastLine(decode: Decoder, accepted: set<seq<rune>>, line: seq<byte>)
    requires line != [] && NEWLINE !in line && |line| < MAX_LINE
    ensures ReadAll(decode, accepted, line) == (FrameOf(decode, accepted, DropCR(line)), Eof)
  {
    var none: seq<byte> := [];
    ScanUnended(line);
    EmptyStream(decode, accepted, none);
    assert FrameOf(decode, accepted, DropCR(line)) + [] == FrameOf(decode, accepted, DropCR(line));
  }

  lemma ScanUnended(line: seq<byte>)
    requires line != [] && NEWLINE !in line && |line| < MAX_LINE
    ensures Scan(line) == Token(DropCR(line), [])
  {
    assert LineLength(line) == |line| && line[..|line|] == line;
  }

  /** Lines may end in a carriage return and a newline: the frame on them is read all the same. */
  lemma CarriageReturnDropped(decode: Decoder, accepted: set<seq<rune>>, f: Frame, rest: seq<byte>)
    requires |EncodeFrame(f)| + 1 < MAX_LINE && ReadsBack(decode, f)
    ensures ReadAll(decode, accepted, EncodeFrame(f) + [0x0D, NEWLINE] + rest)
      == Before(if f.kind in accepted then [f] else [], ReadAll(decode, accepted, rest))
  {
    EncodedFrameIsOneLine(f);
    var line := EncodeFrame(f) + [0x0D];
    ScanLine(line, rest);
    assert EncodeFrame(f) + [0x0D, NEWLINE] + rest == line + [NEWLINE] + rest;
    assert line[..|line| - 1] == EncodeFrame(f);
  }

  /** A line over the limit is a hard stop: all frames before it arrive, none after it. */
  lemma OversizedLineStops(decode: Decoder, accepted: set<seq<rune>>, items: seq<Item>, line: seq<byte>, rest: seq<byte>)
    requires Readable(decode, accepted, items)
    requires NEWLINE !in line && |line| >= MAX_LINE
    ensures ReadAll(decode, accepted, Stream(items) + (line + rest)) == (Owed(accepted, items), Failed)
  {
    StreamThen(decode, accepted, items, line + rest);
    ScanOversized(line, rest);
    assert ReadAll(decode, accepted, line + rest) == ([], Failed);
    BeforeBefore(Owed(accepted, items), [], ReadAll(decode, accepted, line + rest));
  }

  lemma ScanOversized(line: seq<byte>, rest: seq<byte>)
    requires NEWLINE !in line && |line| >= MAX_LINE
    ensures Scan(line + rest) == TooLong
  {
  }

  const CODEC: Decoder := line => DecodeFrame(line)

  /** The decoder of FrameCodec meets the requirement. */
  lemma CodecRoundTrips()
    ensures RoundTrips(CODEC)
  {
    forall f: Frame ensures ReadsBack(CODEC, f) {
      FrameRoundTrip(f);
    }
  }
}
