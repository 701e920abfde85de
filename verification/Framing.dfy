/** Length-prefixed framing (broker/framing.ts): a 4-byte big-endian length followed by
    the payload, and the incremental reader that undoes it under any chunking. */
module Framing {

  import opened Wrappers

  type Byte = x: int | 0 <= x < 256
  type Bytes = seq<Byte>

  const UINT32_LIMIT: nat := 0x1_0000_0000

  /** What happens to one complete payload: it is parsed and handled, or one of the two
      steps throws. */
  datatype Verdict = Handled | ParseThrew | HandlerThrew

  /** Parsing and handling, seen from the reader. The handler may keep state of its own,
      so its verdict may depend on every message handled before. */
  type Judge = (seq<Bytes>, Bytes) -> Verdict

  datatype ReaderError =
    | Oversized(length: nat)
    | FailedToParse(payload: Bytes)
    | FailedToHandle(payload: Bytes)

  /** What the reader does with a stretch of input: the messages handled, the bytes it
      keeps, and the error it reports, if any. */
  datatype Outcome = Outcome(messages: seq<Bytes>, rest: Bytes, error: Option<ReaderError>)
  {
    function After(earlier: seq<Bytes>): Outcome {
      this.(messages := earlier + messages)
    }
  }

  lemma AfterTwice(o: Outcome, earlier: seq<Bytes>, earliest: seq<Bytes>)
    ensures o.After(earlier).After(earliest) == o.After(earliest + earlier)
  {
    assert earliest + (earlier + o.messages) == earliest + earlier + o.messages;
  }

  // ---------- The writer ----------

  /** The `width` big-endian base-256 digits of `n`. */
  function BigEndian(n: nat, width: nat): (digits: Bytes)
    ensures |digits| == width
  {
    if width == 0 then [] else BigEndian(n / 0x100, width - 1) + [n % 0x100]
  }

  function Value(digits: Bytes): nat {
    if digits == [] then 0
    else Value(digits[..|digits| - 1]) * 0x100 + digits[|digits| - 1]
  }

  function Limit(width: nat): nat {
    if width == 0 then 1 else Limit(width - 1) * 0x100
  }

  lemma {:induction false} ValueOfBigEndian(n: nat, width: nat)
    requires n < Limit(width)
    ensures Value(BigEndian(n, width)) == n
  {
    if width > 0 {
      ValueOfBigEndian(n / 0x100, width - 1);
      assert BigEndian(n, width)[..width - 1] == BigEndian(n / 0x100, width - 1);
    }
  }

  lemma {:induction false} BigEndianOfValue(digits: Bytes)
    ensures Value(digits) < Limit(|digits|)
    ensures BigEndian(Value(digits), |digits|) == digits
    decreases |digits|
  {
    if digits != [] {
      BigEndianOfValue(digits[..|digits| - 1]);
    }
  }

  function FrameLength(s: Bytes): nat
    requires |s| >= 4
  {
    Value(s[..4])
  }

  /** The writer refuses a payload whose length does not fit the header. */
  function WriteMessage(payload: Bytes): Option<Bytes> {
    if |payload| < UINT32_LIMIT then Some(BigEndian(|payload|, 4) + payload) else None
  }

  /** The header is the length in network byte order, for the writer and for the reader. */
  lemma HeaderIsBigEndian(payload: Bytes, header: Bytes, length: nat)
    requires header == [length / 0x100_0000, length / 0x1_0000 % 0x100, length / 0x100 % 0x100, length % 0x100] && length < 0x1_0000_0000
    ensures |payload| == length ==> WriteMessage(payload) == Some(header + payload)
    ensures FrameLength(header + payload) == length
  {
    assert BigEndian(length, 4) == header by {
      assert BigEndian(length / 0x100_0000, 1) == [length / 0x100_0000];
      assert BigEndian(length / 0x1_0000, 2) == [length / 0x100_0000, length / 0x1_0000 % 0x100];
      assert BigEndian(length / 0x100, 3) == [length / 0x100_0000, length / 0x1_0000 % 0x100, length / 0x100 % 0x100];
    }
    assert Limit(4) == 0x1_0000_0000;
    ValueOfBigEndian(length, 4);
    assert (header + payload)[..4] == header;
  }

  /** A payload whose length does not fit the header is not written. */
  lemma TooLongIsNotWritten(payload: Bytes)
    ensures WriteMessage(payload).None? <==> |payload| >= 0x1_0000_0000
  {}

  predicate Writable(payloads: seq<Bytes>) {
    forall i :: 0 <= i < |payloads| ==> |payloads[i]| < UINT32_LIMIT
  }

  /** The bytes on the wire after writing the payloads one after another. */
  function Stream(payloads: seq<Bytes>): Bytes
    requires Writable(payloads)
  {
    if payloads == [] then [] else WriteMessage(payloads[0]).value + Stream(payloads[1..])
  }

  // ---------- What a stretch of bytes means, whatever its chunks ----------

  ghost function Parse(judge: Judge, max: nat, seen: seq<Bytes>, s: Bytes): Outcome
    decreases |s|
  {
    if |s| < 4 then Outcome([], s, None)
    else
      var length := FrameLength(s);
      if length > max then Outcome([], [], Some(Oversized(length)))
      else if |s| < 4 + length then Outcome([], s, None)
      else
        var payload := s[4..4 + length];
        match judge(seen, payload)
        case ParseThrew => Outcome([], [], Some(FailedToParse(payload)))
        case HandlerThrew => Outcome([], [], Some(FailedToHandle(payload)))
        case Handled => Parse(judge, max, seen + [payload], s[4 + length..]).After([payload])
  }

  /** The bytes a reader may hold between chunks: a proper prefix of one admissible frame. */
  predicate Partial(max: nat, buffer: Bytes) {
    |buffer| >= 4 ==> FrameLength(buffer) <= max && |buffer| < 4 + FrameLength(buffer)
  }

  lemma {:induction false} RestIsPartial(judge: Judge, max: nat, seen: seq<Bytes>, s: Bytes)
    ensures Partial(max, Parse(judge, max, seen, s).rest)
    decreases |s|
  {
    if |s| >= 4 {
      var length := FrameLength(s);
      if length <= max && 4 + length <= |s| {
        RestIsPartial(judge, max, seen + [s[4..4 + length]], s[4 + length..]);
      }
    }
  }

  /** A stretch that starts with one complete frame: its payload is judged, then the rest. */
  lemma OneFrame(judge: Judge, max: nat, seen: seq<Bytes>, frame: Bytes, tail: Bytes)
    requires |frame| >= 4 && |frame| == 4 + FrameLength(frame) && FrameLength(frame) <= max
    ensures var payload := frame[4..];
            Parse(judge, max, seen, frame + tail) ==
            match judge(seen, payload)
            case ParseThrew => Outcome([], [], Some(FailedToParse(payload)))
            case HandlerThrew => Outcome([], [], Some(FailedToHandle(payload)))
            case Handled => Parse(judge, max, seen + [payload], tail).After([payload])
  {
    assert (frame + tail)[..4] == frame[..4];
    assert (frame + tail)[4..|frame|] == frame[4..] && (frame + tail)[|frame|..] == tail;
  }

  /** A stretch that does not: it is kept whole, or refused for its announced length. */
  lemma NoFrame(judge: Judge, max: nat, seen: seq<Bytes>, s: Bytes, tail: Bytes)
    ensures Partial(max, s) ==> Parse(judge, max, seen, s) == Outcome([], s, None)
    ensures |s| >= 4 && FrameLength(s) > max ==> Parse(judge, max, seen, s + tail) == Outcome([], [], Some(Oversized(FrameLength(s))))
  {
    if |s| >= 4 { assert (s + tail)[..4] == s[..4]; }
  }

  lemma AfterNothing(o: Outcome)
    ensures o.After([]) == o
  {
    assert [] + o.messages == o.messages;
  }

  /** Parsing may stop anywhere and be resumed with the bytes kept; an error is final. */
  lemma {:induction false} ParseResumes(judge: Judge, max: nat, seen: seq<Bytes>, a: Bytes, b: Bytes)
    ensures var first := Parse(judge, max, seen, a);
            Parse(judge, max, seen, a + b) ==
            if first.error.Some? then first
            else Parse(judge, max, seen + first.messages, first.rest + b).After(first.messages)
    decreases |a|, 0
  {
    hide Parse;
    NoFrame(judge, max, seen, a, b);
    if Partial(max, a) {
      assert seen + [] == seen;
      AfterNothing(Parse(judge, max, seen, a + b));
    } else if FrameLength(a) > max {
      NoFrame(judge, max, seen, a, []);
      assert a + [] == a;
    } else {
      var frame, tail := a[..4 + FrameLength(a)], a[4 + FrameLength(a)..];
      assert frame[..4] == a[..4] && a == frame + tail && a + b == frame + (tail + b);
      OneFrame(judge, max, seen, frame, tail);
      OneFrame(judge, max, seen, frame, tail + b);
      hide FrameLength;
      ResumesAfterOne(judge, max, seen, frame[4..], tail, b);
    }
  }

  lemma ResumesAfterOne(judge: Judge, max: nat, seen: seq<Bytes>, payload: Bytes, tail: Bytes, b: Bytes)
    ensures var later := Parse(judge, max, seen + [payload], tail); var first := later.After([payload]);
            Parse(judge, max, seen + [payload], tail + b).After([payload]) ==
            if later.error.Some? then first
            else Parse(judge, max, seen + first.messages, first.rest + b).After(first.messages)
    decreases |tail|, 1
  {
    hide Parse;
    var later := Parse(judge, max, seen + [payload], tail);
    ParseResumes(judge, max, seen + [payload], tail, b);
    if later.error.None? {
      assert seen + [payload] + later.messages == seen + ([payload] + later.messages);
      AfterTwice(Parse(judge, max, seen + [payload] + later.messages, later.rest + b), later.messages, [payload]);
    }
  }

  // ---------- The reader ----------

  class MessageReader {
    const max: nat
    const judge: Judge
    var buffer: Bytes
    var seen: seq<Bytes>    // every message handled since the reader was created

    constructor (judge: Judge, max: nat)
      ensures this.judge == judge && this.max == max
      ensures buffer == [] && seen == []
    {
      this.judge, this.max, this.buffer, this.seen := judge, max, [], [];
    }

    /** Moves up to `wanted` bytes from the chunk to the buffer. */
    method Take(chunk: Bytes, wanted: nat) returns (left: Bytes)
      modifies this`buffer
      ensures buffer + left == old(buffer) + chunk
      ensures old(buffer) <= buffer
      ensures |buffer| == |old(buffer)| + if wanted < |chunk| then wanted else |chunk|
      ensures wanted > 0 && chunk != [] ==> |left| < |chunk|
    {
      var count := if wanted < |chunk| then wanted else |chunk|;
      buffer := buffer + chunk[..count];
      left := chunk[count..];
    }

    /** One `data` event. The loop ends because every round takes at least one byte. */
    method Feed(data: Bytes) returns (error: Option<ReaderError>)
      requires Partial(max, buffer)
      modifies this
      ensures var o := Parse(judge, max, old(seen), old(buffer) + data);
              seen == old(seen) + o.messages && buffer == o.rest && error == o.error
      ensures Partial(max, buffer) && |buffer| < 4 + max
    {
      hide Parse;
      var remaining := data;
      ghost var whole := Parse(judge, max, seen, buffer + data);
      ghost var emitted: seq<Bytes> := [];
      AfterNothing(whole);
      while |remaining| > 0
        invariant Partial(max, buffer)
        invariant seen == old(seen) + emitted
        invariant whole == Parse(judge, max, seen, buffer + remaining).After(emitted)
        decreases |remaining|
      {
        if |buffer| < 4 {
          remaining := Take(remaining, 4 - |buffer|);
          if |buffer| < 4 {
            assert buffer + remaining == buffer;
            NoFrame(judge, max, seen, buffer, []);
            return None;
          }
        }
        var length := FrameLength(buffer);
        if length > max {
          NoFrame(judge, max, seen, buffer, remaining);
          buffer := [];
          return Some(Oversized(length));
        }
        remaining := TakeFrame(remaining);
        if |buffer| < 4 + length {
          assert buffer + remaining == buffer;
          NoFrame(judge, max, seen, buffer, []);
          return None;
        }
        OneFrame(judge, max, seen, buffer, remaining);
        var payload := buffer[4..4 + length];
        assert payload == buffer[4..] && [] + remaining == remaining;
        buffer := [];
        match judge(seen, payload) {
          case ParseThrew => return Some(FailedToParse(payload));
          case HandlerThrew => return Some(FailedToHandle(payload));
          case Handled =>
            AfterTwice(Parse(judge, max, seen + [payload], remaining), [payload], emitted);
            seen := seen + [payload];
            emitted := emitted + [payload];
        }
      }
      assert buffer + remaining == buffer;
      NoFrame(judge, max, seen, buffer, []);
      return None;
    }

    /** Moves what is missing of the announced frame. */
    method TakeFrame(chunk: Bytes) returns (left: Bytes)
      requires |buffer| >= 4 && |buffer| <= 4 + FrameLength(buffer)
      modifies this`buffer
      ensures buffer + left == old(buffer) + chunk && |buffer| >= 4 && FrameLength(buffer) == FrameLength(old(buffer))
      ensures |buffer| <= 4 + FrameLength(buffer) && (|buffer| < 4 + FrameLength(buffer) ==> left == [])
      ensures |left| <= |chunk| && (|old(buffer)| < 4 + FrameLength(old(buffer)) && chunk != [] ==> |left| < |chunk|)
    {
      ghost var before := buffer;
      left := Take(chunk, 4 + FrameLength(buffer) - |buffer|);
      assert buffer[..4] == before[..4];
    }
  }

  // ---------- Chunking does not matter ----------

  function Flatten(chunks: seq<Bytes>): Bytes {
    if chunks == [] then [] else chunks[0] + Flatten(chunks[1..])
  }

  /** Feeding chunk after chunk, up to the first error, by what `MessageReader.Feed` promises. */
  ghost function Fed(judge: Judge, max: nat, seen: seq<Bytes>, buffer: Bytes, chunks: seq<Bytes>): Outcome
    decreases |chunks|
  {
    if chunks == [] then Outcome([], buffer, None)
    else
      var first := Parse(judge, max, seen, buffer + chunks[0]);
      if first.error.Some? then first
      else Fed(judge, max, seen + first.messages, first.rest, chunks[1..]).After(first.messages)
  }

  lemma {:induction false} ChunksAreOneStretch(judge: Judge, max: nat, seen: seq<Bytes>, buffer: Bytes, chunks: seq<Bytes>)
    requires Partial(max, buffer)
    ensures Fed(judge, max, seen, buffer, chunks) == Parse(judge, max, seen, buffer + Flatten(chunks))
    decreases |chunks|
  {
    if chunks == [] {
      assert buffer + Flatten(chunks) == buffer;
    } else {
      var first := Parse(judge, max, seen, buffer + chunks[0]);
      assert buffer + Flatten(chunks) == buffer + chunks[0] + Flatten(chunks[1..]);
      ParseResumes(judge, max, seen, buffer + chunks[0], Flatten(chunks[1..]));
      if first.error.None? {
        RestIsPartial(judge, max, seen, buffer + chunks[0]);
        ChunksAreOneStretch(judge, max, seen + first.messages, first.rest, chunks[1..]);
      }
    }
  }

  /** Two ways of cutting the same bytes give the same messages, the same first error and
      the same kept bytes. */
  lemma ChunkingIsInvisible(judge: Judge, max: nat, chunks: seq<Bytes>, other: seq<Bytes>)
    requires Flatten(chunks) == Flatten(other)
    ensures Fed(judge, max, [], [], chunks) == Fed(judge, max, [], [], other)
  {
    ChunksAreOneStretch(judge, max, [], [], chunks);
    ChunksAreOneStretch(judge, max, [], [], other);
  }

  // ---------- The reader undoes the writer ----------

  ghost predicate AllHandled(judge: Judge, seen: seq<Bytes>, payloads: seq<Bytes>) {
    forall i :: 0 <= i < |payloads| ==> judge(seen + payloads[..i], payloads[i]) == Handled
  }

  lemma {:induction false} ParseUndoesStream(judge: Judge, max: nat, seen: seq<Bytes>, payloads: seq<Bytes>)
    requires Writable(payloads) && AllHandled(judge, seen, payloads)
    requires forall i :: 0 <= i < |payloads| ==> |payloads[i]| <= max
    ensures Parse(judge, max, seen, Stream(payloads)) == Outcome(payloads, [], None)
    decreases |payloads|
  {
    if payloads != [] {
      var p, later := payloads[0], payloads[1..];
      var frame := BigEndian(|p|, 4) + p;
      assert Limit(4) == UINT32_LIMIT;
      ValueOfBigEndian(|p|, 4);
      assert frame[..4] == BigEndian(|p|, 4) && frame[4..] == p;
      assert seen + payloads[..0] == seen;
      assert AllHandled(judge, seen + [p], later) by {
        forall i | 0 <= i < |later| ensures judge(seen + [p] + later[..i], later[i]) == Handled {
          assert seen + [p] + later[..i] == seen + payloads[..i + 1];
        }
      }
      hide Parse, BigEndian, Value;
      OneFrame(judge, max, seen, frame, Stream(later));
      ParseUndoesStream(judge, max, seen + [p], later);
      assert [p] + later == payloads;
    } else {
      NoFrame(judge, max, seen, [], []);
    }
  }

  /** Whatever way the frames of some payloads are cut into chunks, the reader hands over
      exactly those payloads, in order, reports nothing and keeps nothing. */
  lemma ReaderUndoesWriter(judge: Judge, max: nat, payloads: seq<Bytes>, chunks: seq<Bytes>)
    requires Writable(payloads) && AllHandled(judge, [], payloads)
    requires forall i :: 0 <= i < |payloads| ==> |payloads[i]| <= max
    requires Flatten(chunks) == Stream(payloads)
    ensures Fed(judge, max, [], [], chunks) == Outcome(payloads, [], None)
  {
    ChunksAreOneStretch(judge, max, [], [], chunks);
    ParseUndoesStream(judge, max, [], payloads);
    assert [] + Flatten(chunks) == Stream(payloads);
  }

  /** The converse: without an error no byte is lost or invented. */
  lemma {:induction false} NoByteIsLost(judge: Judge, max: nat, seen: seq<Bytes>, s: Bytes)
    requires Parse(judge, max, seen, s).error.None?
    ensures var o := Parse(judge, max, seen, s);
            Writable(o.messages) && s == Stream(o.messages) + o.rest
    decreases |s|
  {
    var o := Parse(judge, max, seen, s);
    if |s| < 4 || |s| < 4 + FrameLength(s) {
      assert [] + s == s;
    } else {
      var length := FrameLength(s);
      var payload, tail := s[4..4 + length], s[4 + length..];
      NoByteIsLost(judge, max, seen + [payload], tail);
      FrameIsWritten(s);
      hide FrameLength, WriteMessage, Stream;
      OneFrameMore(s, payload, tail, Parse(judge, max, seen + [payload], tail));
    }
  }

  /** The first complete frame of a stretch is what the writer makes of its payload. */
  lemma FrameIsWritten(s: Bytes)
    requires |s| >= 4 && |s| >= 4 + FrameLength(s)
    ensures var payload := s[4..4 + FrameLength(s)];
            WriteMessage(payload) == Some(s[..4] + payload) && s == s[..4] + payload + s[4 + FrameLength(s)..]
  {
    BigEndianOfValue(s[..4]);
    assert Limit(4) == UINT32_LIMIT;
    hide Value, BigEndian, Limit;
  }

  lemma OneFrameMore(s: Bytes, payload: Bytes, tail: Bytes, later: Outcome)
    requires |s| >= 4 && WriteMessage(payload) == Some(s[..4] + payload) && s == s[..4] + payload + tail
    requires Writable(later.messages) && tail == Stream(later.messages) + later.rest
    ensures var o := later.After([payload]); Writable(o.messages) && s == Stream(o.messages) + o.rest
  {
    var messages := [payload] + later.messages;
    assert messages[1..] == later.messages;
    assert forall i :: 0 <= i < |messages| ==> messages[i] == if i == 0 then payload else later.messages[i - 1];
    hide BigEndian;
  }

  /** Framing is unambiguous: different payload sequences never share their bytes. */
  lemma StreamsAreDistinct(payloads: seq<Bytes>, other: seq<Bytes>)
    requires Writable(payloads) && Writable(other)
    requires Stream(payloads) == Stream(other)
    ensures payloads == other
  {
    var judge: Judge := (_, _) => Handled;
    ParseUndoesStream(judge, UINT32_LIMIT, [], payloads);
    ParseUndoesStream(judge, UINT32_LIMIT, [], other);
  }
}
