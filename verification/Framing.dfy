/** CRLF framing under a byte limit (LineDecoder and the DATA decoders in crates/protocol/src/lib.rs). */
module Framing {
  import opened Wrappers

  type Byte = x: int | 0 <= x < 256

  const CR: Byte := 13
  const LF: Byte := 10
  const DOT: Byte := 46
  const CRLF: seq<Byte> := [CR, LF]
  const END: seq<Byte> := [DOT, CR, LF]
  const LINE := 1000

  datatype FrameError = TooLong | InvalidLineEnding

  predicate Ascii(s: seq<Byte>) { forall i :: 0 <= i < |s| ==> s[i] < 128 }

  function Flatten(parts: seq<seq<Byte>>): (r: seq<Byte>) {
    if parts == [] then [] else Flatten(parts[..|parts| - 1]) + parts[|parts| - 1]
  }

  // ---------------------------------------------------------------- what a frame is

  /** Bytes that may stand inside a line. */
  predicate Plain(b: Byte) { b != 0 && b != CR && b != LF }

  predicate AllPlain(s: seq<Byte>) { forall i :: 0 <= i < |s| ==> Plain(s[i]) }

  /** A whole line with its ending: no NUL and no other CR or LF. */
  predicate Frame(f: seq<Byte>, limit: nat) {
    2 <= |f| <= limit && f[|f| - 2..] == CRLF && AllPlain(f[..|f| - 2])
  }

  /** The beginning of a line: its CR, if any, is its last byte. */
  predicate Partial(s: seq<Byte>, limit: nat) {
    |s| <= limit && (s == [] || (AllPlain(s[..|s| - 1]) && (Plain(s[|s| - 1]) || s[|s| - 1] == CR)))
  }

  predicate Frames(fs: seq<seq<Byte>>, limit: nat) { forall i :: 0 <= i < |fs| ==> Frame(fs[i], limit) }

  // ---------------------------------------------------------------- one-shot decoding

  /** Frames found so far, the bytes of the unfinished line, and the first error, which is final. */
  datatype Progress = Progress(frames: seq<seq<Byte>>, rest: seq<Byte>, error: Option<FrameError>)

  const START := Progress([], [], None)

  /** The length is looked at first, then the ending. */
  function Check(buffer: seq<Byte>, byte: Byte, limit: nat): Option<FrameError> {
    if |buffer| == limit then Some(TooLong)
    else
      var afterCr := buffer != [] && buffer[|buffer| - 1] == CR;
      if byte == 0 || (byte == LF && !afterCr) || (afterCr && byte != LF) then Some(InvalidLineEnding) else None
  }

  function Push(p: Progress, byte: Byte, limit: nat): Progress {
    if p.error.Some? then p
    else
      var error := Check(p.rest, byte, limit);
      if error.Some? then p.(error := error)
      else if byte == LF then Progress(p.frames + [p.rest + [byte]], [], None)
      else p.(rest := p.rest + [byte])
  }

  function Consume(p: Progress, input: seq<Byte>, limit: nat): Progress {
    if input == [] then p else Push(Consume(p, input[..|input| - 1], limit), input[|input| - 1], limit)
  }

  /** Frames once decoded stay. */
  lemma {:induction false} Extends(p: Progress, input: seq<Byte>, limit: nat)
    ensures p.frames <= Consume(p, input, limit).frames
  {
    if input != [] {
      Extends(p, input[..|input| - 1], limit);
    }
  }

  /** Decoding in pieces is decoding at once. */
  lemma {:induction false} ConsumeConcat(p: Progress, a: seq<Byte>, b: seq<Byte>, limit: nat)
    ensures Consume(p, a + b, limit) == Consume(Consume(p, a, limit), b, limit)
  {
    if b == [] {
      assert a + b == a;
    } else {
      ConsumeConcat(p, a, b[..|b| - 1], limit);
      assert (a + b)[..|a + b| - 1] == a + b[..|b| - 1];
    }
  }

  lemma {:induction false} ErrorSticks(p: Progress, input: seq<Byte>, limit: nat)
    requires p.error.Some?
    ensures Consume(p, input, limit) == p
  {
    if input != [] {
      ErrorSticks(p, input[..|input| - 1], limit);
    }
  }

  /** Earlier frames only stand in front. */
  lemma {:induction false} ConsumeShifts(fs: seq<seq<Byte>>, p: Progress, input: seq<Byte>, limit: nat)
    ensures Consume(p.(frames := fs + p.frames), input, limit)
            == var q := Consume(p, input, limit); q.(frames := fs + q.frames)
  {
    if input != [] {
      ConsumeShifts(fs, p, input[..|input| - 1], limit);
      var q := Consume(p, input[..|input| - 1], limit);
      assert fs + (q.frames + [q.rest + [input[|input| - 1]]]) == fs + q.frames + [q.rest + [input[|input| - 1]]];
    }
  }

  lemma Join(a: seq<Byte>, b: seq<Byte>, c: seq<Byte>)
    ensures a + b + c == a + (b + c)
  {
  }

  lemma FlattenAppend(fs: seq<seq<Byte>>, f: seq<Byte>)
    ensures Flatten(fs + [f]) == Flatten(fs) + f
  {
    assert (fs + [f])[..|fs|] == fs;
  }

  lemma {:induction false} FlattenConcat(a: seq<seq<Byte>>, b: seq<seq<Byte>>)
    ensures Flatten(a + b) == Flatten(a) + Flatten(b)
  {
    if b == [] {
      assert a + b == a;
    } else {
      FlattenConcat(a, b[..|b| - 1]);
      assert (a + b)[..|a + b| - 1] == a + b[..|b| - 1];
    }
  }

  lemma {:induction false} FlattenAround(chunks: seq<seq<Byte>>, i: nat)
    requires i < |chunks|
    ensures Flatten(chunks[..i + 1]) == Flatten(chunks[..i]) + chunks[i]
    ensures Flatten(chunks) == Flatten(chunks[..i]) + chunks[i] + Flatten(chunks[i + 1..])
  {
    assert chunks[..i + 1][..i] == chunks[..i];
    FlattenConcat(chunks[..i + 1], chunks[i + 1..]);
    assert chunks[..i + 1] + chunks[i + 1..] == chunks;
  }

  ghost predicate Sound(p: Progress, limit: nat) { Frames(p.frames, limit) && Partial(p.rest, limit) }

  lemma PushSound(p: Progress, byte: Byte, limit: nat)
    requires Sound(p, limit)
    ensures Sound(Push(p, byte, limit), limit)
  {
    if p.error.None? && Check(p.rest, byte, limit).None? {
      var b := p.rest + [byte];
      assert b[..|p.rest|] == p.rest;
      if byte == LF {
        assert b[|b| - 2..] == CRLF && b[..|b| - 2] == p.rest[..|p.rest| - 1];
      }
    }
  }

  /** How many bytes of the input were taken; the next one, if any, is the offending one. */
  function Taken(p: Progress): nat { |Flatten(p.frames)| + |p.rest| }

  /** The state accounts for the input: frames and rest are the bytes taken, an error is its first offence. */
  ghost predicate Accounts(p: Progress, input: seq<Byte>, limit: nat) {
    && Taken(p) <= |input|
    && Flatten(p.frames) + p.rest == input[..Taken(p)]
    && (p.error.None? <==> Taken(p) == |input|)
    && (p.error.Some? ==> Check(p.rest, input[Taken(p)], limit) == p.error)
  }

  lemma PushAccounts(p: Progress, before: seq<Byte>, byte: Byte, limit: nat)
    requires Accounts(p, before, limit)
    ensures Accounts(Push(p, byte, limit), before + [byte], limit)
  {
    var input := before + [byte];
    if p.error.Some? {
      assert before[..Taken(p)] == input[..Taken(p)];
    } else {
      assert Flatten(p.frames) + p.rest == before == input[..|before|];
      FlattenAppend(p.frames, p.rest + [byte]);
      assert Flatten(p.frames) + (p.rest + [byte]) == input == input[..|input|];
    }
  }

  /**
   * Nothing is lost, invented or reordered: frames plus buffered bytes are the input consumed, every
   * frame is a whole legal line within the limit, and an error names exactly its first offence.
   */
  lemma {:induction false} ConsumeSound(input: seq<Byte>, limit: nat)
    ensures Sound(Consume(START, input, limit), limit) && Accounts(Consume(START, input, limit), input, limit)
  {
    if input != [] {
      var before, byte := input[..|input| - 1], input[|input| - 1];
      ConsumeSound(before, limit);
      PushSound(Consume(START, before, limit), byte, limit);
      PushAccounts(Consume(START, before, limit), before, byte, limit);
      assert before + [byte] == input;
    }
  }

  /** Legal bytes of one line are taken one by one. */
  lemma {:induction false} ConsumePartial(fs: seq<seq<Byte>>, s: seq<Byte>, limit: nat)
    requires Partial(s, limit)
    ensures Consume(Progress(fs, [], None), s, limit) == Progress(fs, s, None)
  {
    if s != [] {
      var t := s[..|s| - 1];
      ConsumePartial(fs, t, limit);
      assert t + [s[|s| - 1]] == s;
    }
  }

  lemma ConsumeFrame(fs: seq<seq<Byte>>, f: seq<Byte>, limit: nat)
    requires Frame(f, limit)
    ensures Consume(Progress(fs, [], None), f, limit) == Progress(fs + [f], [], None)
  {
    var t := f[..|f| - 1];
    assert f[|f| - 2] == f[|f| - 2..][0] == CR && f[|f| - 1] == f[|f| - 2..][1] == LF;
    assert t[..|t| - 1] == f[..|f| - 2];
    ConsumePartial(fs, t, limit);
    assert t + [f[|f| - 1]] == f;
  }

  /** A stream of legal lines is taken apart into exactly those lines. */
  lemma {:induction false} ConsumeFrames(fs: seq<seq<Byte>>, p: seq<Byte>, limit: nat)
    requires Frames(fs, limit) && Partial(p, limit)
    ensures Consume(START, Flatten(fs) + p, limit) == Progress(fs, p, None)
  {
    ConsumeWhole(fs, limit);
    ConsumeConcat(START, Flatten(fs), p, limit);
    ConsumePartial(fs, p, limit);
  }

  lemma {:induction false} ConsumeWhole(fs: seq<seq<Byte>>, limit: nat)
    requires Frames(fs, limit)
    ensures Consume(START, Flatten(fs), limit) == Progress(fs, [], None)
  {
    if fs != [] {
      var n := |fs| - 1;
      ConsumeWhole(fs[..n], limit);
      ConsumeConcat(START, Flatten(fs[..n]), fs[n], limit);
      ConsumeFrame(fs[..n], fs[n], limit);
      assert fs[..n] + [fs[n]] == fs;
    }
  }

  /** Decoding fails exactly on streams that are not lines followed by the beginning of one. */
  lemma AcceptsExactlyLines(input: seq<Byte>, limit: nat)
    ensures Consume(START, input, limit).error.None?
            <==> exists fs, p :: Frames(fs, limit) && Partial(p, limit) && Flatten(fs) + p == input
  {
    ConsumeSound(input, limit);
    var q := Consume(START, input, limit);
    if q.error.None? {
      assert Flatten(q.frames) + q.rest == input;
    }
    if fs, p :| Frames(fs, limit) && Partial(p, limit) && Flatten(fs) + p == input {
      ConsumeFrames(fs, p, limit);
    }
  }

  // ---------------------------------------------------------------- the decoder

  /** One byte, then the rest. */
  lemma {:induction false} ConsumeFirst(p: Progress, input: seq<Byte>, limit: nat)
    requires input != []
    ensures Consume(p, input, limit) == Consume(Push(p, input[0], limit), input[1..], limit)
  {
    ConsumeConcat(p, [input[0]], input[1..], limit);
    assert [input[0]] + input[1..] == input;
    assert [input[0]][..0] == [] && Consume(p, [input[0]], limit) == Push(Consume(p, [], limit), input[0], limit);
  }

  /** What the next byte does to a decoder that holds `buffer`. */
  lemma FeedOne(buffer: seq<Byte>, rest: seq<Byte>, limit: nat)
    requires rest != [] && Partial(buffer, limit)
    ensures var end := Consume(Progress([], buffer, None), rest, limit);
            var fault, more := Check(buffer, rest[0], limit), buffer + [rest[0]];
            && (fault.Some? ==> end == Progress([], buffer, fault))
            && (fault.None? && rest[0] == LF ==>
                Frame(more, limit) && end == Consume(Progress([more], [], None), rest[1..], limit))
            && (fault.None? && rest[0] != LF ==>
                Partial(more, limit) && end == Consume(Progress([], more, None), rest[1..], limit))
  {
    var p := Progress([], buffer, None);
    ConsumeFirst(p, rest, limit);
    PushSound(p, rest[0], limit);
    if Check(buffer, rest[0], limit).Some? {
      ErrorSticks(Push(p, rest[0], limit), rest[1..], limit);
    } else if rest[0] == LF {
      assert [] + [buffer + [rest[0]]] == [buffer + [rest[0]]];
      assert Frame(Push(p, rest[0], limit).frames[0], limit);
    }
  }

  lemma Consumed(held: seq<Byte>, bytes: seq<Byte>, buffer: seq<Byte>, rest: seq<Byte>)
    requires |buffer| >= |held| && buffer + rest == held + bytes
    ensures var used := |bytes| - |rest|;
            0 <= used <= |bytes| && buffer == held + bytes[..used] && rest == bytes[used..]
  {
    var all, used := held + bytes, |bytes| - |rest|;
    assert buffer == all[..|buffer|] && rest == all[|buffer|..];
    assert all[..|held| + used] == held + bytes[..used] && all[|held| + used..] == bytes[used..];
  }

  /**
   * The byte loop: the new buffer, the bytes used and whether a line is complete, or the buffer at the first
   * offence.
   */
  method FeedLoop(held: seq<Byte>, bytes: seq<Byte>, limit: nat)
    returns (r: Result<seq<Byte>, (seq<Byte>, FrameError)>, used: nat, done: bool)
    requires Partial(held, limit)
    ensures r.Err? ==> Partial(r.error.0, limit)
                       && Consume(Progress([], held, None), bytes, limit) == Progress([], r.error.0, Some(r.error.1))
    ensures r.Ok? ==>
              && used <= |bytes| && r.value == held + bytes[..used] && (if done then used > 0 else used == |bytes|)
              && (if done then Frame(r.value, limit) else Partial(r.value, limit))
              && Consume(Progress([], held, None), bytes, limit)
                 == Consume(if done then Progress([r.value], [], None) else Progress([], r.value, None),
                            bytes[used..], limit)
  {
    var buffer, rest := held, bytes;
    used, done := 0, false;
    ghost var end := Consume(Progress([], held, None), bytes, limit);
    while rest != []
      invariant Partial(buffer, limit) && |buffer| >= |held| && buffer + rest == held + bytes
      invariant Consume(Progress([], buffer, None), rest, limit) == end
      decreases |rest|
    {
      var byte := rest[0];
      FeedOne(buffer, rest, limit);
      var fault := Check(buffer, byte, limit);
      if fault.Some? {
        return Err((buffer, fault.value)), 0, false;
      }
      Shifted(buffer, rest);
      buffer, rest := buffer + [byte], rest[1..];
      if byte == LF {
        Consumed(held, bytes, buffer, rest);
        return Ok(buffer), |bytes| - |rest|, true;
      }
    }
    Consumed(held, bytes, buffer, rest);
    return Ok(buffer), |bytes|, false;
  }

  lemma Shifted(buffer: seq<Byte>, rest: seq<Byte>)
    requires rest != []
    ensures buffer + [rest[0]] + rest[1..] == buffer + rest
  {
    assert [rest[0]] + rest[1..] == rest;
  }

  class LineDecoder {
    var buffer: seq<Byte>
    const limit: nat
    var complete: bool

    ghost predicate Valid()
      reads this
    {
      if complete then Frame(buffer, limit) else Partial(buffer, limit)
    }

    constructor (limit: nat)
      ensures Valid() && this.limit == limit && buffer == [] && !complete
    {
      this.limit := limit;
      buffer, complete := [], false;
    }

    /** What the decoder has taken since it was last cleared. */
    ghost function Held(): Progress
      reads this
    {
      if complete then Progress([buffer], [], None) else Progress([], buffer, None)
    }

    /** Takes at most one line; the caller keeps the bytes not used. */
    method FeedBuffered(bytes: seq<Byte>) returns (r: Result<(nat, bool), FrameError>)
      requires Valid()
      modifies this
      ensures Valid()
      ensures r.Ok? ==>
                && r.value.0 <= |bytes| && r.value.1 == complete && (complete || r.value.0 == |bytes|)
                && (complete && !old(complete) ==> r.value.0 > 0)
                && Consume(old(Held()), bytes, limit) == Consume(Held(), bytes[r.value.0..], limit)
                && buffer == old(buffer) + bytes[..r.value.0]
      ensures r.Err? ==> !complete && Consume(old(Held()), bytes, limit) == Held().(error := Some(r.error))
    {
      if complete {
        return Ok((0, true));
      }
      var fed, used, done := FeedLoop(buffer, bytes, limit);
      if fed.Err? {
        buffer := fed.error.0;
        return Err(fed.error.1);
      }
      buffer, complete := fed.value, done;
      return Ok((used, done));
    }

    /** Hands over a completed line without its ending. */
    method TakeLine() returns (line: Option<seq<Byte>>)
      requires Valid()
      modifies this
      ensures Valid() && !complete
      ensures line.Some? <==> old(complete)
      ensures line.Some? ==> line.value + CRLF == old(buffer) && AllPlain(line.value) && buffer == []
      ensures line.None? ==> buffer == old(buffer)
    {
      if !complete {
        return None;
      }
      complete := false;
      line := Some(buffer[..|buffer| - 2]);
      buffer := [];
    }

    method Clear()
      modifies this
      ensures Valid() && buffer == [] && !complete
    {
      buffer, complete := [], false;
    }
  }

  /** The same decoding with earlier frames in front. */
  lemma Behind(frames: seq<seq<Byte>>, p: Progress, input: seq<Byte>, limit: nat, q: Progress, rest: seq<Byte>)
    requires p.frames == [] && Consume(p, input, limit) == Consume(q, rest, limit)
    ensures Consume(p.(frames := frames), input, limit) == Consume(q.(frames := frames + q.frames), rest, limit)
  {
    ConsumeShifts(frames, p, input, limit);
    ConsumeShifts(frames, q, rest, limit);
    assert frames + [] == frames;
  }

  /** How every caller takes the next frame out: feed, use the frame, clear. */
  method NextFrame(decoder: LineDecoder, bytes: seq<Byte>, ghost frames: seq<seq<Byte>>)
    returns (r: Result<Option<seq<Byte>>, FrameError>, used: nat)
    requires decoder.Valid() && !decoder.complete && bytes != []
    modifies decoder
    ensures decoder.Valid() && !decoder.complete && 0 < used <= |bytes|
    ensures r.Err? ==> Consume(Progress(frames, old(decoder.buffer), None), bytes, decoder.limit)
                       == Progress(frames, decoder.buffer, Some(r.error))
    ensures r.Ok? ==> Consume(Progress(frames, old(decoder.buffer), None), bytes, decoder.limit)
                      == Consume(Progress(frames + AsList(r.value), decoder.buffer, None), bytes[used..], decoder.limit)
    ensures r.Ok? ==> (if r.value.Some? then r.value.value else decoder.buffer) == old(decoder.buffer) + bytes[..used]
    ensures r.Ok? ==>
              if r.value.Some? then Frame(r.value.value, decoder.limit) && decoder.buffer == [] else used == |bytes|
  {
    ghost var begin := decoder.Held();
    var fed := decoder.FeedBuffered(bytes);
    if fed.Err? {
      assert Consume(decoder.Held().(error := Some(fed.error)), [], decoder.limit)
             == decoder.Held().(error := Some(fed.error));
      Behind(frames, begin, bytes, decoder.limit, decoder.Held().(error := Some(fed.error)), []);
      assert frames + [] == frames;
      return Err(fed.error), |bytes|;
    }
    used := fed.value.0;
    Behind(frames, begin, bytes, decoder.limit, decoder.Held(), bytes[used..]);
    assert frames + [] == frames;
    r := Ok(None);
    if fed.value.1 {
      r := Ok(Some(decoder.buffer));
      decoder.Clear();
    }
  }

  /** The caller's loop over one chunk: take every line out, keep the rest in the decoder. */
  method TakeFrames(decoder: LineDecoder, chunk: seq<Byte>) returns (frames: seq<seq<Byte>>, error: Option<FrameError>)
    requires decoder.Valid() && !decoder.complete
    modifies decoder
    ensures decoder.Valid() && !decoder.complete
    ensures Consume(Progress([], old(decoder.buffer), None), chunk, decoder.limit)
            == Progress(frames, decoder.buffer, error)
  {
    frames, error := [], None;
    var bytes := chunk;
    ghost var end := Consume(Progress([], decoder.buffer, None), chunk, decoder.limit);
    while bytes != []
      invariant decoder.Valid() && !decoder.complete
      invariant Consume(Progress(frames, decoder.buffer, None), bytes, decoder.limit) == end
      decreases |bytes|
    {
      var next, used := NextFrame(decoder, bytes, frames);
      if next.Err? {
        return frames, Some(next.error);
      }
      bytes := bytes[used..];
      frames := frames + AsList(next.value);
    }
  }

  lemma {:induction false} FlattenFront(f: seq<Byte>, fs: seq<seq<Byte>>)
    ensures Flatten([f] + fs) == f + Flatten(fs)
  {
    FlattenConcat([f], fs);
    assert Flatten([f]) == Flatten([f][..0]) + f == f;
  }

  /** One chunk, then the others. */
  lemma ConsumeChunk(p: Progress, chunks: seq<seq<Byte>>, limit: nat)
    requires chunks != []
    ensures Consume(p, Flatten(chunks), limit) == Consume(Consume(p, chunks[0], limit), Flatten(chunks[1..]), limit)
  {
    assert [chunks[0]] + chunks[1..] == chunks;
    FlattenFront(chunks[0], chunks[1..]);
    ConsumeConcat(p, chunks[0], Flatten(chunks[1..]), limit);
  }

  /** However the stream is cut into reads, frames, leftover and first error are those of the whole. */
  method DecodeChunks(chunks: seq<seq<Byte>>, limit: nat) returns (p: Progress)
    ensures p == Consume(START, Flatten(chunks), limit)
  {
    var decoder := new LineDecoder(limit);
    p := START;
    var rest := chunks;
    while rest != []
      invariant decoder.Valid() && !decoder.complete && decoder.limit == limit && fresh(decoder)
      invariant p.rest == decoder.buffer && p.error.None?
      invariant Consume(p, Flatten(rest), limit) == Consume(START, Flatten(chunks), limit)
      decreases |rest|
    {
      ConsumeChunk(p, rest, limit);
      var frames, error := TakeFrames(decoder, rest[0]);
      Continued(p, rest[0], limit, Progress(frames, decoder.buffer, error));
      p := Progress(p.frames + frames, decoder.buffer, error);
      rest := rest[1..];
      if error.Some? {
        ErrorSticks(p, Flatten(rest), limit);
        return;
      }
    }
  }

  /** What a decoder holding `p.rest` makes of the next chunk. */
  lemma Continued(p: Progress, chunk: seq<Byte>, limit: nat, q: Progress)
    requires p.error.None? && Consume(Progress([], p.rest, None), chunk, limit) == q
    ensures Consume(p, chunk, limit) == q.(frames := p.frames + q.frames)
  {
    ConsumeShifts(p.frames, Progress([], p.rest, None), chunk, limit);
    assert p.frames + [] == p.frames;
  }

  // ---------------------------------------------------------------- DATA

  /** decode_data_line: an owned line without its ending. */
  function DataLine(line: seq<Byte>): Result<Option<seq<Byte>>, FrameError> {
    if line == [DOT] then Ok(None)
    else
      var rest := if line != [] && line[0] == DOT then line[1..] else line;
      if |rest| + 2 > LINE then Err(TooLong) else Ok(Some(rest + CRLF))
  }

  /** decode_data_frame: a borrowed frame with its ending. */
  function DataFrame(frame: seq<Byte>): Result<Option<seq<Byte>>, FrameError> {
    if !(|frame| >= 2 && frame[|frame| - 2..] == CRLF) then Err(InvalidLineEnding)
    else if frame == END then Ok(None)
    else
      var data := if frame[0] == DOT then frame[1..] else frame;
      if |data| > LINE then Err(TooLong) else Ok(Some(data))
  }

  /** The two DATA decoders agree on every line. */
  lemma DecodersAgree(line: seq<Byte>)
    ensures DataLine(line) == DataFrame(line + CRLF)
  {
    var frame := line + CRLF;
    assert frame[|frame| - 2..] == CRLF;
    if frame == END {
      assert line == frame[..|frame| - 2] == [DOT];
    }
    if line != [] && line[0] == DOT {
      assert frame[1..] == line[1..] + CRLF;
    }
    if line == [DOT] {
      assert frame == END;
    }
  }
}
