/** The body transfer of a relay attempt (send_body in crates/client/src/smtp.rs) and its receiving end. */
module Transfer {
  import opened Wrappers
  import opened Framing
  import opened Tables

  /** `omit`: the stored trace line that is not sent on; `size`: the stored length. */
  datatype Outgoing = Outgoing(omit: seq<Byte>, body: BodyMode, size: nat)

  // ---------------------------------------------------------------- what may be sent, and what is sent

  /** Frame `i` is allowed after the frames before it. */
  predicate LegalAt(frames: seq<seq<Byte>>, i: nat, m: Outgoing)
    requires i < |frames|
  {
    && (CRLF !in frames[..i] || m.body == SevenBit ==> Ascii(frames[i]))
    && (i == 0 && m.omit != [] ==> frames[0] == m.omit)
  }

  predicate Legal(frames: seq<seq<Byte>>, m: Outgoing) {
    forall i :: 0 <= i < |frames| ==> LegalAt(frames, i, m)
  }

  /**
   * A message that can be relayed: whole CRLF lines of at most 1000 bytes, a header separator, ASCII
   * where it is required, the omitted line first, and exactly the recorded length.
   */
  predicate Sendable(message: seq<Byte>, m: Outgoing) {
    var p := Consume(START, message, LINE);
    |message| == m.size && p.error.None? && p.rest == [] && CRLF in p.frames && Legal(p.frames, m)
  }

  function Stuff(frame: seq<Byte>): seq<Byte> {
    if frame != [] && frame[0] == DOT then [DOT] + frame else frame
  }

  function Stuffed(frames: seq<seq<Byte>>): (r: seq<seq<Byte>>)
    ensures |r| == |frames| && forall i :: 0 <= i < |r| ==> r[i] == Stuff(frames[i])
  {
    seq(|frames|, i requires 0 <= i < |frames| => Stuff(frames[i]))
  }

  /** All lines but the omitted one. */
  function Kept(frames: seq<seq<Byte>>, m: Outgoing): seq<seq<Byte>> {
    if m.omit != [] && frames != [] then frames[1..] else frames
  }

  function Wire(frames: seq<seq<Byte>>, m: Outgoing): seq<Byte> { Flatten(Stuffed(Kept(frames, m))) }

  lemma LegalStep(frames: seq<seq<Byte>>, f: seq<Byte>, m: Outgoing)
    ensures Legal(frames + [f], m) <==> Legal(frames, m) && LegalAt(frames + [f], |frames|, m)
  {
    var all := frames + [f];
    forall i | 0 <= i < |frames| ensures LegalAt(all, i, m) <==> LegalAt(frames, i, m) {
      assert all[..i] == frames[..i];
    }
  }

  /** What one more legal frame adds to the wire. */
  function Sent(first: bool, f: seq<Byte>, m: Outgoing): seq<Byte> {
    if first && m.omit != [] then [] else Stuff(f)
  }

  lemma WireStep(frames: seq<seq<Byte>>, f: seq<Byte>, m: Outgoing)
    ensures Wire(frames + [f], m) == Wire(frames, m) + Sent(frames == [], f, m)
  {
    var all := frames + [f];
    if m.omit != [] && frames == [] {
      assert Kept(all, m) == [];
    } else {
      assert Kept(all, m) == Kept(frames, m) + [f];
      assert Stuffed(Kept(all, m)) == Stuffed(Kept(frames, m)) + [Stuff(f)];
      FlattenAppend(Stuffed(Kept(frames, m)), Stuff(f));
    }
  }

  lemma StuffedLength(f: seq<Byte>, limit: nat)
    requires Frame(f, limit)
    ensures 3 * |Stuff(f)| <= 4 * |f|
  {
    assert f[|f| - 2] == f[|f| - 2..][0] == CR;
  }

  // ---------------------------------------------------------------- sending

  /** The check made on every frame. */
  predicate Refused(first: bool, headers: bool, frame: seq<Byte>, m: Outgoing) {
    || ((headers || m.body == SevenBit) && !Ascii(frame))
    || (first && m.omit != [] && frame != m.omit)
  }

  /** Where the sender stands after `frames`, having put `output` on the wire since `before`. */
  ghost predicate Sends(frames: seq<seq<Byte>>, before: seq<seq<Byte>>, first: bool, headers: bool, output: seq<Byte>,
                        m: Outgoing) {
    && first == (frames == []) && headers == (CRLF !in frames) && Legal(frames, m)
    && Wire(frames, m) == Wire(before, m) + output
  }

  lemma RefusedExactly(frames: seq<seq<Byte>>, first: bool, headers: bool, m: Outgoing, frame: seq<Byte>)
    requires first == (frames == []) && headers == (CRLF !in frames) && Legal(frames, m)
    ensures Refused(first, headers, frame, m) <==> !Legal(frames + [frame], m)
  {
    LegalStep(frames, frame, m);
    assert (frames + [frame])[..|frames|] == frames;
  }

  lemma WireGrows(frames: seq<seq<Byte>>, before: seq<seq<Byte>>, output: seq<Byte>, m: Outgoing, frame: seq<Byte>)
    requires Wire(frames, m) == Wire(before, m) + output
    ensures Wire(frames + [frame], m) == Wire(before, m) + (output + Sent(frames == [], frame, m))
  {
    WireStep(frames, frame, m);
    Join(Wire(before, m), output, Sent(frames == [], frame, m));
  }

  lemma SendsFrame(frames: seq<seq<Byte>>, before: seq<seq<Byte>>, first: bool, headers: bool, output: seq<Byte>,
                   m: Outgoing, frame: seq<Byte>)
    requires Sends(frames, before, first, headers, output, m)
    ensures Refused(first, headers, frame, m) <==> !Legal(frames + [frame], m)
    ensures !Refused(first, headers, frame, m) ==>
              Sends(frames + [frame], before, false, headers && frame != CRLF, output + Sent(first, frame, m), m)
  {
    RefusedExactly(frames, first, headers, m, frame);
    WireGrows(frames, before, output, m, frame);
  }

  /** One pass over the bytes of a read, frame by frame. */
  method SendRead(decoder: LineDecoder, chunk: seq<Byte>, m: Outgoing, first: bool, headers: bool,
                  ghost before: seq<seq<Byte>>)
    returns (ok: bool, output: seq<Byte>, first': bool, headers': bool)
    requires decoder.Valid() && !decoder.complete && decoder.limit == LINE
    requires Sends(before, before, first, headers, [], m)
    modifies decoder
    ensures decoder.Valid() && !decoder.complete
    ensures var p := Consume(Progress(before, old(decoder.buffer), None), chunk, LINE);
            && (ok <==> p.error.None? && Legal(p.frames, m))
            && (ok ==> decoder.buffer == p.rest && Sends(p.frames, before, first', headers', output, m))
    ensures ok ==> 3 * |output| <= 4 * (|old(decoder.buffer)| + |chunk|)
  {
    ok, output, first', headers' := true, [], first, headers;
    var bytes := chunk;
    ghost var end, frames := Consume(Progress(before, decoder.buffer, None), chunk, LINE), before;
    while bytes != []
      invariant decoder.Valid() && !decoder.complete
      invariant Consume(Progress(frames, decoder.buffer, None), bytes, LINE) == end
      invariant Sends(frames, before, first', headers', output, m)
      invariant 3 * |output| <= 4 * (|old(decoder.buffer)| + |chunk| - |bytes| - |decoder.buffer|)
      decreases |bytes|
    {
      var next, used := NextFrame(decoder, bytes, frames);
      if next.Err? {
        return false, [], first', headers';
      }
      bytes := bytes[used..];
      if next.value.Some? {
        var frame := next.value.value;
        SendsFrame(frames, before, first', headers', output, m, frame);
        frames := frames + [frame];
        if Refused(first', headers', frame, m) {
          Hopeless(frames, bytes, m);
          return false, [], first', headers';
        }
        StuffedLength(frame, LINE);
        output := output + Sent(first', frame, m);
        first', headers' := false, headers' && frame != CRLF;
      }
    }
  }

  /** An illegal frame cannot be made good by what follows. */
  lemma Hopeless(frames: seq<seq<Byte>>, bytes: seq<Byte>, m: Outgoing)
    requires !Legal(frames, m)
    ensures !Legal(Consume(Progress(frames, [], None), bytes, LINE).frames, m)
  {
    Extends(Progress(frames, [], None), bytes, LINE);
    var more := Consume(Progress(frames, [], None), bytes, LINE).frames;
    var i :| 0 <= i < |frames| && !LegalAt(frames, i, m);
    assert more[..i] == frames[..i] && !LegalAt(more, i, m);
  }

  function FramesOf(chunks: seq<seq<Byte>>): seq<seq<Byte>> { Consume(START, Flatten(chunks), LINE).frames }

  /** A message cut short of what was read, or refused on the way, is not sendable. */
  lemma NotSendable(message: seq<Byte>, more: seq<Byte>, m: Outgoing)
    requires |message| > m.size || Consume(START, message, LINE).error.Some?
             || !Legal(Consume(START, message, LINE).frames, m)
    ensures !Sendable(message + more, m)
  {
    ConsumeConcat(START, message, more, LINE);
    var p := Consume(START, message, LINE);
    if p.error.Some? {
      ErrorSticks(p, more, LINE);
    } else if !Legal(p.frames, m) {
      Extends(p, more, LINE);
      var q := Consume(p, more, LINE);
      var i :| 0 <= i < |p.frames| && !LegalAt(p.frames, i, m);
      assert q.frames[..i] == p.frames[..i] && !LegalAt(q.frames, i, m);
    }
  }

  /** What the outer loop has achieved after reading `message`. */
  ghost predicate SentSoFar(message: seq<Byte>, held: seq<Byte>, first: bool, headers: bool, output: seq<Byte>,
                            m: Outgoing) {
    var p := Consume(START, message, LINE);
    p.error.None? && p.rest == held && Sends(p.frames, [], first, headers, output, m)
  }

  lemma SentBefore(message: seq<Byte>, chunk: seq<Byte>, held: seq<Byte>, first: bool, headers: bool,
                   output: seq<Byte>, m: Outgoing)
    requires SentSoFar(message, held, first, headers, output, m)
    ensures var frames := Consume(START, message, LINE).frames;
            && Sends(frames, frames, first, headers, [], m)
            && Consume(START, message + chunk, LINE) == Consume(Progress(frames, held, None), chunk, LINE)
  {
    ConsumeConcat(START, message, chunk, LINE);
  }

  lemma WireSince(all: seq<seq<Byte>>, frames: seq<seq<Byte>>, before: seq<seq<Byte>>, output: seq<Byte>,
                  more: seq<Byte>, m: Outgoing)
    requires Wire(frames, m) == Wire(before, m) + output && Wire(all, m) == Wire(frames, m) + more
    ensures Wire(all, m) == Wire(before, m) + (output + more)
  {
    Join(Wire(before, m), output, more);
  }

  lemma SendsSince(all: seq<seq<Byte>>, frames: seq<seq<Byte>>, before: seq<seq<Byte>>, first: bool, headers: bool,
                   output: seq<Byte>, more: seq<Byte>, m: Outgoing)
    requires Wire(frames, m) == Wire(before, m) + output && Sends(all, frames, first, headers, more, m)
    ensures Sends(all, before, first, headers, output + more, m)
  {
    WireSince(all, frames, before, output, more, m);
  }

  lemma SentAfter(message: seq<Byte>, chunk: seq<Byte>, held: seq<Byte>, first: bool, headers: bool, output: seq<Byte>,
                  m: Outgoing,
                  held': seq<Byte>, first': bool, headers': bool, more: seq<Byte>)
    requires SentSoFar(message, held, first, headers, output, m)
    requires var frames := Consume(START, message, LINE).frames;
             var p := Consume(Progress(frames, held, None), chunk, LINE);
             p.error.None? && p.rest == held' && Sends(p.frames, frames, first', headers', more, m)
    ensures SentSoFar(message + chunk, held', first', headers', output + more, m)
  {
    var frames := Consume(START, message, LINE).frames;
    var p := Consume(Progress(frames, held, None), chunk, LINE);
    assert Consume(START, message + chunk, LINE) == p by {
      ConsumeConcat(START, message, chunk, LINE);
    }
    SendsSince(p.frames, frames, [], first', headers', output, more, m);
  }

  /** The capacity `send_body` reserves for the output of one read of `n` bytes. */
  function Capacity(n: nat): nat { n + n / 3 + 2048 }

  /** Every write fits the capacity for its read. */
  predicate Fitting(writes: seq<seq<Byte>>, chunks: seq<seq<Byte>>) {
    |writes| <= |chunks| && forall i :: 0 <= i < |writes| ==> |writes[i]| <= Capacity(|chunks[i]|)
  }

  lemma OneFits(writes: seq<seq<Byte>>, output: seq<Byte>, chunks: seq<seq<Byte>>)
    requires Fitting(writes, chunks) && |writes| < |chunks| && |output| <= Capacity(|chunks[|writes|]|)
    ensures Fitting(writes + [output], chunks)
  {
  }

  lemma ReadBound(output: nat, held: nat, chunk: nat)
    requires 3 * output <= 4 * (held + chunk) && held <= LINE
    ensures output <= Capacity(chunk)
  {
  }

  lemma WholeIsSendable(message: seq<Byte>, held: seq<Byte>, first: bool, headers: bool, output: seq<Byte>, m: Outgoing)
    requires SentSoFar(message, held, first, headers, output, m)
    ensures Sendable(message, m) <==> |message| == m.size && held == [] && !headers
    ensures output == Wire(Consume(START, message, LINE).frames, m)
  {
    assert Wire([], m) == [];
  }

  /** One read of the outer loop. */
  method SendOne(decoder: LineDecoder, chunk: seq<Byte>, m: Outgoing, first: bool, headers: bool,
                 ghost message: seq<Byte>, ghost sent: seq<Byte>)
    returns (done: bool, output: seq<Byte>, first': bool, headers': bool)
    requires decoder.Valid() && !decoder.complete && decoder.limit == LINE
    requires SentSoFar(message, decoder.buffer, first, headers, sent, m)
    modifies decoder
    ensures decoder.Valid() && !decoder.complete
    ensures done ==> SentSoFar(message + chunk, decoder.buffer, first', headers', sent + output, m)
    ensures done ==> |output| <= Capacity(|chunk|)
    ensures !done ==> var p := Consume(START, message + chunk, LINE); p.error.Some? || !Legal(p.frames, m)
  {
    ghost var held := decoder.buffer;
    SentBefore(message, chunk, held, first, headers, sent, m);
    done, output, first', headers' := SendRead(decoder, chunk, m, first, headers, Consume(START, message, LINE).frames);
    if done {
      SentAfter(message, chunk, held, first, headers, sent, m, decoder.buffer, first', headers', output);
      ReadBound(|output|, |held|, |chunk|);
    }
  }

  /**
   * `send_body`. `chunks` are the non-empty reads before end of file; `intact` is false when the
   * verified reader fails instead of ending. Whatever the reads, a message goes out whole exactly
   * when it is sendable, and at any moment only whole stuffed lines have gone out.
   */
  method SendBody(chunks: seq<seq<Byte>>, intact: bool, m: Outgoing) returns (ok: bool, writes: seq<seq<Byte>>)
    ensures ok <==> intact && Sendable(Flatten(chunks), m)
    ensures ok ==> |writes| == |chunks|
    ensures |writes| <= |chunks| && Flatten(writes) == Wire(FramesOf(chunks[..|writes|]), m)
    ensures Fitting(writes, chunks)
  {
    var decoder := new LineDecoder(LINE);
    var first, headers, total := true, true, 0;
    writes := [];
    assert Wire([], m) == [];
    ghost var message: seq<Byte> := [];
    for i := 0 to |chunks|
      invariant decoder.Valid() && !decoder.complete && decoder.limit == LINE && fresh(decoder)
      invariant message == Flatten(chunks[..i]) && total == |message| <= m.size && |writes| == i
      invariant SentSoFar(message, decoder.buffer, first, headers, Flatten(writes), m)
      invariant Fitting(writes, chunks)
    {
      FlattenAround(chunks, i);
      WholeIsSendable(message, decoder.buffer, first, headers, Flatten(writes), m);
      total := total + |chunks[i]|;
      if total > m.size {
        NotSendable(message + chunks[i], Flatten(chunks[i + 1..]), m);
        return false, writes;
      }
      var done, output;
      done, output, first, headers := SendOne(decoder, chunks[i], m, first, headers, message, Flatten(writes));
      if !done {
        NotSendable(message + chunks[i], Flatten(chunks[i + 1..]), m);
        return false, writes;
      }
      FlattenAppend(writes, output);
      OneFits(writes, output, chunks);
      message, writes := message + chunks[i], writes + [output];
    }
    assert chunks[..|chunks|] == chunks;
    WholeIsSendable(message, decoder.buffer, first, headers, Flatten(writes), m);
    ok := intact && total == m.size && decoder.buffer == [] && !headers;
  }

  // ---------------------------------------------------------------- receiving

  /** The lines of a DATA stream up to its terminator; nothing without one. */
  function Payload(frames: seq<seq<Byte>>): Option<seq<seq<Byte>>> {
    if frames == [] then None
    else
      var line := DataFrame(frames[0]);
      if line.Err? then None
      else if line.value.None? then Some([])
      else
        var rest := Payload(frames[1..]);
        if rest.None? then None else Some([line.value.value] + rest.value)
  }

  /** A stuffed line fits the receiver's limit of one byte more and is unstuffed to itself. */
  lemma StuffRoundTrip(f: seq<Byte>)
    requires Frame(f, LINE)
    ensures Frame(Stuff(f), LINE + 1) && Stuff(f) != END && DataFrame(Stuff(f)) == Ok(Some(f))
  {
    var g := Stuff(f);
    assert g[|g| - 2..] == f[|f| - 2..];
    if f[0] == DOT {
      assert g[..|g| - 2] == [DOT] + f[..|f| - 2];
      assert g[1..] == f && g[1] == DOT;
    } else {
      assert g[..|g| - 2] == f[..|f| - 2];
    }
  }

  lemma EndFrame()
    ensures Frame(END, LINE + 1) && DataFrame(END) == Ok(None)
  {
    assert END[1..] == CRLF && END[..1] == [DOT];
  }

  lemma PayloadStep(g: seq<Byte>, f: seq<Byte>, rest: seq<seq<Byte>>)
    requires DataFrame(g) == Ok(Some(f)) && Payload(rest).Some?
    ensures Payload([g] + rest) == Some([f] + Payload(rest).value)
  {
    assert ([g] + rest)[1..] == rest;
  }

  lemma StuffedFront(frames: seq<seq<Byte>>)
    requires frames != []
    ensures Stuffed(frames) + [END] == [Stuff(frames[0])] + (Stuffed(frames[1..]) + [END])
    ensures [frames[0]] + frames[1..] == frames
  {
    var all := Stuffed(frames);
    assert all[0] == Stuff(frames[0]) && all[1..] == Stuffed(frames[1..]);
    assert all == [all[0]] + all[1..];
  }

  lemma {:induction false} PayloadOfStuffed(frames: seq<seq<Byte>>)
    requires Frames(frames, LINE)
    ensures Payload(Stuffed(frames) + [END]) == Some(frames)
  {
    if frames == [] {
      EndFrame();
      assert Stuffed([]) + [END] == [END];
    } else {
      StuffRoundTrip(frames[0]);
      PayloadOfStuffed(frames[1..]);
      StuffedFront(frames);
      PayloadStep(Stuff(frames[0]), frames[0], Stuffed(frames[1..]) + [END]);
    }
  }

  lemma StuffedFrames(frames: seq<seq<Byte>>)
    requires Frames(frames, LINE)
    ensures Frames(Stuffed(frames), LINE + 1) && END !in Stuffed(frames)
  {
    forall i | 0 <= i < |frames| ensures Frame(Stuffed(frames)[i], LINE + 1) && Stuffed(frames)[i] != END {
      StuffRoundTrip(frames[i]);
    }
  }

  lemma FlattenKept(frames: seq<seq<Byte>>, m: Outgoing)
    requires m.omit != [] ==> frames != [] && frames[0] == m.omit
    ensures Flatten(frames) == m.omit + Flatten(Kept(frames, m))
  {
    if m.omit != [] {
      assert frames == [frames[0]] + frames[1..];
      FlattenFront(frames[0], frames[1..]);
    } else {
      assert [] + Flatten(frames) == Flatten(frames);
    }
  }

  /** The kept lines are the message without its omitted line. */
  lemma KeptIsMessage(message: seq<Byte>, m: Outgoing)
    requires Sendable(message, m)
    ensures var frames := Consume(START, message, LINE).frames;
            message == m.omit + Flatten(Kept(frames, m)) && Frames(Kept(frames, m), LINE)
  {
    ConsumeSound(message, LINE);
    var frames := Consume(START, message, LINE).frames;
    assert message[..|message|] == message == Flatten(frames);
    assert LegalAt(frames, 0, m);
    FlattenKept(frames, m);
  }

  /**
   * For every sendable message, whatever the chunks on either side: what `send_body` writes, closed
   * by the final dot and decoded by the receiving end, is the message without its omitted line.
   */
  lemma RoundTrip(chunks: seq<seq<Byte>>, m: Outgoing)
    requires Sendable(Flatten(chunks), m)
    ensures var p := Consume(START, Wire(FramesOf(chunks), m) + END, LINE + 1);
            && p.error.None? && p.rest == []
            && Payload(p.frames) == Some(Kept(FramesOf(chunks), m))
            && m.omit + Flatten(Payload(p.frames).value) == Flatten(chunks)
  {
    var kept := Kept(FramesOf(chunks), m);
    KeptIsMessage(Flatten(chunks), m);
    StuffedFrames(kept);
    EndFrame();
    FlattenAppend(Stuffed(kept), END);
    ConsumeFrames(Stuffed(kept) + [END], [], LINE + 1);
    assert Flatten(Stuffed(kept) + [END]) + [] == Wire(FramesOf(chunks), m) + END;
    PayloadOfStuffed(kept);
  }

  // ---------------------------------------------------------------- no early end

  /** The end-of-data sequence occurs at the start of a line. */
  predicate TerminatedAt(wire: seq<Byte>, i: int) {
    0 <= i <= |wire| - 3 && wire[i..i + 3] == END && (i == 0 || (i >= 2 && wire[i - 2..i] == CRLF))
  }

  ghost predicate Terminated(wire: seq<Byte>) { exists i :: TerminatedAt(wire, i) }

  lemma LineStart(wire: seq<Byte>, i: nat, limit: nat)
    requires i <= |wire| && (i == 0 || (i >= 2 && wire[i - 2..i] == CRLF))
    requires Consume(START, wire[..i], limit).error.None?
    ensures Consume(START, wire[..i], limit).rest == []
  {
    if i > 0 {
      assert wire[i - 1] == wire[i - 2..i][1] == LF;
      assert wire[..i][..i - 1] == wire[..i - 1];
    }
  }

  lemma EndIsFrame(wire: seq<Byte>, i: nat)
    requires i <= |wire| - 3 && wire[i..i + 3] == END
    requires Consume(START, wire[..i], LINE + 1).error.None? && Consume(START, wire[..i], LINE + 1).rest == []
    ensures END in Consume(START, wire[..i + 3], LINE + 1).frames
  {
    assert wire[..i + 3] == wire[..i] + END;
    ConsumeConcat(START, wire[..i], END, LINE + 1);
    EndFrame();
    var fs := Consume(START, wire[..i], LINE + 1).frames;
    ConsumeFrame(fs, END, LINE + 1);
    assert (fs + [END])[|fs|] == END;
  }

  lemma PrefixDecodes(fs: seq<seq<Byte>>, k: nat, limit: nat)
    requires Frames(fs, limit) && k <= |Flatten(fs)|
    ensures var p := Consume(START, Flatten(fs)[..k], limit); p.error.None? && p.frames <= fs
  {
    var wire := Flatten(fs);
    assert wire[..k] + wire[k..] == wire && wire + [] == wire;
    ConsumeFrames(fs, [], limit);
    ConsumeConcat(START, wire[..k], wire[k..], limit);
    var p := Consume(START, wire[..k], limit);
    Extends(p, wire[k..], limit);
    if p.error.Some? {
      ErrorSticks(p, wire[k..], limit);
    }
  }

  /** Lines that are all stuffed contain no terminator, wherever the stream is cut. */
  lemma NeverTerminated(fs: seq<seq<Byte>>, k: nat)
    requires Frames(fs, LINE + 1) && END !in fs && k <= |Flatten(fs)|
    ensures !Terminated(Flatten(fs)[..k])
  {
    var whole := Flatten(fs);
    var wire := whole[..k];
    forall i | TerminatedAt(wire, i) ensures false {
      assert wire[..i] == whole[..i] && wire[..i + 3] == whole[..i + 3];
      PrefixDecodes(fs, i, LINE + 1);
      PrefixDecodes(fs, i + 3, LINE + 1);
      LineStart(wire, i, LINE + 1);
      EndIsFrame(wire, i);
    }
  }

  /**
   * No prefix of anything `send_body` writes, in a successful or a failing transfer, contains the
   * DATA terminator, so a receiver cannot take a cut-off message for a whole one.
   */
  lemma NoEarlyEnd(chunks: seq<seq<Byte>>, m: Outgoing, k: nat)
    requires k <= |Wire(FramesOf(chunks), m)|
    ensures !Terminated(Wire(FramesOf(chunks), m)[..k])
  {
    ConsumeSound(Flatten(chunks), LINE);
    var kept := Kept(FramesOf(chunks), m);
    StuffedFrames(kept);
    NeverTerminated(Stuffed(kept), k);
  }
}
