/** Whole messages through the streaming filters, as `prepare` (crates/client/src/message.rs) does it. */
module Messages {
  import opened Wrappers
  import opened Framing
  import opened Headers
  import opened Tables

  datatype Limits = Limits(message: nat, header: nat)

  // ---------------------------------------------------------------- the specification

  /** The first empty line: it ends the header and belongs to neither part. */
  function Separator(frames: seq<seq<Byte>>): (r: Option<nat>)
    ensures r.Some? ==> r.value < |frames| && frames[r.value] == CRLF && CRLF !in frames[..r.value]
    ensures r.None? ==> CRLF !in frames
  {
    if frames == [] then None
    else
      var before := Separator(frames[..|frames| - 1]);
      if before.Some? then before else if frames[|frames| - 1] == CRLF then Some(|frames| - 1) else None
  }

  function Head(frames: seq<seq<Byte>>): seq<seq<Byte>> {
    var at := Separator(frames);
    if at.Some? then frames[..at.value] else frames
  }

  /** The separator and everything after it. */
  function Tail(frames: seq<seq<Byte>>): seq<seq<Byte>> {
    var at := Separator(frames);
    if at.Some? then frames[at.value..] else []
  }

  /** Bytes counted against the header limit, the separator included. */
  function HeaderBytes(frames: seq<seq<Byte>>): nat {
    |Flatten(Head(frames))| + if Separator(frames).Some? then 2 else 0
  }

  predicate Fine(frames: seq<seq<Byte>>, headerLimit: nat) {
    Fielded(Head(frames)) && HeaderBytes(frames) <= headerLimit
  }

  /** The fields that stay, then separator and body byte for byte. */
  function Output(frames: seq<seq<Byte>>, bcc: bool): seq<Byte>
    requires Fielded(Head(frames))
  {
    Flatten(Filtered(Head(frames), bcc)) + Flatten(Tail(frames))
  }

  function BodyOf(tail: seq<seq<Byte>>): BodyMode { if Ascii(Flatten(tail)) then SevenBit else EightBitMime }

  function Mode(frames: seq<seq<Byte>>): BodyMode { BodyOf(Tail(frames)) }

  datatype Snapshot = Snapshot(bytes: seq<Byte>, body: BodyMode)

  /** What `prepare` makes of a whole message. */
  function Prepared(message: seq<Byte>, limits: Limits): Option<Snapshot> {
    var p := Consume(START, message, LINE);
    if |message| <= limits.message && p.error.None? && p.rest == [] && Separator(p.frames).Some?
      && Fine(p.frames, limits.header)
    then Some(Snapshot(Output(p.frames, true), Mode(p.frames)))
    else None
  }

  // ---------------------------------------------------------------- one more frame

  lemma SeparatorGrows(frames: seq<seq<Byte>>, f: seq<Byte>)
    ensures Separator(frames + [f])
            == if Separator(frames).Some? then Separator(frames) else if f == CRLF then Some(|frames|) else None
  {
    assert (frames + [f])[..|frames|] == frames;
  }

  lemma PartsGrow(frames: seq<seq<Byte>>, f: seq<Byte>, at: nat)
    requires at <= |frames|
    ensures (frames + [f])[..at] == frames[..at] && (frames + [f])[at..] == frames[at..] + [f]
  {
  }

  lemma HeadGrows(frames: seq<seq<Byte>>, f: seq<Byte>)
    ensures Separator(frames).Some? ==>
              && Separator(frames + [f]) == Separator(frames) && Head(frames + [f]) == Head(frames)
              && Tail(frames + [f]) == Tail(frames) + [f]
    ensures Separator(frames).None? && f == CRLF ==>
              Separator(frames + [f]) == Some(|frames|) && Head(frames + [f]) == frames && Tail(frames + [f]) == [f]
    ensures Separator(frames).None? && f != CRLF ==>
              Separator(frames + [f]).None? && Head(frames + [f]) == frames + [f] && Tail(frames + [f]) == []
  {
    SeparatorGrows(frames, f);
    if Separator(frames).Some? {
      PartsGrow(frames, f, Separator(frames).value);
    } else {
      PartsGrow(frames, f, |frames|);
      assert frames[..|frames|] == frames && frames[|frames|..] + [f] == [f];
    }
  }

  /** The variables of the filtering loop. */
  datatype Scan = Scan(headers: bool, seen: bool, removing: bool, headerBytes: nat, eight: bool, out: seq<Byte>)

  const BEGIN := Scan(true, false, false, 0, false, [])

  /** ... once the header lines `head` and the lines `tail` from the separator on have gone through. */
  ghost predicate ScanParts(v: Scan, head: seq<seq<Byte>>, tail: seq<seq<Byte>>, ended: bool, bcc: bool, limit: nat) {
    && FilterAt(head, v.seen, v.removing, bcc) && v.headers == !ended
    && v.headerBytes == |Flatten(head)| + (if ended then 2 else 0) && v.headerBytes <= limit
    && v.out == Flatten(Filtered(head, bcc)) + Flatten(tail)
    && v.eight == !Ascii(Flatten(tail))
  }

  ghost predicate ScanAt(v: Scan, frames: seq<seq<Byte>>, bcc: bool, limit: nat) {
    ScanParts(v, Head(frames), Tail(frames), Separator(frames).Some?, bcc, limit)
  }

  lemma AsciiConcat(a: seq<Byte>, b: seq<Byte>)
    ensures Ascii(a + b) <==> Ascii(a) && Ascii(b)
  {
    var c := a + b;
    assert forall i :: 0 <= i < |a| ==> c[i] == a[i];
    assert forall i :: 0 <= i < |b| ==> c[|a| + i] == b[i];
  }

  /** What the loop does with one frame; `None` when it gives up. */
  function ScanFrame(v: Scan, f: seq<Byte>, bcc: bool, limit: nat): Option<Scan> {
    if !v.headers then Some(v.(eight := v.eight || !Ascii(f), out := v.out + f))
    else if v.headerBytes + |f| > limit then None
    else if f == CRLF then Some(v.(headers := false, headerBytes := v.headerBytes + 2, out := v.out + f))
    else if !Acceptable(v.seen, f) then None
    else
      var (seen, removing) := Filtering(v.seen, v.removing, f, bcc);
      Some(v.(seen := seen, removing := removing, headerBytes := v.headerBytes + |f|,
              out := v.out + if removing then [] else f))
  }

  lemma TailGrows(tail: seq<seq<Byte>>, f: seq<Byte>, front: seq<Byte>)
    ensures front + Flatten(tail + [f]) == front + Flatten(tail) + f
    ensures Ascii(Flatten(tail + [f])) <==> Ascii(Flatten(tail)) && Ascii(f)
  {
    FlattenAppend(tail, f);
    AsciiConcat(Flatten(tail), f);
  }

  lemma BodyStep(v: Scan, head: seq<seq<Byte>>, tail: seq<seq<Byte>>, f: seq<Byte>, bcc: bool, limit: nat)
    requires ScanParts(v, head, tail, true, bcc, limit)
    ensures ScanParts(v.(eight := v.eight || !Ascii(f), out := v.out + f), head, tail + [f], true, bcc, limit)
  {
    TailGrows(tail, f, Flatten(Filtered(head, bcc)));
  }

  lemma SeparatorStep(v: Scan, head: seq<seq<Byte>>, bcc: bool, limit: nat)
    requires ScanParts(v, head, [], false, bcc, limit) && v.headerBytes + 2 <= limit
    ensures ScanParts(v.(headers := false, headerBytes := v.headerBytes + 2, out := v.out + CRLF), head, [CRLF], true,
                      bcc, limit)
  {
    FlattenAppend([], CRLF);
    assert [] + [CRLF] == [CRLF];
  }

  lemma FieldBytes(head: seq<seq<Byte>>, f: seq<Byte>, seen: bool, removing: bool, bcc: bool)
    requires FilterAt(head, seen, removing, bcc) && Acceptable(seen, f)
    ensures var (seen', removing') := Filtering(seen, removing, f, bcc);
            && FilterAt(head + [f], seen', removing', bcc)
            && Flatten(Filtered(head + [f], bcc)) == Flatten(Filtered(head, bcc)) + if removing' then [] else f
    ensures |Flatten(head + [f])| == |Flatten(head)| + |f|
  {
    FilterStep(head, f, seen, removing, bcc);
    FlattenAppend(head, f);
    FlattenAppend(Filtered(head, bcc), f);
    assert Filtered(head, bcc) + [] == Filtered(head, bcc);
  }

  lemma FieldStep(v: Scan, head: seq<seq<Byte>>, more: seq<seq<Byte>>, n: nat, bcc: bool, limit: nat,
                  seen: bool, removing: bool, piece: seq<Byte>)
    requires ScanParts(v, head, [], false, bcc, limit) && v.headerBytes + n <= limit
    requires FilterAt(more, seen, removing, bcc) && |Flatten(more)| == |Flatten(head)| + n
    requires Flatten(Filtered(more, bcc)) == Flatten(Filtered(head, bcc)) + piece
    ensures ScanParts(v.(seen := seen, removing := removing, headerBytes := v.headerBytes + n, out := v.out + piece),
                      more, [], false, bcc, limit)
  {
    var kept := Flatten(Filtered(head, bcc));
    assert kept + [] == kept && kept + piece + [] == kept + piece;
  }

  lemma FineStep(v: Scan, frames: seq<seq<Byte>>, f: seq<Byte>, bcc: bool, limit: nat)
    requires ScanAt(v, frames, bcc, limit)
    ensures Fine(frames + [f], limit) <==> ScanFrame(v, f, bcc, limit).Some?
  {
    HeadGrows(frames, f);
    if v.headers {
      FlattenAppend(frames, f);
      FilterStep(frames, f, v.seen, v.removing, bcc);
    }
  }

  /** The loop keeps its meaning frame by frame. */
  lemma ScanStep(v: Scan, frames: seq<seq<Byte>>, f: seq<Byte>, bcc: bool, limit: nat)
    requires ScanAt(v, frames, bcc, limit)
    ensures Fine(frames + [f], limit) <==> ScanFrame(v, f, bcc, limit).Some?
    ensures ScanFrame(v, f, bcc, limit).Some? ==> ScanAt(ScanFrame(v, f, bcc, limit).value, frames + [f], bcc, limit)
  {
    FineStep(v, frames, f, bcc, limit);
    HeadGrows(frames, f);
    if ScanFrame(v, f, bcc, limit).Some? {
      if !v.headers {
        BodyStep(v, Head(frames), Tail(frames), f, bcc, limit);
      } else if f == CRLF {
        SeparatorStep(v, frames, bcc, limit);
      } else {
        FieldBytes(frames, f, v.seen, v.removing, bcc);
        var (seen, removing) := Filtering(v.seen, v.removing, f, bcc);
        FieldStep(v, frames, frames + [f], |f|, bcc, limit, seen, removing, if removing then [] else f);
      }
    }
  }

  /** The loop over all frames. */
  function Scanned(frames: seq<seq<Byte>>, bcc: bool, limit: nat): Option<Scan> {
    if frames == [] then Some(BEGIN)
    else
      var before := Scanned(frames[..|frames| - 1], bcc, limit);
      if before.None? then None else ScanFrame(before.value, frames[|frames| - 1], bcc, limit)
  }

  lemma ScannedStep(frames: seq<seq<Byte>>, f: seq<Byte>, bcc: bool, limit: nat)
    ensures Scanned(frames + [f], bcc, limit)
            == if Scanned(frames, bcc, limit).None? then None
               else ScanFrame(Scanned(frames, bcc, limit).value, f, bcc, limit)
  {
    assert (frames + [f])[..|frames|] == frames;
  }

  /** Trouble in the header cannot be undone by later lines. */
  lemma FineBefore(frames: seq<seq<Byte>>, f: seq<Byte>, limit: nat)
    requires Fine(frames + [f], limit)
    ensures Fine(frames, limit)
  {
    HeadGrows(frames, f);
    FlattenAppend(frames, f);
    if Separator(frames).None? && f != CRLF {
      assert Head(frames) == frames && forall i :: 0 <= i < |frames| ==> (frames + [f])[i] == frames[i];
    }
  }

  /** The loop computes the specification: it gives up exactly on headers that are not fine. */
  lemma {:induction false} ScannedIs(frames: seq<seq<Byte>>, bcc: bool, limit: nat)
    ensures Scanned(frames, bcc, limit).Some? <==> Fine(frames, limit)
    ensures Scanned(frames, bcc, limit).Some? ==> ScanAt(Scanned(frames, bcc, limit).value, frames, bcc, limit)
  {
    if frames != [] {
      var n := |frames| - 1;
      ScannedIs(frames[..n], bcc, limit);
      assert frames[..n] + [frames[n]] == frames;
      if Fine(frames, limit) {
        FineBefore(frames[..n], frames[n], limit);
      }
      if Scanned(frames[..n], bcc, limit).Some? {
        ScanStep(Scanned(frames[..n], bcc, limit).value, frames[..n], frames[n], bcc, limit);
      }
    }
  }

  lemma {:induction false} GivenUp(frames: seq<seq<Byte>>, more: seq<seq<Byte>>, bcc: bool, limit: nat)
    requires frames <= more && Scanned(frames, bcc, limit).None?
    ensures Scanned(more, bcc, limit).None?
  {
    if |more| > |frames| {
      GivenUp(frames, more[..|more| - 1], bcc, limit);
    } else {
      assert more == frames;
    }
  }

  // ---------------------------------------------------------------- the loops of `prepare`

  /** The loop's variables and the filter's fields are those of the scan `v`. */
  ghost predicate Holds(v: Scan, filter: HeaderFilter, headers: bool, headerBytes: nat, eight: bool)
    reads filter
  {
    v.headers == headers && v.seen == filter.fieldSeen && v.removing == filter.removing
    && v.headerBytes == headerBytes && v.eight == eight
  }

  /** One frame through the filter. */
  method FilterFrame(filter: HeaderFilter, f: seq<Byte>, limit: nat, headers: bool, headerBytes: nat, eight: bool,
                     ghost v: Scan)
    returns (ok: bool, retain: bool, headers': bool, headerBytes': nat, eight': bool)
    requires Holds(v, filter, headers, headerBytes, eight)
    modifies filter
    ensures ok <==> ScanFrame(v, f, filter.removeBcc, limit).Some?
    ensures ok ==> var w := ScanFrame(v, f, filter.removeBcc, limit).value;
                   Holds(w, filter, headers', headerBytes', eight') && w.out == v.out + if retain then f else []
  {
    ok, retain, headers', headerBytes', eight' := true, true, headers, headerBytes, eight;
    if headers {
      headerBytes' := headerBytes + |f|;
      if headerBytes' > limit {
        ok := false;
      } else if f == CRLF {
        headers' := false;
      } else {
        var kept := filter.Retain(f);
        ok := kept.Ok?;
        retain := ok && kept.value;
      }
    } else {
      eight' := eight || !Ascii(f);
    }
  }

  lemma StaysGivenUp(frames: seq<seq<Byte>>, bytes: seq<Byte>, bcc: bool, limit: nat, lineLimit: nat)
    requires Scanned(frames, bcc, limit).None?
    ensures Scanned(Consume(Progress(frames, [], None), bytes, lineLimit).frames, bcc, limit).None?
  {
    Extends(Progress(frames, [], None), bytes, lineLimit);
    GivenUp(frames, Consume(Progress(frames, [], None), bytes, lineLimit).frames, bcc, limit);
  }

  /** One more frame of the stream, seen from its end. */
  lemma AfterFrame(frames: seq<seq<Byte>>, f: seq<Byte>, rest: seq<Byte>, v: Scan, bcc: bool, limit: nat)
    requires Scanned(frames, bcc, limit) == Some(v)
    ensures Scanned(frames + [f], bcc, limit) == ScanFrame(v, f, bcc, limit)
    ensures ScanFrame(v, f, bcc, limit).None? ==>
              Scanned(Consume(Progress(frames + [f], [], None), rest, LINE).frames, bcc, limit).None?
  {
    ScannedStep(frames, f, bcc, limit);
    if ScanFrame(v, f, bcc, limit).None? {
      StaysGivenUp(frames + [f], rest, bcc, limit, LINE);
    }
  }

  /** The bytes of one read; `v` is the scan before and `v'` the scan after it. */
  method PrepareRead(decoder: LineDecoder, filter: HeaderFilter, chunk: seq<Byte>, limit: nat,
                     headers: bool, headerBytes: nat, eight: bool, ghost before: seq<seq<Byte>>, ghost v: Scan)
    returns (ok: bool, output: seq<Byte>, headers': bool, headerBytes': nat, eight': bool, ghost v': Scan)
    requires decoder.Valid() && !decoder.complete && decoder.limit == LINE && filter.removeBcc
    requires Scanned(before, true, limit) == Some(v) && Holds(v, filter, headers, headerBytes, eight)
    modifies decoder, filter
    ensures decoder.Valid() && !decoder.complete
    ensures var p := Consume(Progress(before, old(decoder.buffer), None), chunk, LINE);
            && (ok <==> p.error.None? && Scanned(p.frames, true, limit).Some?)
            && (ok ==> decoder.buffer == p.rest && Scanned(p.frames, true, limit) == Some(v'))
    ensures ok ==> Holds(v', filter, headers', headerBytes', eight') && v'.out == v.out + output
  {
    ok, output, headers', headerBytes', eight', v' := true, [], headers, headerBytes, eight, v;
    var bytes := chunk;
    ghost var end, frames := Consume(Progress(before, decoder.buffer, None), chunk, LINE), before;
    while bytes != []
      invariant decoder.Valid() && !decoder.complete
      invariant Consume(Progress(frames, decoder.buffer, None), bytes, LINE) == end
      invariant Scanned(frames, true, limit) == Some(v')
      invariant Holds(v', filter, headers', headerBytes', eight') && v'.out == v.out + output
      decreases |bytes|
    {
      var next, used := NextFrame(decoder, bytes, frames);
      if next.Err? {
        return false, [], headers', headerBytes', eight', v';
      }
      ghost var before' := frames;
      bytes, frames := bytes[used..], frames + AsList(next.value);
      if next.value.Some? {
        var frame := next.value.value;
        AfterFrame(before', frame, bytes, v', true, limit);
        var kept, retain;
        kept, retain, headers', headerBytes', eight' :=
          FilterFrame(filter, frame, limit, headers', headerBytes', eight', v');
        if !kept {
          return false, [], headers', headerBytes', eight', v';
        }
        Join(v.out, output, if retain then frame else []);
        v', output := ScanFrame(v', frame, true, limit).value, output + if retain then frame else [];
      } else {
        assert frames == before';
      }
    }
  }

  lemma ScanIsFine(v: Scan, frames: seq<seq<Byte>>, bcc: bool, limit: nat)
    requires ScanAt(v, frames, bcc, limit)
    ensures Fine(frames, limit) && v.out == Output(frames, bcc) && v.eight == (Mode(frames) == EightBitMime)
    ensures v.headers == Separator(frames).None?
  {
  }

  lemma PreparedIs(message: seq<Byte>, limits: Limits)
    ensures var p := Consume(START, message, LINE);
            var scan := Scanned(p.frames, true, limits.header);
            Prepared(message, limits)
            == if |message| <= limits.message && p.error.None? && p.rest == [] && scan.Some? && !scan.value.headers
               then Some(Snapshot(scan.value.out, if scan.value.eight then EightBitMime else SevenBit)) else None
  {
    var p := Consume(START, message, LINE);
    ScannedIs(p.frames, true, limits.header);
    if Scanned(p.frames, true, limits.header).Some? {
      ScanIsFine(Scanned(p.frames, true, limits.header).value, p.frames, true, limits.header);
    }
  }

  /** A message refused part of the way through is refused as a whole. */
  lemma NotPrepared(message: seq<Byte>, more: seq<Byte>, limits: Limits)
    requires || |message| > limits.message || Consume(START, message, LINE).error.Some?
             || Scanned(Consume(START, message, LINE).frames, true, limits.header).None?
    ensures Prepared(message + more, limits).None?
  {
    PreparedIs(message + more, limits);
    ConsumeConcat(START, message, more, LINE);
    var p := Consume(START, message, LINE);
    if p.error.Some? {
      ErrorSticks(p, more, LINE);
    } else if Scanned(p.frames, true, limits.header).None? {
      Extends(p, more, LINE);
      GivenUp(p.frames, Consume(p, more, LINE).frames, true, limits.header);
    }
  }

  /** `prepare`, over the reads of its input: for every way of reading it, the snapshot is the specified one. */
  method Prepare(chunks: seq<seq<Byte>>, limits: Limits) returns (r: Option<Snapshot>)
    ensures r == Prepared(Flatten(chunks), limits)
  {
    var decoder := new LineDecoder(LINE);
    var filter := new HeaderFilter(true);
    var headers, headerBytes, eight, inputSize, file := true, 0, false, 0, [];
    ghost var v := BEGIN;
    for i := 0 to |chunks|
      invariant decoder.Valid() && !decoder.complete && decoder.limit == LINE && fresh(decoder)
      invariant filter.removeBcc && fresh(filter)
      invariant inputSize == |Flatten(chunks[..i])| <= limits.message
      invariant var p := Consume(START, Flatten(chunks[..i]), LINE);
                p.error.None? && p.rest == decoder.buffer && Scanned(p.frames, true, limits.header) == Some(v)
      invariant Holds(v, filter, headers, headerBytes, eight) && v.out == file
    {
      ghost var message := Flatten(chunks[..i]);
      FlattenAround(chunks, i);
      inputSize := inputSize + |chunks[i]|;
      if inputSize > limits.message {
        NotPrepared(message + chunks[i], Flatten(chunks[i + 1..]), limits);
        return None;
      }
      ConsumeConcat(START, message, chunks[i], LINE);
      var ok, output;
      ok, output, headers, headerBytes, eight, v :=
        PrepareRead(decoder, filter, chunks[i], limits.header, headers, headerBytes, eight,
                    Consume(START, message, LINE).frames, v);
      if !ok {
        NotPrepared(message + chunks[i], Flatten(chunks[i + 1..]), limits);
        return None;
      }
      file := file + output;
    }
    assert chunks[..|chunks|] == chunks;
    PreparedIs(Flatten(chunks), limits);
    if headers || decoder.buffer != [] {
      return None;
    }
    return Some(Snapshot(file, if eight then EightBitMime else SevenBit));
  }

  // ---------------------------------------------------------------- preparing twice

  lemma {:induction false} FilteredTwice(lines: seq<seq<Byte>>, seen: bool, removing: bool, bcc: bool)
    requires FilterAt(lines, seen, removing, bcc)
    ensures var kept := Filtered(lines, bcc);
            FilterAt(kept, kept != [], false, bcc) && Filtered(kept, bcc) == kept
    ensures |Flatten(Filtered(lines, bcc))| <= |Flatten(lines)|
    ensures forall f :: f in Filtered(lines, bcc) ==> f in lines
  {
    if lines != [] {
      var n := |lines| - 1;
      var before, f := lines[..n], lines[n];
      assert before + [f] == lines;
      var seen0, removing0 := StateAfter(lines, bcc);
      FilteredTwice(before, seen0, removing0, bcc);
      FilterStep(before, f, seen0, removing0, bcc);
      FlattenAppend(before, f);
      var kept := Filtered(before, bcc);
      if !Filtering(seen0, removing0, f, bcc).1 {
        KeptContinues(before, f, removing0, bcc);
        FilterStep(kept, f, kept != [], false, bcc);
        FlattenAppend(kept, f);
      } else {
        assert Filtered(lines, bcc) == kept + [] == kept;
      }
    }
  }

  /** The filter's state before the last line. */
  lemma StateAfter(lines: seq<seq<Byte>>, bcc: bool) returns (seen: bool, removing: bool)
    requires lines != [] && Fielded(lines)
    ensures FilterAt(lines[..|lines| - 1], seen, removing, bcc) && Acceptable(seen, lines[|lines| - 1])
  {
    var before := lines[..|lines| - 1];
    seen := before != [];
    removing := before != [] && !Stays(before, |before| - 1, bcc);
  }

  /** A continuation line that stays continues a field that stayed. */
  lemma KeptContinues(before: seq<seq<Byte>>, f: seq<Byte>, removing: bool, bcc: bool)
    requires FilterAt(before, before != [], removing, bcc) && Acceptable(before != [], f)
             && !Filtering(before != [], removing, f, bcc).1
    ensures Acceptable(Filtered(before, bcc) != [], f) && !Filtering(Filtered(before, bcc) != [], false, f, bcc).1
  {
  }

  lemma SeparatorSplits(head: seq<seq<Byte>>, tail: seq<seq<Byte>>)
    requires CRLF !in head && tail != [] && tail[0] == CRLF
    ensures Separator(head + tail) == Some(|head|) && Head(head + tail) == head && Tail(head + tail) == tail
  {
    var all := head + tail;
    assert all[|head|] == CRLF && all[..|head|] == head && all[|head|..] == tail;
    var at := Separator(all);
    assert forall j :: |head| < j <= |all| ==> all[..j][|head|] == CRLF;
    assert forall j :: 0 <= j < |head| ==> head[j] == all[j];
  }

  /** A message made of these parts is prepared like this. */
  lemma PreparedFrom(head: seq<seq<Byte>>, tail: seq<seq<Byte>>, limits: Limits)
    requires Frames(head + tail, LINE) && CRLF !in head && tail != [] && tail[0] == CRLF && Fielded(head)
    requires |Flatten(head)| + 2 <= limits.header && |Flatten(head)| + |Flatten(tail)| <= limits.message
    ensures Prepared(Flatten(head) + Flatten(tail), limits)
            == Some(Snapshot(Flatten(Filtered(head, true)) + Flatten(tail), BodyOf(tail)))
  {
    ConsumeParts(head, tail);
    SeparatorSplits(head, tail);
    PreparedFine(Flatten(head) + Flatten(tail), head + tail, head, tail, limits);
  }

  lemma ConsumeParts(head: seq<seq<Byte>>, tail: seq<seq<Byte>>)
    requires Frames(head + tail, LINE)
    ensures Consume(START, Flatten(head) + Flatten(tail), LINE) == Progress(head + tail, [], None)
  {
    FlattenConcat(head, tail);
    ConsumeWhole(head + tail, LINE);
  }

  lemma PreparedFine(message: seq<Byte>, frames: seq<seq<Byte>>, head: seq<seq<Byte>>, tail: seq<seq<Byte>>,
                     limits: Limits)
    requires Consume(START, message, LINE) == Progress(frames, [], None) && |message| <= limits.message
    requires Separator(frames).Some? && Head(frames) == head && Tail(frames) == tail
    requires Fielded(head) && |Flatten(head)| + 2 <= limits.header
    ensures Prepared(message, limits) == Some(Snapshot(Flatten(Filtered(head, true)) + Flatten(tail), BodyOf(tail)))
  {
  }

  /** ... and a prepared message is made of such parts. */
  lemma PreparedParts(message: seq<Byte>, limits: Limits) returns (head: seq<seq<Byte>>, tail: seq<seq<Byte>>)
    requires Prepared(message, limits).Some?
    ensures Frames(head + tail, LINE) && CRLF !in head && tail != [] && tail[0] == CRLF && Fielded(head)
    ensures |Flatten(head)| + 2 <= limits.header && |Flatten(head)| + |Flatten(tail)| <= limits.message
    ensures message == Flatten(head) + Flatten(tail)
  {
    var frames := Consume(START, message, LINE).frames;
    ConsumeSound(message, LINE);
    assert message[..|message|] == message == Flatten(frames);
    head, tail := Head(frames), Tail(frames);
    SplitLength(message, frames);
    FlattenConcat(head, tail);
  }

  /** What `prepare` writes is prepared again unchanged. */
  lemma PrepareIsIdempotent(message: seq<Byte>, limits: Limits)
    requires Prepared(message, limits).Some?
    ensures Prepared(Prepared(message, limits).value.bytes, limits) == Prepared(message, limits)
  {
    var head, tail := PreparedParts(message, limits);
    PreparedFrom(head, tail, limits);
    FilteredTwice(head, head != [], head != [] && !Stays(head, |head| - 1, true), true);
    var kept := Filtered(head, true);
    SameFrames(head, kept, tail, head + tail);
    PreparedFrom(kept, tail, limits);
  }

  lemma SameFrames(head: seq<seq<Byte>>, kept: seq<seq<Byte>>, tail: seq<seq<Byte>>, frames: seq<seq<Byte>>)
    requires frames == head + tail && Frames(frames, LINE) && forall f :: f in kept ==> f in head
    ensures Frames(kept + tail, LINE)
  {
    forall i | 0 <= i < |kept + tail| ensures Frame((kept + tail)[i], LINE) {
      assert (kept + tail)[i] in frames;
    }
  }

  lemma SplitLength(message: seq<Byte>, frames: seq<seq<Byte>>)
    requires Flatten(frames) == message
    ensures |Flatten(Head(frames))| + |Flatten(Tail(frames))| == |message| && frames == Head(frames) + Tail(frames)
  {
    assert frames == Head(frames) + Tail(frames);
    FlattenConcat(Head(frames), Tail(frames));
  }
}
