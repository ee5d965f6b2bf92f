/**
 * Streaming header filters: HeaderFilter in crates/protocol/src/headers.rs, `prepare` in
 * crates/client/src/message.rs and the line work of `receive_message` in crates/server/src/lib.rs.
 */
module Headers {
  import opened Wrappers
  import opened Framing

  const SP: Byte := 32
  const TAB: Byte := 9
  const COLON: Byte := 58
  const DELETE: Byte := 127

  function Octets(s: string): seq<Byte> {
    seq(|s|, i requires 0 <= i < |s| => if s[i] < 128 as char then s[i] as int else 0)
  }

  function Fold(b: Byte): Byte { if 65 <= b <= 90 then b + 32 else b }

  predicate SameName(a: seq<Byte>, b: seq<Byte>) {
    |a| == |b| && forall i :: 0 <= i < |a| ==> Fold(a[i]) == Fold(b[i])
  }

  // ---------------------------------------------------------------- header lines

  datatype Line = Bad | Continuation | Field(name: seq<Byte>)

  function ColonAt(s: seq<Byte>): (r: Option<nat>)
    ensures r.Some? ==> r.value < |s| && s[r.value] == COLON && forall i :: 0 <= i < r.value ==> s[i] != COLON
    ensures r.None? ==> COLON !in s
  {
    if s == [] then None
    else if s[0] == COLON then Some(0)
    else
      var rest := ColonAt(s[1..]);
      if rest.None? then None else Some(rest.value + 1)
  }

  predicate HeaderByte(b: Byte) { b == TAB || (32 <= b < DELETE) }

  /** What kind of header line a frame is. */
  function Kind(line: seq<Byte>): Line {
    if !(|line| >= 2 && line[|line| - 2..] == CRLF) then Bad
    else
      var content := line[..|line| - 2];
      if exists i :: 0 <= i < |content| && !HeaderByte(content[i]) then Bad
      else if content != [] && (content[0] == SP || content[0] == TAB) then Continuation
      else
        var colon := ColonAt(content);
        if colon.None? || colon.value == 0 || exists i :: 0 <= i < colon.value && !(33 <= content[i] <= 126) then Bad
        else Field(content[..colon.value])
  }

  /** Fields that never leave with the message; the Bcc fields only on submission. */
  predicate Private(name: seq<Byte>, bcc: bool) {
    || SameName(name, Octets("Return-Path"))
    || (bcc && (SameName(name, Octets("Bcc")) || SameName(name, Octets("Resent-Bcc"))))
  }

  class HeaderFilter {
    var fieldSeen: bool
    var removing: bool
    const removeBcc: bool

    constructor (bcc: bool)
      ensures !fieldSeen && !removing && removeBcc == bcc
    {
      fieldSeen, removing, removeBcc := false, false, bcc;
    }

    /** Whether the line is kept; a malformed line leaves the filter as it was. */
    method Retain(line: seq<Byte>) returns (r: Result<bool, ()>)
      modifies this
      ensures (fieldSeen, removing) == Filtering(old(fieldSeen), old(removing), line, removeBcc)
      ensures r == (if Acceptable(old(fieldSeen), line) then Ok(!removing) else Err(()))
    {
      var kind := Kind(line);
      match kind {
        case Bad => return Err(());
        case Continuation => return if fieldSeen then Ok(!removing) else Err(());
        case Field(name) =>
          fieldSeen, removing := true, Private(name, removeBcc);
          return Ok(!removing);
      }
    }
  }

  predicate Acceptable(seen: bool, line: seq<Byte>) {
    Kind(line).Field? || (Kind(line).Continuation? && seen)
  }

  function Filtering(seen: bool, removing: bool, line: seq<Byte>, bcc: bool): (bool, bool) {
    var kind := Kind(line);
    if kind.Field? then (true, Private(kind.name, bcc)) else (seen, removing)
  }

  // ---------------------------------------------------------------- the whole header, by fields

  /** Every line starts or continues a field. */
  predicate Fielded(lines: seq<seq<Byte>>) {
    && (forall i :: 0 <= i < |lines| ==> !Kind(lines[i]).Bad?)
    && (lines != [] ==> Kind(lines[0]).Field?)
  }

  /** The line that starts the field line `i` belongs to. */
  function FieldOf(lines: seq<seq<Byte>>, i: nat): (j: nat)
    requires i < |lines| && Fielded(lines)
    ensures j <= i && Kind(lines[j]).Field?
    ensures forall k :: j < k <= i ==> Kind(lines[k]).Continuation?
  {
    if Kind(lines[i]).Field? then i else FieldOf(lines, i - 1)
  }

  /** Line `i` is part of a field that stays. */
  predicate Stays(lines: seq<seq<Byte>>, i: nat, bcc: bool)
    requires i < |lines| && Fielded(lines)
  {
    !Private(Kind(lines[FieldOf(lines, i)]).name, bcc)
  }

  /** The lines of all fields that stay, in their order. */
  function Filtered(lines: seq<seq<Byte>>, bcc: bool): seq<seq<Byte>>
    requires Fielded(lines)
  {
    if lines == [] then []
    else
      var before := lines[..|lines| - 1];
      Filtered(before, bcc) + if Stays(lines, |lines| - 1, bcc) then [lines[|lines| - 1]] else []
  }

  /** The filter's state after the lines of a header. */
  ghost predicate FilterAt(lines: seq<seq<Byte>>, seen: bool, removing: bool, bcc: bool) {
    && Fielded(lines) && seen == (lines != [])
    && (if lines == [] then !removing else removing == !Stays(lines, |lines| - 1, bcc))
  }

  lemma {:induction false} FieldOfPrefix(lines: seq<seq<Byte>>, more: seq<seq<Byte>>, i: nat)
    requires lines <= more && i < |lines| && Fielded(lines) && Fielded(more)
    ensures FieldOf(more, i) == FieldOf(lines, i)
  {
    if !Kind(lines[i]).Field? {
      FieldOfPrefix(lines, more, i - 1);
    }
  }

  lemma FilterStep(lines: seq<seq<Byte>>, line: seq<Byte>, seen: bool, removing: bool, bcc: bool)
    requires FilterAt(lines, seen, removing, bcc)
    ensures Fielded(lines + [line]) <==> Acceptable(seen, line)
    ensures Acceptable(seen, line) ==>
              var (seen', removing') := Filtering(seen, removing, line, bcc);
              && FilterAt(lines + [line], seen', removing', bcc)
              && Filtered(lines + [line], bcc) == Filtered(lines, bcc) + if removing' then [] else [line]
  {
    var all := lines + [line];
    assert all[|lines|] == line && all[..|lines|] == lines;
    if Fielded(all) && lines != [] && Kind(line).Continuation? {
      FieldOfPrefix(lines, all, |lines| - 1);
    }
  }

  // ---------------------------------------------------------------- what the lines are

  predicate NameBytes(name: seq<Byte>) { forall i :: 0 <= i < |name| ==> 33 <= name[i] <= 126 && name[i] != COLON }

  predicate TextBytes(text: seq<Byte>) { forall i :: 0 <= i < |text| ==> text[i] == TAB || 32 <= text[i] <= 126 }

  /** A name of printable bytes, a colon and a text make a field of that name, whatever the text, */
  lemma FieldLine(name: seq<Byte>, text: seq<Byte>)
    requires name != [] && NameBytes(name) && TextBytes(text)
    ensures Kind(name + [COLON] + text + CRLF) == Field(name)
  {
    var line, content := name + [COLON] + text + CRLF, name + [COLON] + text;
    assert line[|line| - 2..] == CRLF && line[..|line| - 2] == content;
    assert content[|name|] == COLON && forall i :: 0 <= i < |name| ==> content[i] == name[i];
    assert forall i :: 0 <= i < |content| ==> HeaderByte(content[i]);
    assert ColonAt(content) == Some(|name|);
    assert content[..|name|] == name;
  }

  /** ... no other line is a field, */
  lemma FieldLineOnly(line: seq<Byte>) returns (text: seq<Byte>)
    requires Kind(line).Field?
    ensures Kind(line).name != [] && NameBytes(Kind(line).name) && TextBytes(text)
    ensures line == Kind(line).name + [COLON] + text + CRLF
  {
    var content := line[..|line| - 2];
    var colon := ColonAt(content).value;
    text := content[colon + 1..];
    assert content == content[..colon] + [COLON] + text;
    assert line == content + CRLF;
  }

  /** ... and a blank before a text continues one. */
  lemma ContinuationLine(blank: Byte, text: seq<Byte>)
    requires (blank == SP || blank == TAB) && TextBytes(text)
    ensures Kind([blank] + text + CRLF) == Continuation
  {
    var line, content := [blank] + text + CRLF, [blank] + text;
    assert line[|line| - 2..] == CRLF && line[..|line| - 2] == content;
    assert forall i :: 0 <= i < |content| ==> HeaderByte(content[i]);
  }

  /** The trace field always goes, the blind recipients on submission, in any case; nothing else does. */
  lemma PrivateNames(name: seq<Byte>)
    ensures SameName(name, Octets("return-path")) ==> Private(name, true) && Private(name, false)
    ensures SameName(name, Octets("bcc")) || SameName(name, Octets("resent-bcc")) ==>
              Private(name, true) && !Private(name, false)
    ensures Private(name, true) ==>
              SameName(name, Octets("return-path")) || SameName(name, Octets("bcc"))
              || SameName(name, Octets("resent-bcc"))
  {
    assert SameName(Octets("return-path"), Octets("Return-Path"));
    assert SameName(Octets("bcc"), Octets("Bcc")) && SameName(Octets("resent-bcc"), Octets("Resent-Bcc"));
  }
}
