/** The DATA phase of the server (receive_message and SubmissionHeaders in crates/server/src/lib.rs). */
module Reception {
  import opened Wrappers
  import opened Framing
  import opened Headers
  import opened Messages
  import opened Tables
  import Addresses
  import Transfer

  /** LOCAL_DELIVERY_OVERHEAD_BYTES: the generated trace prefix and a missing separator. */
  const OVERHEAD := 2048

  datatype Rules = Rules(submission: bool, body: BodyMode, limits: Limits)

  datatype Refusal = Broken(error: FrameError) | Incomplete | EightBit | TooLarge | BadHeaders | Denied

  // ---------------------------------------------------------------- whose message it is

  /** SubmissionHeaders: the author found so far and whether the current field is From. */
  datatype Author = Author(address: Option<string>, inFrom: bool)

  const NOBODY := Author(None, false)

  predicate Blank(b: Byte) { b == 32 || 9 <= b <= 13 }

  predicate NameByte(b: Byte) { 48 <= b <= 57 || 65 <= b <= 90 || 97 <= b <= 122 || b == 45 }

  function Text(s: seq<Byte>): (r: string)
    ensures |r| == |s|
  {
    seq(|s|, i requires 0 <= i < |s| => s[i] as char)
  }

  function TrimLeft(s: seq<Byte>): seq<Byte> { if s != [] && Blank(s[0]) then TrimLeft(s[1..]) else s }
  function TrimRight(s: seq<Byte>): seq<Byte> {
    if s != [] && Blank(s[|s| - 1]) then TrimRight(s[..|s| - 1]) else s
  }

  /** The mailbox of a From field: bare, or in angle brackets after a plain display name. */
  function Mailbox(value: seq<Byte>): Option<string> { MailboxIn(Text(TrimRight(TrimLeft(value)))) }

  function MailboxIn(text: string): Option<string> {
    var open := Addresses.LastIndex(text, '<');
    if open.None? then Addresses.Parse(text)
    else
      var display, mailbox := text[..open.value], text[open.value + 1..];
      if (exists i :: 0 <= i < |display| && (display[i] in "<>,;:()" || display[i] >= 128 as char))
         || mailbox == "" || mailbox[|mailbox| - 1] != '>' then None
      else Addresses.Parse(mailbox[..|mailbox| - 1])
  }

  /** What one header line says about the author. */
  datatype Claim = Folded | Other | From(mailbox: Option<string>) | Forbidden

  function ClaimOf(line: seq<Byte>): Claim {
    if line != [] && Blank(line[0]) then Folded
    else
      var colon := ColonAt(line);
      if colon.None? || colon.value == 0 then Forbidden
      else
        var name := line[..colon.value];
        if (exists i :: 0 <= i < |name| && !NameByte(name[i]))
           || SameName(name, Octets("Sender")) || (|name| >= 7 && SameName(name[..7], Octets("Resent-"))) then Forbidden
        else if SameName(name, Octets("From")) then From(Mailbox(line[colon.value + 1..]))
        else Other
  }

  function Claims(lines: seq<seq<Byte>>): (r: seq<Claim>)
    ensures |r| == |lines| && forall i :: 0 <= i < |r| ==> r[i] == ClaimOf(lines[i])
  {
    seq(|lines|, i requires 0 <= i < |lines| => ClaimOf(lines[i]))
  }

  function Identify(a: Author, claim: Claim): Option<Author> {
    match claim
    case Folded => if a.inFrom then None else Some(a)
    case Forbidden => None
    case Other => Some(a.(inFrom := false))
    case From(mailbox) =>
      if a.address.Some? || mailbox.None? then None else Some(Author(mailbox, true))
  }

  function Identified(claims: seq<Claim>): Option<Author> {
    if claims == [] then Some(NOBODY)
    else
      var before := Identified(claims[..|claims| - 1]);
      if before.None? then None else Identify(before.value, claims[|claims| - 1])
  }

  /** No claim is of a forbidden kind, and the From fields are exactly the claims in `at`. */
  ghost predicate Clean(claims: seq<Claim>, at: set<nat>) {
    forall j :: 0 <= j < |claims| ==> !claims[j].Forbidden? && (claims[j].From? <==> j in at)
  }

  /** Line `i` is the only From field, is not folded, and names `address`. */
  ghost predicate Authored(claims: seq<Claim>, i: nat, address: string) {
    && i < |claims| && Clean(claims, {i}) && claims[i].mailbox == Some(address)
    && (i + 1 < |claims| ==> !claims[i + 1].Folded?)
  }

  /** The state a clean header leads to. */
  ghost predicate Leads(claims: seq<Claim>, a: Author) {
    && a.inFrom == (claims != [] && claims[|claims| - 1].From?)
    && if a.address.None? then Clean(claims, {}) else exists i :: Authored(claims, i, a.address.value)
  }

  lemma CleanStep(claims: seq<Claim>, claim: Claim, at: set<nat>)
    requires Clean(claims, at) && |claims| !in at
    ensures Clean(claims + [claim], at) <==> !claim.Forbidden? && !claim.From?
    ensures Clean(claims + [claim], at + {|claims|}) <==> claim.From?
  {
    var all := claims + [claim];
    assert forall j :: 0 <= j < |claims| ==> all[j] == claims[j];
    assert all[|claims|] == claim;
  }

  lemma AuthoredStep(claims: seq<Claim>, claim: Claim, i: nat, address: string)
    requires Authored(claims, i, address)
    ensures Authored(claims + [claim], i, address)
            <==> claim.Other? || (claim.Folded? && i + 1 < |claims|)
  {
    CleanStep(claims, claim, {i});
    var all := claims + [claim];
    assert all[i] == claims[i] && all[|claims|] == claim;
    assert i + 1 < |claims| ==> all[i + 1] == claims[i + 1];
  }

  /** The author's claim is the last one exactly when the current field is From. */
  lemma LastIsFrom(claims: seq<Claim>, i: nat, address: string)
    requires Authored(claims, i, address)
    ensures claims[|claims| - 1].From? <==> i + 1 == |claims|
  {
  }

  lemma LeadsStep(claims: seq<Claim>, a: Author, claim: Claim)
    requires Leads(claims, a) && Identify(a, claim).Some?
    ensures Leads(claims + [claim], Identify(a, claim).value)
  {
    var all, b := claims + [claim], Identify(a, claim).value;
    assert all[|all| - 1] == claim;
    if a.address.None? {
      CleanStep(claims, claim, {});
      if claim.From? {
        assert {} + {|claims|} == {|claims|};
        assert Authored(all, |claims|, b.address.value);
      }
    } else {
      var i: nat :| Authored(claims, i, a.address.value);
      AuthoredStep(claims, claim, i, a.address.value);
      LastIsFrom(claims, i, a.address.value);
      assert Authored(all, i, a.address.value);
    }
  }

  lemma CleanBefore(claims: seq<Claim>, claim: Claim, at: set<nat>)
    requires Clean(claims + [claim], at)
    ensures Clean(claims, at - {|claims|})
    ensures !claim.Forbidden? && (claim.From? <==> |claims| in at)
  {
    var all := claims + [claim];
    assert forall j :: 0 <= j < |claims| ==> all[j] == claims[j];
    assert all[|claims|] == claim;
  }

  lemma AnonymousBefore(claims: seq<Claim>, claim: Claim)
    requires Clean(claims + [claim], {})
    ensures Leads(claims, NOBODY) && !claim.From? && Identify(NOBODY, claim) == Some(NOBODY)
  {
    CleanBefore(claims, claim, {});
    assert {} - {|claims|} == {};
  }

  lemma NamedNow(claims: seq<Claim>, claim: Claim, address: string)
    requires Authored(claims + [claim], |claims|, address)
    ensures Leads(claims, NOBODY) && claim.From? && Identify(NOBODY, claim) == Some(Author(Some(address), true))
  {
    CleanBefore(claims, claim, {|claims|});
    assert {|claims|} - {|claims|} == {};
    assert (claims + [claim])[|claims|] == claim;
  }

  lemma NamedBefore(claims: seq<Claim>, claim: Claim, i: nat, address: string)
    requires Authored(claims + [claim], i, address) && i < |claims|
    ensures Authored(claims, i, address) && (claim.Other? || (claim.Folded? && i + 1 < |claims|))
  {
    var all := claims + [claim];
    CleanBefore(claims, claim, {i});
    assert {i} - {|claims|} == {i};
    assert all[i] == claims[i] && all[|claims|] == claim && (i + 1 < |claims| ==> all[i + 1] == claims[i + 1]);
  }

  lemma NamedEarlier(claims: seq<Claim>, claim: Claim, i: nat, address: string)
    requires Authored(claims + [claim], i, address) && i < |claims|
    ensures var a := Author(Some(address), i + 1 == |claims|);
            Leads(claims, a) && Identify(a, claim) == Some(Author(Some(address), false)) && !claim.From?
  {
    NamedBefore(claims, claim, i, address);
    LastIsFrom(claims, i, address);
  }

  /** A clean header stays clean when its last claim is taken away. */
  lemma LeadsBefore(claims: seq<Claim>, claim: Claim, b: Author) returns (a: Author)
    requires Leads(claims + [claim], b)
    ensures Leads(claims, a) && Identify(a, claim) == Some(b)
  {
    var all := claims + [claim];
    assert all[|all| - 1] == claim;
    a := NOBODY;
    if b.address.None? {
      AnonymousBefore(claims, claim);
    } else {
      var i: nat :| Authored(all, i, b.address.value);
      if i < |claims| {
        NamedEarlier(claims, claim, i, b.address.value);
        a := Author(b.address, i + 1 == |claims|);
      } else {
        NamedNow(claims, claim, b.address.value);
      }
    }
  }

  /**
   * The streaming check finds exactly the clean headers: one From field, not folded, with one valid
   * mailbox, no Sender or Resent field and no odd field name; the author is that mailbox.
   */
  lemma {:induction false} IdentifiedExactly(claims: seq<Claim>, a: Author)
    ensures Identified(claims) == Some(a) <==> Leads(claims, a)
  {
    if claims == [] {
      assert Leads(claims, NOBODY);
      assert forall i, address :: !Authored(claims, i, address);
    } else {
      var n := |claims| - 1;
      var before, claim := claims[..n], claims[n];
      assert before + [claim] == claims;
      if Identified(claims) == Some(a) {
        IdentifiedExactly(before, Identified(before).value);
        LeadsStep(before, Identified(before).value, claim);
      }
      if Leads(claims, a) {
        var b := LeadsBefore(before, claim, a);
        IdentifiedExactly(before, b);
      }
    }
  }

  // ---------------------------------------------------------------- line by line

  /** The variables of the receiving loop. */
  datatype Intake = Intake(scan: Scan, size: nat, author: Author)

  const FIRST := Intake(BEGIN, 0, NOBODY)

  /** One decoded line; the checks in their order. */
  function IntakeLine(v: Intake, data: seq<Byte>, rules: Rules): Result<Intake, Refusal> {
    if rules.body == SevenBit && !Ascii(data) then Err(EightBit)
    else if v.size + |data| > rules.limits.message then Err(TooLarge)
    else if v.scan.headers && v.scan.headerBytes + |data| > rules.limits.header then Err(TooLarge)
    else
      var scan := ScanFrame(v.scan, data, rules.submission, rules.limits.header);
      if scan.None? then Err(BadHeaders)
      else if rules.submission && v.scan.headers && data != CRLF then
        var author := Identify(v.author, ClaimOf(data));
        if author.None? then Err(Denied) else Ok(Intake(scan.value, v.size + |data|, author.value))
      else Ok(Intake(scan.value, v.size + |data|, v.author))
  }

  function Intaken(lines: seq<seq<Byte>>, rules: Rules): Result<Intake, Refusal> {
    if lines == [] then Ok(FIRST)
    else
      var before :- Intaken(lines[..|lines| - 1], rules);
      IntakeLine(before, lines[|lines| - 1], rules)
  }

  /** What is staged: trace prefix, filtered message, and a separator if the client sent none. */
  datatype Mail = Mail(staged: seq<Byte>, author: Option<string>)

  function Finished(v: Intake, rules: Rules, prefix: seq<Byte>): Result<Mail, Refusal> {
    if rules.submission && v.author.address.None? then Err(Denied)
    else Ok(Mail(prefix + v.scan.out + (if v.scan.headers then CRLF else []),
                 if rules.submission then v.author.address else None))
  }

  /** The loop over the frames of the stream; `error` is what stops the decoder after them. */
  function Received(v: Intake, frames: seq<seq<Byte>>, error: Option<FrameError>, rules: Rules, prefix: seq<Byte>)
    : Result<Mail, Refusal>
    decreases |frames|
  {
    if frames == [] then Err(if error.Some? then Broken(error.value) else Incomplete)
    else
      var data := DataFrame(frames[0]);
      if data.Err? then Err(Broken(data.error))
      else if data.value.None? then Finished(v, rules, prefix)
      else
        var next :- IntakeLine(v, data.value.value, rules);
        Received(next, frames[1..], error, rules, prefix)
  }

  // ---------------------------------------------------------------- the whole message

  function AuthorOf(lines: seq<seq<Byte>>): Option<Author> { Identified(Claims(lines)) }

  /** Messages that may be staged. */
  predicate Admissible(lines: seq<seq<Byte>>, rules: Rules) {
    && (rules.body == SevenBit ==> Ascii(Flatten(lines)))
    && |Flatten(lines)| <= rules.limits.message
    && Fine(lines, rules.limits.header)
    && (rules.submission ==> AuthorOf(Head(lines)).Some?)
  }

  ghost predicate IntakeAt(v: Intake, lines: seq<seq<Byte>>, rules: Rules) {
    && Scanned(lines, rules.submission, rules.limits.header) == Some(v.scan)
    && v.size == |Flatten(lines)|
    && (if rules.submission then AuthorOf(Head(lines)) == Some(v.author) else v.author == NOBODY)
  }

  lemma AuthorStep(lines: seq<seq<Byte>>, f: seq<Byte>)
    ensures AuthorOf(lines + [f])
            == if AuthorOf(lines).None? then None else Identify(AuthorOf(lines).value, ClaimOf(f))
  {
    assert Claims(lines + [f]) == Claims(lines) + [ClaimOf(f)];
    assert (Claims(lines) + [ClaimOf(f)])[..|lines|] == Claims(lines);
  }

  /** The author after one more line, in or after the header. */
  lemma AuthorGrows(v: Intake, lines: seq<seq<Byte>>, f: seq<Byte>, rules: Rules)
    requires IntakeAt(v, lines, rules) && rules.submission && v.scan.headers == Separator(lines).None?
    ensures AuthorOf(Head(lines + [f]))
            == if v.scan.headers && f != CRLF then Identify(v.author, ClaimOf(f)) else Some(v.author)
  {
    HeadGrows(lines, f);
    AuthorStep(lines, f);
  }

  lemma ScanHeaders(lines: seq<seq<Byte>>, bcc: bool, limit: nat)
    requires Scanned(lines, bcc, limit).Some?
    ensures Fine(lines, limit) && Scanned(lines, bcc, limit).value.headers == Separator(lines).None?
    ensures Scanned(lines, bcc, limit).value.out == Output(lines, bcc)
  {
    ScannedIs(lines, bcc, limit);
    ScanIsFine(Scanned(lines, bcc, limit).value, lines, bcc, limit);
  }

  lemma LinesGrow(lines: seq<seq<Byte>>, f: seq<Byte>)
    ensures |Flatten(lines + [f])| == |Flatten(lines)| + |f|
    ensures Ascii(Flatten(lines + [f])) <==> Ascii(Flatten(lines)) && Ascii(f)
  {
    FlattenAppend(lines, f);
    AsciiConcat(Flatten(lines), f);
  }

  /** One line is taken in exactly when each of the four conditions still holds. */
  lemma IntakeLineIs(v: Intake, f: seq<Byte>, rules: Rules)
    ensures var scan := ScanFrame(v.scan, f, rules.submission, rules.limits.header);
            var author := if rules.submission && v.scan.headers && f != CRLF then Identify(v.author, ClaimOf(f))
                          else Some(v.author);
            var r := IntakeLine(v, f, rules);
            && (r.Ok? <==> (rules.body == SevenBit ==> Ascii(f)) && v.size + |f| <= rules.limits.message
                           && scan.Some? && author.Some?)
            && (r.Ok? ==> r.value == Intake(scan.value, v.size + |f|, author.value))
  {
  }

  lemma IntakeStep(v: Intake, lines: seq<seq<Byte>>, f: seq<Byte>, rules: Rules)
    requires IntakeAt(v, lines, rules) && (rules.body == SevenBit ==> Ascii(Flatten(lines)))
    ensures IntakeLine(v, f, rules).Ok? ==> IntakeAt(IntakeLine(v, f, rules).value, lines + [f], rules)
    ensures IntakeLine(v, f, rules).Ok? <==>
              && (rules.body == SevenBit ==> Ascii(Flatten(lines + [f])))
              && |Flatten(lines + [f])| <= rules.limits.message
              && Scanned(lines + [f], rules.submission, rules.limits.header).Some?
              && (rules.submission ==> AuthorOf(Head(lines + [f])).Some?)
  {
    ScanHeaders(lines, rules.submission, rules.limits.header);
    LinesGrow(lines, f);
    IntakeLineIs(v, f, rules);
    ScannedStep(lines, f, rules.submission, rules.limits.header);
    if rules.submission {
      AuthorGrows(v, lines, f, rules);
    }
  }

  lemma AdmissibleIs(lines: seq<seq<Byte>>, rules: Rules)
    ensures Admissible(lines, rules) <==>
              && (rules.body == SevenBit ==> Ascii(Flatten(lines)))
              && |Flatten(lines)| <= rules.limits.message
              && Scanned(lines, rules.submission, rules.limits.header).Some?
              && (rules.submission ==> AuthorOf(Head(lines)).Some?)
  {
    ScannedIs(lines, rules.submission, rules.limits.header);
  }

  /** Dropping the last line keeps a message admissible. */
  lemma AdmissibleBefore(lines: seq<seq<Byte>>, f: seq<Byte>, rules: Rules)
    requires Admissible(lines + [f], rules)
    ensures Admissible(lines, rules)
  {
    FineBefore(lines, f, rules.limits.header);
    FlattenAppend(lines, f);
    AsciiConcat(Flatten(lines), f);
    HeadGrows(lines, f);
    AuthorStep(lines, f);
  }

  /** The loop admits exactly the admissible messages. */
  lemma {:induction false} IntakenExactly(lines: seq<seq<Byte>>, rules: Rules)
    ensures Intaken(lines, rules).Ok? <==> Admissible(lines, rules)
    ensures Intaken(lines, rules).Ok? ==> IntakeAt(Intaken(lines, rules).value, lines, rules)
  {
    if lines == [] {
      assert Claims([]) == [];
    } else {
      var n := |lines| - 1;
      var before, f := lines[..n], lines[n];
      assert before + [f] == lines;
      IntakenExactly(before, rules);
      AdmissibleIs(before, rules);
      AdmissibleIs(lines, rules);
      if Admissible(lines, rules) {
        AdmissibleBefore(before, f, rules);
      }
      if Intaken(before, rules).Ok? {
        IntakeStep(Intaken(before, rules).value, before, f, rules);
      }
    }
  }

  lemma {:induction false} RefusalSticks(lines: seq<seq<Byte>>, more: seq<seq<Byte>>, rules: Rules)
    requires Intaken(lines, rules).Err?
    ensures Intaken(lines + more, rules).Err?
  {
    if more == [] {
      assert lines + more == lines;
    } else {
      var n := |more| - 1;
      RefusalSticks(lines, more[..n], rules);
      assert (lines + more)[..|lines + more| - 1] == lines + more[..n];
    }
  }

  lemma IntakenStep(lines: seq<seq<Byte>>, f: seq<Byte>, v: Intake, rules: Rules)
    requires Intaken(lines, rules) == Ok(v)
    ensures Intaken(lines + [f], rules) == IntakeLine(v, f, rules)
  {
    assert (lines + [f])[..|lines|] == lines;
  }

  lemma PayloadFirst(frames: seq<seq<Byte>>)
    requires frames != [] && DataFrame(frames[0]).Ok?
    ensures var data, rest := DataFrame(frames[0]).value, Transfer.Payload(frames[1..]);
            Transfer.Payload(frames)
            == if data.None? then Some([]) else if rest.None? then None else Some([data.value] + rest.value)
  {
  }

  /** The loop ends like this once the lines `all` have been taken in. */
  function Ending(all: seq<seq<Byte>>, rules: Rules, prefix: seq<Byte>): Result<Mail, Refusal> {
    var v :- Intaken(all, rules);
    Finished(v, rules, prefix)
  }

  lemma EndingSticks(done: seq<seq<Byte>>, more: seq<seq<Byte>>, rules: Rules, prefix: seq<Byte>)
    requires Intaken(done, rules).Err?
    ensures Ending(done + more, rules, prefix).Err?
  {
    RefusalSticks(done, more, rules);
  }

  /** From any point of the stream, the loop ends well exactly if the rest holds a payload that is taken in. */
  lemma {:induction false} ReceivedFrom(v: Intake, done: seq<seq<Byte>>, frames: seq<seq<Byte>>,
                                        error: Option<FrameError>,
                                        rules: Rules, prefix: seq<Byte>)
    requires Intaken(done, rules) == Ok(v)
    ensures var payload, r := Transfer.Payload(frames), Received(v, frames, error, rules, prefix);
            && (r.Ok? <==> payload.Some? && Ending(done + payload.value, rules, prefix).Ok?)
            && (r.Ok? ==> r == Ending(done + payload.value, rules, prefix))
    decreases |frames|, 0
  {
    if frames != [] {
      ReceivedTurn(v, frames, error, rules, prefix);
      if DataFrame(frames[0]).Ok? {
        PayloadFirst(frames);
        var data := DataFrame(frames[0]).value;
        if data.None? {
          assert done + [] == done;
        } else {
          ReceivedNext(v, done, data.value, frames[1..], error, rules, prefix);
        }
      }
    }
  }

  lemma {:induction false} ReceivedNext(v: Intake, done: seq<seq<Byte>>, f: seq<Byte>, rest: seq<seq<Byte>>,
                                        error: Option<FrameError>,
                                        rules: Rules, prefix: seq<Byte>)
    requires Intaken(done, rules) == Ok(v)
    ensures var payload, next := Transfer.Payload(rest), IntakeLine(v, f, rules);
            var r := if next.Err? then Err(next.error) else Received(next.value, rest, error, rules, prefix);
            && (r.Ok? <==> payload.Some? && Ending(done + ([f] + payload.value), rules, prefix).Ok?)
            && (r.Ok? ==> r == Ending(done + ([f] + payload.value), rules, prefix))
    decreases |rest|, 1
  {
    IntakenStep(done, f, v, rules);
    var payload := Transfer.Payload(rest);
    if payload.Some? {
      assert done + ([f] + payload.value) == done + [f] + payload.value;
    }
    if IntakeLine(v, f, rules).Ok? {
      ReceivedFrom(IntakeLine(v, f, rules).value, done + [f], rest, error, rules, prefix);
    } else if payload.Some? {
      EndingSticks(done + [f], payload.value, rules, prefix);
    }
  }

  /** What a payload is staged as. */
  ghost predicate StagedAs(lines: seq<seq<Byte>>, mail: Mail, rules: Rules, prefix: seq<Byte>)
    requires Fielded(Head(lines))
  {
    && mail.staged == prefix + Output(lines, rules.submission) + (if Separator(lines).None? then CRLF else [])
    && (if rules.submission then mail.author.Some? && exists i :: Authored(Claims(Head(lines)), i, mail.author.value)
        else mail.author.None?)
  }

  /**
   * For every stream: a message is received exactly when its payload is terminated and admissible (and
   * on submission names its author); what is staged is the trace prefix, the fields that may stay and
   * every byte from the separator on.
   */
  lemma ReceivedExactly(frames: seq<seq<Byte>>, error: Option<FrameError>, rules: Rules, prefix: seq<Byte>)
    ensures var payload, r := Transfer.Payload(frames), Received(FIRST, frames, error, rules, prefix);
            && (r.Ok? <==> payload.Some? && Admissible(payload.value, rules)
                           && (rules.submission ==> AuthorOf(Head(payload.value)).value.address.Some?))
            && (r.Ok? ==> StagedAs(payload.value, r.value, rules, prefix))
  {
    ReceivedFrom(FIRST, [], frames, error, rules, prefix);
    var payload := Transfer.Payload(frames);
    if payload.Some? {
      var lines := payload.value;
      assert [] + lines == lines;
      IntakenExactly(lines, rules);
      if Intaken(lines, rules).Ok? {
        var v := Intaken(lines, rules).value;
        ScanHeaders(lines, rules.submission, rules.limits.header);
        IdentifiedExactly(Claims(Head(lines)), v.author);
      }
    }
  }

  lemma OutputShorter(lines: seq<seq<Byte>>, bcc: bool)
    requires Fielded(Head(lines))
    ensures |Output(lines, bcc)| <= |Flatten(lines)|
  {
    var head := Head(lines);
    FilteredTwice(head, head != [], head != [] && !Stays(head, |head| - 1, bcc), bcc);
    SplitLength(Flatten(lines), lines);
  }

  /** Nothing larger than the message limit and the reserved overhead is ever staged. */
  lemma StagedWithinBudget(frames: seq<seq<Byte>>, error: Option<FrameError>, rules: Rules, prefix: seq<Byte>)
    requires |prefix| + 2 <= OVERHEAD && Received(FIRST, frames, error, rules, prefix).Ok?
    ensures |Received(FIRST, frames, error, rules, prefix).value.staged| <= rules.limits.message + OVERHEAD
  {
    ReceivedExactly(frames, error, rules, prefix);
    OutputShorter(Transfer.Payload(frames).value, rules.submission);
  }

  // ---------------------------------------------------------------- the loops

  /** A buffered reader over the chunks the transport will deliver; none of them is empty. */
  class BufReader {
    var chunks: seq<seq<Byte>>

    ghost predicate Valid()
      reads this
    {
      forall i :: 0 <= i < |chunks| ==> chunks[i] != []
    }

    /** All bytes still to come. */
    ghost function Left(): seq<Byte>
      reads this
    {
      Flatten(chunks)
    }

    constructor (chunks: seq<seq<Byte>>)
      requires forall i :: 0 <= i < |chunks| ==> chunks[i] != []
      ensures Valid() && Left() == Flatten(chunks)
    {
      this.chunks := chunks;
    }

    method FillBuf() returns (bytes: seq<Byte>)
      requires Valid()
      ensures bytes == (if chunks == [] then [] else chunks[0]) && bytes <= Left()
      ensures bytes == [] ==> Left() == []
    {
      if chunks == [] {
        return [];
      }
      FirstOut(chunks);
      return chunks[0];
    }

    method Consume(used: nat)
      requires Valid() && chunks != [] && used <= |chunks[0]|
      modifies this
      ensures Valid() && used <= |old(Left())| && Left() == old(Left())[used..]
    {
      FirstOut(chunks);
      var left := chunks[0][used..];
      assert Flatten(chunks)[used..] == left + Flatten(chunks[1..]);
      chunks := if left == [] then chunks[1..] else [left] + chunks[1..];
    }
  }

  /** `fill_line`: reads until one frame is complete, and takes no byte after it. */
  method FillLine(decoder: LineDecoder, reader: BufReader, ghost frames: seq<seq<Byte>>)
    returns (r: Result<seq<Byte>, Refusal>)
    requires decoder.Valid() && !decoder.complete && decoder.buffer == [] && reader.Valid()
    modifies decoder, reader
    ensures decoder.Valid() && !decoder.complete && reader.Valid()
    ensures var end := Consume(Progress(frames, [], None), old(reader.Left()), decoder.limit);
            match r
            case Ok(frame) =>
              && decoder.buffer == [] && old(reader.Left()) == frame + reader.Left()
              && end == Consume(Progress(frames + [frame], [], None), reader.Left(), decoder.limit)
            case Err(e) => end.frames == frames && e == if end.error.Some? then Broken(end.error.value) else Incomplete
  {
    var available := reader.FillBuf();
    ghost var start, end := reader.Left(), Consume(Progress(frames, [], None), reader.Left(), decoder.limit);
    while available != []
      invariant decoder.Valid() && !decoder.complete && reader.Valid()
      invariant available == (if reader.chunks == [] then [] else reader.chunks[0])
      invariant available == [] ==> reader.Left() == []
      invariant Consume(Progress(frames, decoder.buffer, None), reader.Left(), decoder.limit) == end
      invariant decoder.buffer + reader.Left() == start
      decreases |reader.Left()|
    {
      var next := FillOnce(decoder, reader, available, frames);
      if next.Err? {
        return Err(Broken(next.error));
      }
      if next.value.Some? {
        return Ok(next.value.value);
      }
      available := reader.FillBuf();
    }
    return Err(Incomplete);
  }

  /** One turn: the first chunk is fed, and what was used of it is consumed. */
  method FillOnce(decoder: LineDecoder, reader: BufReader, available: seq<Byte>, ghost frames: seq<seq<Byte>>)
    returns (next: Result<Option<seq<Byte>>, FrameError>)
    requires decoder.Valid() && !decoder.complete && reader.Valid()
    requires reader.chunks != [] && available == reader.chunks[0] && available != []
    modifies decoder, reader
    ensures decoder.Valid() && !decoder.complete && reader.Valid()
    ensures var end := Consume(Progress(frames, old(decoder.buffer), None), old(reader.Left()), decoder.limit);
            match next
            case Err(e) => end == Progress(frames, decoder.buffer, Some(e))
            case Ok(Some(frame)) =>
              && decoder.buffer == [] && old(decoder.buffer) + old(reader.Left()) == frame + reader.Left()
              && end == Consume(Progress(frames + [frame], [], None), reader.Left(), decoder.limit)
            case Ok(None) =>
              && |reader.Left()| < |old(reader.Left())|
              && old(decoder.buffer) + old(reader.Left()) == decoder.buffer + reader.Left()
              && end == Consume(Progress(frames, decoder.buffer, None), reader.Left(), decoder.limit)
  {
    ghost var held, whole := decoder.buffer, reader.Left();
    FirstOut(reader.chunks);
    var used;
    next, used := NextFrame(decoder, available, frames);
    if next.Err? {
      FilledBadly(frames, held, available, whole, Progress(frames, decoder.buffer, Some(next.error)), decoder.limit);
    } else {
      ghost var taken := Progress(frames + AsList(next.value), decoder.buffer, None);
      FilledState(Progress(frames, held, None), taken, available, whole, used, decoder.limit);
      FilledBytes(held, available, whole, used, if next.value.Some? then next.value.value else decoder.buffer);
      assert next.value.None? ==> taken.frames == frames;
      reader.Consume(used);
    }
  }

  /** Taking bytes from the first chunk, seen from the whole input: where decoding leads ... */
  lemma FilledState(p: Progress, q: Progress, chunk: seq<Byte>, whole: seq<Byte>, used: nat, limit: nat)
    requires chunk <= whole && used <= |chunk| && Consume(p, chunk, limit) == Consume(q, chunk[used..], limit)
    ensures Consume(p, whole, limit) == Consume(q, whole[used..], limit)
  {
    var more := whole[|chunk|..];
    assert whole == chunk + more && whole[used..] == chunk[used..] + more;
    ConsumeConcat(p, chunk, more, limit);
    ConsumeConcat(q, chunk[used..], more, limit);
  }

  /** ... and which bytes are accounted for. */
  lemma FilledBytes(held: seq<Byte>, chunk: seq<Byte>, whole: seq<Byte>, used: nat, taken: seq<Byte>)
    requires chunk <= whole && used <= |chunk| && taken == held + chunk[..used]
    ensures held + whole == taken + whole[used..]
  {
    assert whole == chunk[..used] + whole[used..];
  }

  lemma FilledBadly(frames: seq<seq<Byte>>, held: seq<Byte>, chunk: seq<Byte>, whole: seq<Byte>, q: Progress,
                    limit: nat)
    requires chunk <= whole && Consume(Progress(frames, held, None), chunk, limit) == q && q.error.Some?
    ensures Consume(Progress(frames, held, None), whole, limit) == q
  {
    assert whole == chunk + whole[|chunk|..];
    ConsumeConcat(Progress(frames, held, None), chunk, whole[|chunk|..], limit);
    ErrorSticks(q, whole[|chunk|..], limit);
  }

  lemma FirstOut(rest: seq<seq<Byte>>)
    requires rest != []
    ensures Flatten(rest) == rest[0] + Flatten(rest[1..])
    ensures forall left :: Flatten([left] + rest[1..]) == left + Flatten(rest[1..])
  {
    assert rest == [rest[0]] + rest[1..];
    FlattenFront(rest[0], rest[1..]);
    forall left ensures Flatten([left] + rest[1..]) == left + Flatten(rest[1..]) {
      FlattenFront(left, rest[1..]);
    }
  }

  /** The loop's variables and the filter's fields are those of `v`. */
  ghost predicate HoldsIntake(v: Intake, filter: HeaderFilter, inHeaders: bool, headerBytes: nat, size: nat,
                              author: Author)
    reads filter
  {
    && v.scan.headers == inHeaders && v.scan.seen == filter.fieldSeen && v.scan.removing == filter.removing
    && v.scan.headerBytes == headerBytes && v.size == size && v.author == author
  }

  /** One decoded line through all checks. */
  method TakeLine(filter: HeaderFilter, data: seq<Byte>, rules: Rules, inHeaders: bool, headerBytes: nat, size: nat,
                  author: Author, ghost v: Intake)
    returns (refusal: Option<Refusal>, retain: bool, inHeaders': bool, headerBytes': nat, size': nat, author': Author)
    requires HoldsIntake(v, filter, inHeaders, headerBytes, size, author) && filter.removeBcc == rules.submission
    modifies filter
    ensures refusal.Some? ==> IntakeLine(v, data, rules) == Err(refusal.value)
    ensures refusal.None? ==>
              && IntakeLine(v, data, rules).Ok?
              && var w := IntakeLine(v, data, rules).value;
                 HoldsIntake(w, filter, inHeaders', headerBytes', size', author')
                 && w.scan.out == v.scan.out + if retain then data else []
  {
    refusal, retain, inHeaders', headerBytes', size', author' := None, true, inHeaders, headerBytes, size, author;
    if rules.body == SevenBit && !Ascii(data) {
      return Some(EightBit), false, inHeaders', headerBytes', size', author';
    }
    size' := size + |data|;
    if size' > rules.limits.message {
      return Some(TooLarge), false, inHeaders', headerBytes', size', author';
    }
    if inHeaders {
      headerBytes' := headerBytes + |data|;
      if headerBytes' > rules.limits.header {
        return Some(TooLarge), false, inHeaders', headerBytes', size', author';
      }
      if data == CRLF {
        inHeaders' := false;
      } else {
        var kept := filter.Retain(data);
        if kept.Err? {
          return Some(BadHeaders), false, inHeaders', headerBytes', size', author';
        }
        if rules.submission {
          var found := Identify(author, ClaimOf(data));
          if found.None? {
            return Some(Denied), false, inHeaders', headerBytes', size', author';
          }
          author' := found.value;
        }
        retain := kept.value;
      }
    }
  }

  /** The end of the data: no submission without an author, and a separator if none was sent. */
  method Conclude(rules: Rules, inHeaders: bool, author: Author, stage: seq<Byte>, ghost v: Intake,
                  ghost prefix: seq<Byte>)
    returns (r: Result<Mail, Refusal>)
    requires v.scan.headers == inHeaders && v.author == author && stage == prefix + v.scan.out
    ensures r == Finished(v, rules, prefix)
  {
    if rules.submission && author.address.None? {
      return Err(Denied);
    }
    var staged := stage + if inHeaders then CRLF else [];
    return Ok(Mail(staged, if rules.submission then author.address else None));
  }

  /** The frames still to come, after one more was taken. */
  lemma NextOut(taken: seq<seq<Byte>>, frame: seq<Byte>, rest: seq<seq<Byte>>, input: seq<Byte>, limit: nat)
    requires taken + rest == Consume(Progress(taken + [frame], [], None), input, limit).frames
    ensures rest != [] && rest[0] == frame && taken + rest == taken + [frame] + rest[1..]
  {
    Extends(Progress(taken + [frame], [], None), input, limit);
    assert (taken + [frame])[|taken|] == frame == (taken + rest)[|taken|];
  }

  /** One turn of the loop, on the specification. */
  lemma ReceivedTurn(v: Intake, rest: seq<seq<Byte>>, error: Option<FrameError>, rules: Rules, prefix: seq<Byte>)
    requires rest != []
    ensures var data, r := DataFrame(rest[0]), Received(v, rest, error, rules, prefix);
            && (data.Err? ==> r == Err(Broken(data.error)))
            && (data.Ok? && data.value.None? ==> rest[0] == END && r == Finished(v, rules, prefix))
            && (data.Ok? && data.value.Some? ==>
                  var next := IntakeLine(v, data.value.value, rules);
                  r == if next.Err? then Err(next.error) else Received(next.value, rest[1..], error, rules, prefix))
  {
  }

  lemma NothingLeft(taken: seq<seq<Byte>>, rest: seq<seq<Byte>>)
    requires taken + rest == taken
    ensures rest == []
  {
    assert |taken + rest| == |taken|;
  }

  lemma OneMoreTaken(taken: seq<seq<Byte>>, frame: seq<Byte>, left: seq<Byte>, more: seq<Byte>)
    requires left == frame + more
    ensures Flatten(taken) + left == Flatten(taken + [frame]) + more
  {
    FlattenAppend(taken, frame);
  }

  /**
   * `receive_message`: for every chunking of the stream it stages exactly the specified mail, or fails
   * with the first refusal, and takes no byte after the terminator.
   */
  method Receive(reader: BufReader, rules: Rules, prefix: seq<Byte>)
    returns (r: Result<Mail, Refusal>, ghost taken: seq<seq<Byte>>)
    requires reader.Valid()
    modifies reader
    ensures var end := Consume(START, old(reader.Left()), LINE + 1);
            r == Received(FIRST, end.frames, end.error, rules, prefix)
    ensures r.Ok? ==> taken != [] && taken[|taken| - 1] == END && old(reader.Left()) == Flatten(taken) + reader.Left()
  {
    var decoder := new LineDecoder(LINE + 1);
    var filter := new HeaderFilter(rules.submission);
    var inHeaders, headerBytes, size, author, stage := true, 0, 0, NOBODY, prefix;
    ghost var v, end := FIRST, Consume(START, reader.Left(), LINE + 1);
    taken := [];
    assert prefix + [] == prefix;
    ghost var rest, answer := end.frames, Received(FIRST, end.frames, end.error, rules, prefix);
    assert [] + rest == rest;
    while true
      invariant decoder.Valid() && !decoder.complete && decoder.buffer == [] && decoder.limit == LINE + 1
      invariant fresh(decoder) && fresh(filter) && reader.Valid() && filter.removeBcc == rules.submission
      invariant HoldsIntake(v, filter, inHeaders, headerBytes, size, author) && stage == prefix + v.scan.out
      invariant Consume(Progress(taken, [], None), reader.Left(), LINE + 1) == end && taken + rest == end.frames
      invariant Received(v, rest, end.error, rules, prefix) == answer
      invariant Flatten(taken) + reader.Left() == old(reader.Left())
      decreases |rest|
    {
      ghost var left := reader.Left();
      var line := FillLine(decoder, reader, taken);
      if line.Err? {
        NothingLeft(taken, rest);
        return Err(line.error), taken;
      }
      NextOut(taken, line.value, rest, reader.Left(), LINE + 1);
      OneMoreTaken(taken, line.value, left, reader.Left());
      ReceivedTurn(v, rest, end.error, rules, prefix);
      taken := taken + [line.value];
      var data := DataFrame(line.value);
      if data.Err? {
        return Err(Broken(data.error)), taken;
      }
      if data.value.None? {
        var mail := Conclude(rules, inHeaders, author, stage, v, prefix);
        return mail, taken;
      }
      var refusal, retain;
      refusal, retain, inHeaders, headerBytes, size, author :=
        TakeLine(filter, data.value.value, rules, inHeaders, headerBytes, size, author, v);
      if refusal.Some? {
        return Err(refusal.value), taken;
      }
      Join(prefix, v.scan.out, if retain then data.value.value else []);
      v, rest := IntakeLine(v, data.value.value, rules).value, rest[1..];
      stage := stage + if retain then data.value.value else [];
    }
  }

  /**
   * From the relay's disk to the next server's: a sendable message, transferred in any reads and received in
   * any chunks, is received exactly when its lines are admissible there (and on submission name their author),
   * and is then staged with every line that may stay, byte for byte.
   */
  lemma RelayedIntact(chunks: seq<seq<Byte>>, m: Transfer.Outgoing, rules: Rules, prefix: seq<Byte>)
    requires Transfer.Sendable(Flatten(chunks), m)
    ensures var end := Consume(START, Transfer.Wire(Transfer.FramesOf(chunks), m) + END, LINE + 1);
            var lines := Transfer.Kept(Transfer.FramesOf(chunks), m);
            var r := Received(FIRST, end.frames, end.error, rules, prefix);
            && m.omit + Flatten(lines) == Flatten(chunks)
            && (r.Ok? <==> Admissible(lines, rules) && (rules.submission ==> AuthorOf(Head(lines)).value.address.Some?))
            && (r.Ok? ==> StagedAs(lines, r.value, rules, prefix))
  {
    Transfer.RoundTrip(chunks, m);
    var end := Consume(START, Transfer.Wire(Transfer.FramesOf(chunks), m) + END, LINE + 1);
    ReceivedExactly(end.frames, end.error, rules, prefix);
  }

  // ---------------------------------------------------------------- which lines name an author

  predicate FieldName(name: seq<Byte>) { name != [] && forall i :: 0 <= i < |name| ==> NameByte(name[i]) }

  lemma NameEnds(name: seq<Byte>, text: seq<Byte>)
    requires FieldName(name)
    ensures var line := name + [COLON] + text;
            && line != [] && !Blank(line[0]) && ColonAt(line) == Some(|name|)
            && line[..|name|] == name && line[|name| + 1..] == text
  {
    var line := name + [COLON] + text;
    assert line[|name|] == COLON && forall i :: 0 <= i < |name| ==> line[i] == name[i];
    assert NameByte(name[0]);
  }

  /**
   * In any case: a From field claims its mailbox, Sender and every Resent field are forbidden, and no other field of
   * plain name says anything about the author.
   */
  lemma ClaimsByName(name: seq<Byte>, text: seq<Byte>)
    requires FieldName(name)
    ensures var claim := ClaimOf(name + [COLON] + text);
            && (SameName(name, Octets("from")) ==> claim == From(Mailbox(text)))
            && (SameName(name, Octets("sender")) || (|name| >= 7 && SameName(name[..7], Octets("resent-"))) ==>
                  claim == Forbidden)
            && (claim.From? ==> SameName(name, Octets("from")))
            && (claim.Forbidden? ==>
                  SameName(name, Octets("sender")) || (|name| >= 7 && SameName(name[..7], Octets("resent-"))))
            && !claim.Folded?
  {
    NameEnds(name, text);
    assert SameName(Octets("from"), Octets("From")) && SameName(Octets("sender"), Octets("Sender"));
    assert SameName(Octets("resent-"), Octets("Resent-"));
  }

  /** A mailbox alone, or in angle brackets after a plain display name, is read as itself. */
  lemma MailboxReads(address: Addresses.Address, display: seq<Byte>)
    requires forall i :: 0 <= i < |display| ==> 32 < display[i] < 127 && display[i] as char !in "<>,;:()"
    ensures Mailbox(Octets(address)) == Some(address)
    ensures Mailbox(display + [60] + Octets(address) + [62]) == Some(address)
  {
    forall i | 0 <= i < |address| ensures 32 < address[i] as int < 127 && address[i] != '<' && address[i] != '>' {
      Addresses.AddressCharacters(address, i);
    }
    assert |address| > 0;
    BareReads(address);
    BracketReads(address, display);
  }

  lemma NoBlanks(s: seq<Byte>)
    requires s != [] && !Blank(s[0]) && !Blank(s[|s| - 1])
    ensures TrimRight(TrimLeft(s)) == s
  {
  }

  lemma BareReads(address: Addresses.Address)
    requires |address| > 0
    requires forall i :: 0 <= i < |address| ==> 32 < address[i] as int < 127 && address[i] != '<'
    ensures Mailbox(Octets(address)) == Some(address)
  {
    NoBlanks(Octets(address));
    assert Text(Octets(address)) == address;
  }

  lemma BracketText(address: string, display: seq<Byte>)
    requires forall i :: 0 <= i < |address| ==> address[i] as int < 128
    ensures Text(display + [60] + Octets(address) + [62]) == Text(display) + "<" + address + ">"
  {
    var value, text := display + [60] + Octets(address) + [62], Text(display) + "<" + address + ">";
    forall i | 0 <= i < |value| ensures value[i] as char == text[i] {
    }
  }

  /** Taking the text apart at its last bracket. */
  lemma BracketParts(display: string, address: string)
    requires '<' !in address
    ensures var text := display + "<" + address + ">";
            && Addresses.LastIndex(text, '<') == Some(|display|)
            && text[..|display|] == display && text[|display| + 1..] == address + ">"
  {
    var text := display + "<" + address + ">";
    assert text[|display|] == '<';
    forall k | |display| < k < |text| ensures text[k] != '<' {
      if k < |text| - 1 {
        assert text[k] == address[k - |display| - 1];
      }
    }
  }

  lemma BracketIn(display: string, address: Addresses.Address)
    requires '<' !in address && |address| > 0
    requires forall i :: 0 <= i < |display| ==> display[i] as int < 128 && display[i] !in "<>,;:()"
    ensures MailboxIn(display + "<" + address + ">") == Some(address)
  {
    var mailbox := address + ">";
    BracketParts(display, address);
    assert mailbox[..|mailbox| - 1] == address && mailbox[|mailbox| - 1] == '>';
  }

  lemma BracketReads(address: Addresses.Address, display: seq<Byte>)
    requires |address| > 0
    requires forall i :: 0 <= i < |address| ==> 32 < address[i] as int < 127 && address[i] != '<'
    requires forall i :: 0 <= i < |display| ==> 32 < display[i] < 127 && display[i] as char !in "<>,;:()"
    ensures Mailbox(display + [60] + Octets(address) + [62]) == Some(address)
  {
    var value := display + [60] + Octets(address) + [62];
    NoBlanks(value);
    BracketText(address, display);
    BracketIn(Text(display), address);
  }
}
