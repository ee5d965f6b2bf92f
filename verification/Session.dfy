/** The SMTP session machine (Session in crates/protocol/src/lib.rs; section 4.1.4 of RFC 5321). */
module Session {
  import opened Wrappers
  import opened Tables
  import opened Addresses  // addresses are carried as their canonical texts

  datatype Command =
    | Ehlo(name: string) | Helo(name: string)
    | Mail(sender: Option<string>, size: Option<nat>, body: Option<BodyMode>)
    | Rcpt(recipient: string)
    | Data | Reset | Noop | Help | Verify | StartTls | Quit | Unsupported

  datatype Envelope = Envelope(sender: Option<string>, recipients: seq<string>, body: BodyMode)

  datatype Action = Reply(code: nat) | Hello(extended: bool) | CheckRecipient(address: string)
                  | BeginData(envelope: Envelope) | QuitNow | UpgradeTls

  /** Largest message and most recipients the server takes. */
  datatype Caps = Caps(messageBytes: nat, recipients: nat)

  datatype State = State(greeting: Option<string>, extended: bool, transaction: Option<Envelope>)

  const OPENED := State(None, false, None)

  /** What happens to a session: a command, or the router's answer about a recipient. */
  datatype Event = Say(command: Command) | Routed(address: string, known: bool, isLocal: bool)

  predicate Same(old_: string, address: string, isLocal: bool) {
    if isLocal then Lower(old_) == Lower(address) else old_ == address
  }

  predicate Known(recipients: seq<string>, address: string, isLocal: bool) {
    exists i :: 0 <= i < |recipients| && Same(recipients[i], address, isLocal)
  }

  function MailStep(s: State, c: Command, caps: Caps): (State, Action)
    requires c.Mail?
  {
    var s1 := s.(transaction := None);
    if s.greeting.None? then (s1, Reply(503))
    else if !s.extended && (c.size.Some? || c.body.Some?) then (s1, Reply(555))
    else if c.size.Some? && c.size.value > caps.messageBytes then (s1, Reply(552))
    else (s1.(transaction := Some(Envelope(c.sender, [], if c.body.Some? then c.body.value else SevenBit))), Reply(250))
  }

  function Apply(s: State, c: Command, caps: Caps): (State, Action) {
    match c
    case Ehlo(name) => (State(Some(name), true, None), Hello(true))
    case Helo(name) => (State(Some(name), false, None), Hello(false))
    case Reset => (s.(transaction := None), Reply(250))
    case Noop => (s, Reply(250))
    case Help => (s, Reply(214))
    case Verify => (s, Reply(252))
    case Quit => (s, QuitNow)
    case StartTls => (s, if s.extended then UpgradeTls else Reply(503))
    case Unsupported => (s, Reply(502))
    case Mail(_, _, _) => MailStep(s, c, caps)
    case Rcpt(address) => (s, if s.transaction.None? then Reply(503) else CheckRecipient(address))
    case Data =>
      if s.transaction.None? || s.transaction.value.recipients == [] then (s, Reply(503))
      else (s.(transaction := None), BeginData(s.transaction.value))
  }

  /** `routed_recipient_result`. */
  function RouteRecipient(s: State, address: string, known: bool, isLocal: bool, caps: Caps): (State, nat) {
    if s.transaction.None? then (s, 503)
    else if !known then (s, 550)
    else
      var tx := s.transaction.value;
      if Known(tx.recipients, address, isLocal) then (s, 250)
      else if |tx.recipients| >= caps.recipients then (s, 452)
      else (s.(transaction := Some(tx.(recipients := tx.recipients + [address]))), 250)
  }

  class Session {
    var greeting: Option<string>
    var extended: bool
    var transaction: Option<Envelope>
    const caps: Caps

    ghost function View(): State
      reads this
    {
      State(greeting, extended, transaction)
    }

    constructor (caps: Caps)
      ensures View() == OPENED && this.caps == caps
    {
      greeting, extended, transaction := None, false, None;
      this.caps := caps;
    }

    method ApplyCommand(c: Command) returns (action: Action)
      modifies this
      ensures (View(), action) == Apply(old(View()), c, caps)
    {
      match c {
        case Ehlo(name) =>
          greeting, extended, transaction := Some(name), true, None;
          return Hello(true);
        case Helo(name) =>
          greeting, extended, transaction := Some(name), false, None;
          return Hello(false);
        case Reset =>
          transaction := None;
          return Reply(250);
        case Noop => return Reply(250);
        case Help => return Reply(214);
        case Verify => return Reply(252);
        case Quit => return QuitNow;
        case StartTls => return if extended then UpgradeTls else Reply(503);
        case Unsupported => return Reply(502);
        case Mail(sender, size, body) =>
          transaction := None;
          if greeting.None? {
            return Reply(503);
          }
          if !extended && (size.Some? || body.Some?) {
            return Reply(555);
          }
          if size.Some? && size.value > caps.messageBytes {
            return Reply(552);
          }
          transaction := Some(Envelope(sender, [], if body.Some? then body.value else SevenBit));
          return Reply(250);
        case Rcpt(address) => return if transaction.None? then Reply(503) else CheckRecipient(address);
        case Data =>
          if transaction.None? || transaction.value.recipients == [] {
            return Reply(503);
          }
          action := BeginData(transaction.value);
          transaction := None;
      }
    }

    method RoutedRecipient(address: string, known: bool, isLocal: bool) returns (code: nat)
      modifies this
      ensures (View(), code) == RouteRecipient(old(View()), address, known, isLocal, caps)
    {
      if transaction.None? {
        return 503;
      }
      if !known {
        return 550;
      }
      var tx := transaction.value;
      var found := false;
      for i := 0 to |tx.recipients|
        invariant found <==> exists j :: 0 <= j < i && Same(tx.recipients[j], address, isLocal)
      {
        if Same(tx.recipients[i], address, isLocal) {
          found := true;
        }
      }
      if !found {
        if |tx.recipients| >= caps.recipients {
          return 452;
        }
        transaction := Some(tx.(recipients := tx.recipients + [address]));
      }
      return 250;
    }
  }

  // ---------------------------------------------------------------- histories

  function Step(s: State, e: Event, caps: Caps): (State, Action) {
    match e
    case Say(c) => Apply(s, c, caps)
    case Routed(address, known, isLocal) =>
      var (s1, code) := RouteRecipient(s, address, known, isLocal, caps); (s1, Reply(code))
  }

  function After(h: seq<Event>, caps: Caps): State {
    if h == [] then OPENED else Step(After(h[..|h| - 1], caps), h[|h| - 1], caps).0
  }

  /** The answer to event `k`. */
  function Answer(h: seq<Event>, k: nat, caps: Caps): Action
    requires k < |h|
  {
    Step(After(h[..k], caps), h[k], caps).1
  }

  // ---------------------------------------------------------------- transactions, read off the transcript

  /** Event `j` ends any transaction: a greeting, a reset, a MAIL of any outcome, or a DATA that was let in. */
  predicate Ends(h: seq<Event>, j: nat, caps: Caps)
    requires j < |h|
  {
    && h[j].Say?
    && var c := h[j].command;
       c.Ehlo? || c.Helo? || c.Reset? || c.Mail? || (c.Data? && Answer(h, j, caps).BeginData?)
  }

  /** The MAIL at `i` was accepted and its transaction is still open at the end of the transcript. */
  predicate OpenedBy(h: seq<Event>, i: nat, caps: Caps) {
    && i < |h| && h[i].Say? && h[i].command.Mail? && Answer(h, i, caps) == Reply(250)
    && forall j :: i < j < |h| ==> !Ends(h, j, caps)
  }

  predicate AcceptedAt(h: seq<Event>, j: nat, caps: Caps)
    requires j < |h|
  {
    h[j].Routed? && Answer(h, j, caps) == Reply(250)
  }

  /** The recipients accepted since event `i`, each once, in the order they were first accepted. */
  function Accepted(h: seq<Event>, i: nat, caps: Caps): seq<string>
    decreases |h|
  {
    if |h| <= i + 1 then []
    else
      var n := |h| - 1;
      var before := Accepted(h[..n], i, caps);
      if AcceptedAt(h, n, caps) && !Known(before, h[n].address, h[n].isLocal) then before + [h[n].address] else before
  }

  /** The envelope of the transaction opened by the MAIL at `i`. */
  function EnvelopeOf(h: seq<Event>, i: nat, caps: Caps): Envelope
    requires i < |h| && h[i].Say? && h[i].command.Mail?
  {
    var c := h[i].command;
    Envelope(c.sender, Accepted(h, i, caps), if c.body.Some? then c.body.value else SevenBit)
  }

  lemma Earlier(h: seq<Event>, e: Event, j: nat, caps: Caps)
    requires j < |h|
    ensures (h + [e])[j] == h[j] && (h + [e])[..j] == h[..j]
    ensures Answer(h + [e], j, caps) == Answer(h, j, caps) && Ends(h + [e], j, caps) == Ends(h, j, caps)
  {
    assert (h + [e])[..j] == h[..j];
  }

  lemma Latest(h: seq<Event>, e: Event, caps: Caps)
    ensures After(h + [e], caps) == Step(After(h, caps), e, caps).0
    ensures Answer(h + [e], |h|, caps) == Step(After(h, caps), e, caps).1
  {
    assert (h + [e])[..|h|] == h;
  }

  lemma AcceptedStep(h: seq<Event>, e: Event, i: nat, caps: Caps)
    requires i < |h|
    ensures var before := Accepted(h, i, caps);
            Accepted(h + [e], i, caps)
            == if e.Routed? && Step(After(h, caps), e, caps).1 == Reply(250) && !Known(before, e.address, e.isLocal)
               then before + [e.address] else before
  {
    Latest(h, e, caps);
    assert (h + [e])[..|h|] == h;
  }

  lemma StaysOpen(h: seq<Event>, e: Event, i: nat, caps: Caps)
    requires i < |h|
    ensures OpenedBy(h + [e], i, caps) <==> OpenedBy(h, i, caps) && !Ends(h + [e], |h|, caps)
  {
    var all := h + [e];
    forall j | 0 <= j < |h|
      ensures all[j] == h[j] && Answer(all, j, caps) == Answer(h, j, caps) && Ends(all, j, caps) == Ends(h, j, caps)
    {
      Earlier(h, e, j, caps);
    }
  }

  /** The machine's transaction is the one the transcript shows. */
  ghost predicate Agrees(h: seq<Event>, caps: Caps) {
    var tx := After(h, caps).transaction;
    && (tx.None? ==> forall i: nat :: !OpenedBy(h, i, caps))
    && (tx.Some? ==> exists i: nat :: OpenedBy(h, i, caps) && tx.value == EnvelopeOf(h, i, caps))
  }

  lemma KeepsNone(h: seq<Event>, e: Event, caps: Caps)
    requires Agrees(h, caps) && After(h + [e], caps).transaction.None?
    ensures Agrees(h + [e], caps)
  {
    var all := h + [e];
    Latest(h, e, caps);
    forall i: nat | i < |all| ensures !OpenedBy(all, i, caps) {
      if i < |h| {
        StaysOpen(h, e, i, caps);
      }
    }
  }

  lemma OpenStep(h: seq<Event>, e: Event, i: nat, caps: Caps)
    requires OpenedBy(h, i, caps) && After(h, caps).transaction == Some(EnvelopeOf(h, i, caps))
    requires After(h + [e], caps).transaction.Some? && !(e.Say? && e.command.Mail?)
    ensures !Ends(h + [e], |h|, caps)
  {
    Latest(h, e, caps);
    assert (h + [e])[|h|] == e;
  }

  lemma EnvelopeStep(h: seq<Event>, e: Event, i: nat, caps: Caps)
    requires OpenedBy(h, i, caps) && After(h, caps).transaction == Some(EnvelopeOf(h, i, caps))
    requires After(h + [e], caps).transaction.Some? && !(e.Say? && e.command.Mail?)
    ensures (h + [e])[i] == h[i] && After(h + [e], caps).transaction == Some(EnvelopeOf(h + [e], i, caps))
  {
    Latest(h, e, caps);
    AcceptedStep(h, e, i, caps);
  }

  lemma KeepsOpen(h: seq<Event>, e: Event, caps: Caps)
    requires Agrees(h, caps) && After(h, caps).transaction.Some? && After(h + [e], caps).transaction.Some?
    requires !(e.Say? && e.command.Mail?)
    ensures Agrees(h + [e], caps)
  {
    var i: nat :| OpenedBy(h, i, caps) && After(h, caps).transaction.value == EnvelopeOf(h, i, caps);
    OpenStep(h, e, i, caps);
    StaysOpen(h, e, i, caps);
    EnvelopeStep(h, e, i, caps);
  }

  lemma {:induction false} MachineAgrees(h: seq<Event>, caps: Caps)
    ensures Agrees(h, caps)
  {
    if h != [] {
      var n := |h| - 1;
      var before, e := h[..n], h[n];
      assert before + [e] == h;
      MachineAgrees(before, caps);
      Latest(before, e, caps);
      if After(h, caps).transaction.None? {
        KeepsNone(before, e, caps);
      } else if e.Say? && e.command.Mail? {
        assert Accepted(h, n, caps) == [];
        assert OpenedBy(h, n, caps) && After(h, caps).transaction.value == EnvelopeOf(h, n, caps);
      } else {
        KeepsOpen(before, e, caps);
      }
    }
  }

  predicate Distinct(recipients: seq<string>) {
    forall i, j :: 0 <= i < j < |recipients| ==> recipients[i] != recipients[j]
  }

  lemma {:induction false} WithinCap(h: seq<Event>, caps: Caps)
    ensures var tx := After(h, caps).transaction;
            tx.Some? ==> |tx.value.recipients| <= caps.recipients && Distinct(tx.value.recipients)
  {
    if h != [] {
      WithinCap(h[..|h| - 1], caps);
    }
  }

  /** The recipients are those the router knew and the session accepted since event `i`: no other, none missing. */
  ghost predicate Collects(h: seq<Event>, i: nat, caps: Caps, recipients: seq<string>) {
    && (forall t :: t in recipients ==> Drawn(h, i, caps, t))
    && (forall j :: i < j < |h| && AcceptedAt(h, j, caps) ==> Known(recipients, h[j].address, h[j].isLocal))
  }

  ghost predicate Drawn(h: seq<Event>, i: nat, caps: Caps, t: string) {
    exists j :: i < j < |h| && AcceptedAt(h, j, caps) && h[j].known && h[j].address == t
  }

  lemma {:induction false} AcceptedCollects(h: seq<Event>, i: nat, caps: Caps)
    requires i < |h|
    ensures Collects(h, i, caps, Accepted(h, i, caps))
    decreases |h|
  {
    if |h| > i + 1 {
      var n := |h| - 1;
      var before, e := h[..n], h[n];
      assert before + [e] == h;
      AcceptedCollects(before, i, caps);
      AcceptedStep(before, e, i, caps);
      forall t | t in Accepted(h, i, caps) ensures Drawn(before + [e], i, caps, t) {
        DrawnStep(before, e, i, caps, t);
      }
      forall j | i < j < |h| && AcceptedAt(h, j, caps) ensures Known(Accepted(h, i, caps), h[j].address, h[j].isLocal) {
        KnownStep(before, e, i, caps, j);
      }
    }
  }

  lemma DrawnStep(h: seq<Event>, e: Event, i: nat, caps: Caps, t: string)
    requires i < |h| && Collects(h, i, caps, Accepted(h, i, caps)) && t in Accepted(h + [e], i, caps)
    ensures Drawn(h + [e], i, caps, t)
  {
    AcceptedStep(h, e, i, caps);
    if t in Accepted(h, i, caps) {
      var j :| i < j < |h| && AcceptedAt(h, j, caps) && h[j].known && h[j].address == t;
      Earlier(h, e, j, caps);
      assert AcceptedAt(h + [e], j, caps);
    } else {
      Latest(h, e, caps);
      assert AcceptedAt(h + [e], |h|, caps);
    }
  }

  lemma KnownStep(h: seq<Event>, e: Event, i: nat, caps: Caps, j: nat)
    requires i < |h| && Collects(h, i, caps, Accepted(h, i, caps)) && i < j <= |h| && AcceptedAt(h + [e], j, caps)
    ensures Known(Accepted(h + [e], i, caps), (h + [e])[j].address, (h + [e])[j].isLocal)
  {
    var before, now := Accepted(h, i, caps), Accepted(h + [e], i, caps);
    AcceptedStep(h, e, i, caps);
    if j < |h| {
      Earlier(h, e, j, caps);
      KnownStays(before, now, h[j].address, h[j].isLocal);
    } else {
      Latest(h, e, caps);
      if Known(before, e.address, e.isLocal) {
        KnownStays(before, now, e.address, e.isLocal);
      } else {
        assert Same(now[|before|], e.address, e.isLocal);
      }
    }
  }

  lemma KnownStays(recipients: seq<string>, more: seq<string>, address: string, isLocal: bool)
    requires recipients <= more && Known(recipients, address, isLocal)
    ensures Known(more, address, isLocal)
  {
    var i :| 0 <= i < |recipients| && Same(recipients[i], address, isLocal);
    assert Same(more[i], address, isLocal);
  }

  /** Only one MAIL can have opened the current transaction. */
  lemma OpenedOnce(h: seq<Event>, i: nat, j: nat, caps: Caps)
    requires OpenedBy(h, i, caps) && OpenedBy(h, j, caps)
    ensures i == j
  {
    assert i < j ==> !Ends(h, j, caps);
    assert j < i ==> !Ends(h, i, caps);
  }

  /**
   * Over transcripts of any length: DATA is let in exactly when a MAIL accepted since the last greeting,
   * reset, MAIL or DATA has at least one accepted recipient, and then it carries that MAIL's sender and
   * body mode and exactly the accepted recipients, once each, in order and within the cap.
   */
  lemma DataCarriesItsTransaction(h: seq<Event>, k: nat, caps: Caps)
    requires k < |h| && h[k] == Say(Data)
    ensures Answer(h, k, caps).BeginData?
            <==> exists i: nat :: OpenedBy(h[..k], i, caps) && Accepted(h[..k], i, caps) != []
    ensures forall i: nat :: OpenedBy(h[..k], i, caps) && Answer(h, k, caps).BeginData? ==>
              && Answer(h, k, caps).envelope == EnvelopeOf(h[..k], i, caps)
              && 1 <= |Answer(h, k, caps).envelope.recipients| <= caps.recipients
              && Distinct(Answer(h, k, caps).envelope.recipients)
              && Collects(h[..k], i, caps, Answer(h, k, caps).envelope.recipients)
  {
    var past := h[..k];
    MachineAgrees(past, caps);
    WithinCap(past, caps);
    var tx := After(past, caps).transaction;
    if tx.Some? {
      var i: nat :| OpenedBy(past, i, caps) && tx.value == EnvelopeOf(past, i, caps);
      forall j: nat | OpenedBy(past, j, caps) ensures j == i {
        OpenedOnce(past, i, j, caps);
      }
      AcceptedCollects(past, i, caps);
    }
  }

  // ---------------------------------------------------------------- every answer

  /** The transaction as the transcript shows it, whoever opened it. */
  lemma TransactionIs(h: seq<Event>, i: nat, caps: Caps)
    requires OpenedBy(h, i, caps)
    ensures After(h, caps).transaction == Some(EnvelopeOf(h, i, caps))
  {
    MachineAgrees(h, caps);
    var tx := After(h, caps).transaction;
    assert tx.Some?;
    var j: nat :| OpenedBy(h, j, caps) && tx.value == EnvelopeOf(h, j, caps);
    OpenedOnce(h, i, j, caps);
  }

  lemma NoTransaction(h: seq<Event>, caps: Caps)
    ensures After(h, caps).transaction.None? <==> forall i: nat :: !OpenedBy(h, i, caps)
  {
    MachineAgrees(h, caps);
  }

  /**
   * A routed recipient: 503 exactly without an open MAIL, else 550 exactly if the router does not know it, 452
   * exactly if it is new and the cap is reached, and 250 otherwise; only a new one that gets 250 is added.
   */
  lemma RoutedExactly(h: seq<Event>, k: nat, caps: Caps)
    requires k < |h| && h[k].Routed?
    ensures Answer(h, k, caps) == Reply(503) <==> forall i: nat :: !OpenedBy(h[..k], i, caps)
    ensures Answer(h, k, caps) == Reply(503) ==> After(h[..k + 1], caps) == After(h[..k], caps)
    ensures forall i: nat :: OpenedBy(h[..k], i, caps) ==>
              var before, e := Accepted(h[..k], i, caps), h[k];
              var twice := Known(before, e.address, e.isLocal);
              && (Answer(h, k, caps) == Reply(550) <==> !e.known)
              && (Answer(h, k, caps) == Reply(452) <==> e.known && !twice && |before| >= caps.recipients)
              && (Answer(h, k, caps) == Reply(250) <==> e.known && (twice || |before| < caps.recipients))
              && After(h[..k + 1], caps)
                 == if Answer(h, k, caps) == Reply(250) && !twice
                    then After(h[..k], caps)
                         .(transaction := Some(EnvelopeOf(h[..k], i, caps).(recipients := before + [e.address])))
                    else After(h[..k], caps)
  {
    var past := h[..k];
    assert h[..k + 1] == past + [h[k]];
    Latest(past, h[k], caps);
    assert Answer(h, k, caps) == Step(After(past, caps), h[k], caps).1;
    NoTransaction(past, caps);
    forall i: nat | OpenedBy(past, i, caps) ensures After(past, caps).transaction == Some(EnvelopeOf(past, i, caps)) {
      TransactionIs(past, i, caps);
    }
  }

  /** The last greeting of a transcript: none, or whether it was the extended one. */
  function Greeted(h: seq<Event>): Option<bool> {
    if h == [] then None
    else
      var e := h[|h| - 1];
      if e.Say? && e.command.Ehlo? then Some(true)
      else if e.Say? && e.command.Helo? then Some(false)
      else Greeted(h[..|h| - 1])
  }

  lemma {:induction false} GreetingAgrees(h: seq<Event>, caps: Caps)
    ensures var s := After(h, caps);
            match Greeted(h)
            case None => s.greeting.None? && !s.extended
            case Some(extended) => s.greeting.Some? && s.extended == extended
  {
    if h != [] {
      GreetingAgrees(h[..|h| - 1], caps);
    }
  }

  /**
   * A MAIL: 503 exactly before any greeting, else 555 exactly for parameters after a plain one, else 552 exactly if
   * the declared size is over the limit, and 250 otherwise; it ends any transaction, and opens one only then.
   */
  lemma MailExactly(h: seq<Event>, k: nat, caps: Caps)
    requires k < |h| && h[k].Say? && h[k].command.Mail?
    ensures var c, greeted, answer := h[k].command, Greeted(h[..k]), Answer(h, k, caps);
            var plain := greeted == Some(false) && (c.size.Some? || c.body.Some?);
            var large := c.size.Some? && c.size.value > caps.messageBytes;
            && (answer == Reply(503) <==> greeted.None?)
            && (answer == Reply(555) <==> plain)
            && (answer == Reply(552) <==> greeted.Some? && !plain && large)
            && (answer == Reply(250) <==> greeted.Some? && !plain && !large)
            && After(h[..k + 1], caps)
               == After(h[..k], caps)
                  .(transaction := if answer != Reply(250) then None
                                   else Some(Envelope(c.sender, [], if c.body.Some? then c.body.value else SevenBit)))
  {
    var past := h[..k];
    assert h[..k + 1] == past + [h[k]];
    Latest(past, h[k], caps);
    GreetingAgrees(past, caps);
  }

  /** All other commands: what they answer, and that they keep or end the transaction as they should. */
  lemma OthersExactly(h: seq<Event>, k: nat, caps: Caps)
    requires k < |h| && h[k].Say? && !h[k].command.Mail? && !h[k].command.Data?
    ensures var c, answer, s, t := h[k].command, Answer(h, k, caps), After(h[..k], caps), After(h[..k + 1], caps);
            match c
            case Ehlo(name) => answer == Hello(true) && t == State(Some(name), true, None)
            case Helo(name) => answer == Hello(false) && t == State(Some(name), false, None)
            case Reset => answer == Reply(250) && t == s.(transaction := None)
            case Noop => answer == Reply(250) && t == s
            case Help => answer == Reply(214) && t == s
            case Verify => answer == Reply(252) && t == s
            case Quit => answer == QuitNow && t == s
            case Unsupported => answer == Reply(502) && t == s
            case StartTls => t == s && answer == if Greeted(h[..k]) == Some(true) then UpgradeTls else Reply(503)
            case Rcpt(address) =>
              t == s && (answer == Reply(503) <==> forall i: nat :: !OpenedBy(h[..k], i, caps))
              && (answer != Reply(503) ==> answer == CheckRecipient(address))
  {
    var past := h[..k];
    assert h[..k + 1] == past + [h[k]];
    Latest(past, h[k], caps);
    GreetingAgrees(past, caps);
    NoTransaction(past, caps);
  }

  /** BeginData answers nothing but DATA. */
  lemma OnlyDataBegins(h: seq<Event>, k: nat, caps: Caps)
    requires k < |h| && Answer(h, k, caps).BeginData?
    ensures h[k] == Say(Data)
  {
  }

  /** A DATA refused for want of a recipient does not end the transaction: once one is accepted, DATA is let in. */
  lemma RefusedDataKeepsTransaction(caps: Caps)
    requires caps.recipients >= 1
    ensures var h := [Say(Ehlo("a")), Say(Mail(None, None, None)), Say(Data), Routed("b", true, true), Say(Data)];
            Answer(h, 2, caps) == Reply(503) && Answer(h, 4, caps) == BeginData(Envelope(None, ["b"], SevenBit))
  {
    var mail := Say(Mail(None, None, None));
    var begun := [Say(Ehlo("a")), mail];
    var refused := begun + [Say(Data)];
    var routed := refused + [Routed("b", true, true)];
    var h := routed + [Say(Data)];
    assert After([Say(Ehlo("a"))], caps) == State(Some("a"), true, None);
    Latest([Say(Ehlo("a"))], mail, caps);
    assert begun == [Say(Ehlo("a"))] + [mail];
    Latest(begun, Say(Data), caps);
    assert After(refused, caps) == State(Some("a"), true, Some(Envelope(None, [], SevenBit)));
    Latest(refused, Routed("b", true, true), caps);
    assert !Known([], "b", true) && [] + ["b"] == ["b"];
    assert After(routed, caps) == State(Some("a"), true, Some(Envelope(None, ["b"], SevenBit)));
    assert h == [Say(Ehlo("a")), mail, Say(Data), Routed("b", true, true), Say(Data)];
    assert h[..2] == begun && h[..4] == routed && h[2] == h[4] == Say(Data);
  }
}
