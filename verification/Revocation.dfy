/**
 * Watching for revoked authority (Revocations::wait in crates/server/src/revocation.rs, change_authority
 * in crates/server/src/worker.rs, dispatch in crates/server/src/admin.rs): the single owner applies changes
 * and answers checks in turn, a session waits, and its wait may be cancelled at any point.
 */
module Revocation {
  import opened Tables
  import Identity
  import Transactions

  /** A check on its way: not asked, asked, or answered as of the given number of authority changes. */
  datatype Flight = Grounded | Asked | Answered(at: nat, ok: bool)

  /**
   * `changes` counts applied authority changes and `version` published ones; `seen` and `pending` are the
   * session's; `checked` says as of which change its last acknowledged check was; `ended` that the wait returned.
   */
  datatype Watch = Watch(db: Db, changes: nat, version: nat, seen: nat, pending: bool,
                         flight: Flight, checked: nat, ended: bool)

  datatype Event =
    | Change(change: Transactions.Change, fate: Fate)
    | Notice                   // changed() returns
    | Ask                      // the check is sent to the owner
    | Check(readable: bool)    // the owner answers it, or fails to
    | Acknowledge              // the session receives the answer
    | Cancel                   // the wait is dropped

  /** A session that has just authenticated: its principal is current and its receiver is up to date. */
  function Begun(db: Db): Watch { Watch(db, 0, 0, 0, false, Grounded, 0, false) }

  /** The requests that go through `change_authority`; all others are plain calls of the store. */
  predicate Authority(c: Transactions.Change) { c.Revoke? || c.Disable? || c.SendAs? }

  /** `change_authority`: only an authority change that reports success is published. */
  function Changing(w: Watch, c: Transactions.Change, fate: Fate): Watch {
    var tx := Transactions.Changed(w.db, c);
    if tx.Err? || fate.LostUnknown? then w
    else if !Authority(c) then w.(db := tx.value)
    else
      var w1 := w.(db := tx.value, changes := w.changes + 1);
      if fate.Confirmed? then w1.(version := w.version + 1) else w1
  }

  function Step(w: Watch, e: Event, p: Identity.Principal): Watch {
    match e
    case Change(c, fate) => Changing(w, c, fate)
    case Notice => if w.ended || w.pending || w.seen == w.version then w else w.(seen := w.version, pending := true)
    case Ask => if w.ended || !w.pending || w.flight != Grounded then w else w.(flight := Asked)
    case Check(readable) =>
      if w.flight != Asked then w else w.(flight := Answered(w.changes, readable && Identity.Current(w.db, p)))
    case Acknowledge =>
      if w.ended || !w.flight.Answered? then w
      else if w.flight.ok then w.(pending := false, checked := w.flight.at, flight := Grounded)
      else w.(ended := true, flight := Grounded)
    case Cancel => w.(flight := Grounded)
  }

  function Run(db: Db, events: seq<Event>, p: Identity.Principal): Watch {
    if events == [] then Begun(db) else Step(Run(db, events[..|events| - 1], p), events[|events| - 1], p)
  }

  /** Nothing is left to do until a new change is published. */
  predicate Parked(w: Watch) { !w.ended && !w.pending && w.seen == w.version }

  /** The promise: whoever parks has been checked after the last authority change, and is still current. */
  predicate Watchful(w: Watch, p: Identity.Principal) {
    Parked(w) ==> w.checked == w.changes && Identity.Current(w.db, p)
  }

  // ---------------------------------------------------------------- doubt, read off the events

  /**
   * About one answer of the owner: whether an unreported authority change was applied since (`any`), whether
   * one was of the session's own account (`own`), and how many changes were published as of the answer.
   */
  datatype Doubt = Doubt(any: bool, own: bool, version: nat)

  /** ... about the answer in flight and about the one last acknowledged. */
  datatype Doubts = Doubts(flight: Doubt, acked: Doubt)

  predicate Unreported(w: Watch, e: Event) {
    e.Change? && Authority(e.change) && e.fate == AppliedUnknown && Transactions.Changed(w.db, e.change).Ok?
  }

  /** The account whose principals an authority change ends. */
  predicate Against(db: Db, c: Transactions.Change, account: string) {
    match c
    case Revoke(selector) => selector in db.credentials && db.credentials[selector].account == account
    case Disable(login) => login == account
    case SendAs(login, _, _) => login == account
    case _ => false
  }

  function Suspect(d: Doubt, own: bool): Doubt { d.(any := true, own := d.own || own) }

  function Doubting(d: Doubts, w: Watch, e: Event, p: Identity.Principal): Doubts {
    match e
    case Change(c, _) =>
      if !Unreported(w, e) then d
      else Doubts(Suspect(d.flight, Against(w.db, c, p.account)), Suspect(d.acked, Against(w.db, c, p.account)))
    case Check(_) => if w.flight == Asked then d.(flight := Doubt(false, false, w.version)) else d
    case Acknowledge =>
      if !w.ended && w.flight.Answered? && w.flight.ok then d.(acked := d.flight) else d
    case _ => d
  }

  function DoubtsOf(db: Db, events: seq<Event>, p: Identity.Principal): Doubts {
    if events == [] then Doubts(Doubt(false, false, 0), Doubt(false, false, 0))
    else
      var before := events[..|events| - 1];
      Doubting(DoubtsOf(db, before, p), Run(db, before, p), events[|events| - 1], p)
  }

  /** An unreported authority change was applied since the check the session last relied on was answered, */
  predicate UnreportedSinceCheck(db: Db, events: seq<Event>, p: Identity.Principal) {
    DoubtsOf(db, events, p).acked.any
  }

  /** ... and one of them was of the session's own account. */
  predicate EndedSinceCheck(db: Db, events: seq<Event>, p: Identity.Principal) {
    DoubtsOf(db, events, p).acked.own
  }

  // ---------------------------------------------------------------- what changes do to a principal

  /** A principal that was current once: it is current exactly while its account's epoch stands. */
  predicate Enrolled(db: Db, p: Identity.Principal) {
    && p.account in db.accounts && p.credential in db.credentials
    && p.epoch <= db.accounts[p.account].epoch
    && (Identity.Current(db, p) <==> p.epoch == db.accounts[p.account].epoch)
  }

  /** The epoch moves exactly with the authority changes of the account. */
  lemma ChangeMovesEpoch(db: Db, c: Transactions.Change, p: Identity.Principal)
    requires Enrolled(db, p) && Transactions.Changed(db, c).Ok?
    ensures Enrolled(Transactions.Changed(db, c).value, p)
    ensures Identity.Current(Transactions.Changed(db, c).value, p)
            <==> Identity.Current(db, p) && !Against(db, c, p.account)
  {
  }

  // ---------------------------------------------------------------- exactly when the promise holds

  /** Changes applied and changes published since an answer differ exactly if there is doubt about it. */
  predicate Counted(w: Watch, at: nat, d: Doubt) {
    && at <= w.changes && d.version <= w.version
    && w.version - d.version <= w.changes - at
    && (d.any <==> w.version - d.version < w.changes - at)
  }

  /** After an answer that the principal is current: while nothing is published, only doubt can end it. */
  predicate Tracked(w: Watch, d: Doubt, p: Identity.Principal) {
    (d.own ==> !Identity.Current(w.db, p)) && (w.version == d.version && !d.own ==> Identity.Current(w.db, p))
  }

  predicate Numbered(w: Watch, d: Doubts) {
    && w.seen <= w.version && Counted(w, w.checked, d.acked)
    && (w.flight.Answered? ==> Counted(w, w.flight.at, d.flight) && w.seen <= d.flight.version)
    && (w.flight != Grounded ==> w.pending)
    && (!w.pending ==> w.seen <= d.acked.version)
    && (d.acked.own ==> d.acked.any) && (d.flight.own ==> d.flight.any)
  }

  predicate Standing(w: Watch, d: Doubts, p: Identity.Principal) {
    && Enrolled(w.db, p) && w.version >= d.acked.version && Tracked(w, d.acked, p)
    && (w.flight.Answered? && w.flight.ok ==> w.version >= d.flight.version && Tracked(w, d.flight, p))
  }

  predicate Aware(w: Watch, d: Doubts, p: Identity.Principal) { Numbered(w, d) && Standing(w, d, p) }

  lemma ChangeNumbers(w: Watch, d: Doubts, e: Event, p: Identity.Principal)
    requires Numbered(w, d) && e.Change?
    ensures Numbered(Step(w, e, p), Doubting(d, w, e, p))
  {
  }

  lemma ChangeStands(w: Watch, d: Doubts, e: Event, p: Identity.Principal)
    requires Standing(w, d, p) && e.Change?
    ensures Standing(Step(w, e, p), Doubting(d, w, e, p), p)
  {
    if Transactions.Changed(w.db, e.change).Ok? {
      ChangeMovesEpoch(w.db, e.change, p);
    }
  }

  lemma StepAware(w: Watch, d: Doubts, e: Event, p: Identity.Principal)
    requires Aware(w, d, p)
    ensures Aware(Step(w, e, p), Doubting(d, w, e, p), p)
  {
    if e.Change? {
      ChangeNumbers(w, d, e, p);
      ChangeStands(w, d, e, p);
    }
  }

  lemma {:induction false} RunsAware(db: Db, events: seq<Event>, p: Identity.Principal)
    requires Identity.Current(db, p)
    ensures Aware(Run(db, events, p), DoubtsOf(db, events, p), p)
  {
    if events != [] {
      var before := events[..|events| - 1];
      RunsAware(db, before, p);
      StepAware(Run(db, before, p), DoubtsOf(db, before, p), events[|events| - 1], p);
    }
  }

  /**
   * Under any interleaving of changes, commits, cancelled waits and checks, the promise is broken exactly
   * when the session is parked and an authority change was applied without being reported since the check it
   * last relied on was answered, be it before or after that answer arrived.
   */
  lemma WatchfulExactly(db: Db, events: seq<Event>, p: Identity.Principal)
    requires Identity.Current(db, p)
    ensures Watchful(Run(db, events, p), p)
            <==> !(Parked(Run(db, events, p)) && UnreportedSinceCheck(db, events, p))
  {
    RunsAware(db, events, p);
  }

  /** And a parked session has lost its authority exactly when one of those changes was of its own account. */
  lemma UnnoticedExactly(db: Db, events: seq<Event>, p: Identity.Principal)
    requires Identity.Current(db, p) && Parked(Run(db, events, p))
    ensures !Identity.Current(Run(db, events, p).db, p) <==> EndedSinceCheck(db, events, p)
  {
    RunsAware(db, events, p);
  }

  /** No authority change was applied whose success was not reported. */
  predicate Reported(events: seq<Event>) {
    forall i :: 0 <= i < |events| ==>
      !(events[i].Change? && Authority(events[i].change) && events[i].fate == AppliedUnknown)
  }

  lemma {:induction false} ReportedLeavesNoDoubt(db: Db, events: seq<Event>, p: Identity.Principal)
    requires Reported(events)
    ensures !DoubtsOf(db, events, p).flight.any && !DoubtsOf(db, events, p).acked.any
  {
    if events != [] {
      ReportedLeavesNoDoubt(db, events[..|events| - 1], p);
    }
  }

  /** In particular, as long as every applied change is reported, a revoked principal never stays unnoticed. */
  lemma NeverParksUnchecked(db: Db, events: seq<Event>, p: Identity.Principal)
    requires Identity.Current(db, p) && Reported(events)
    ensures Watchful(Run(db, events, p), p)
  {
    ReportedLeavesNoDoubt(db, events, p);
    WatchfulExactly(db, events, p);
  }

  /** An unreported change is healed by a reported authority change of any account and the check it causes. */
  lemma CheckHeals(db: Db, events: seq<Event>, change: Transactions.Change, readable: bool, p: Identity.Principal)
    requires Identity.Current(db, p) && !Run(db, events, p).ended && !Run(db, events, p).pending
    requires Authority(change) && Transactions.Changed(Run(db, events, p).db, change).Ok?
    ensures Watchful(Run(db, events + [Change(change, Confirmed), Notice, Ask, Check(readable), Acknowledge], p), p)
  {
    RunsAware(db, events, p);
    var w := Run(db, events, p);
    var more := [Change(change, Confirmed), Notice, Ask, Check(readable), Acknowledge];
    var w1 := Step(w, more[0], p);
    var w2 := Step(w1, more[1], p);
    var w3 := Step(w2, more[2], p);
    var w4 := Step(w3, more[3], p);
    RunFive(db, events, more, p);
    assert w4.flight == Answered(w4.changes, readable && Identity.Current(w4.db, p));
  }

  lemma RunOne(db: Db, events: seq<Event>, e: Event, p: Identity.Principal)
    ensures Run(db, events + [e], p) == Step(Run(db, events, p), e, p)
  {
    assert (events + [e])[..|events|] == events;
  }

  lemma OneByOne(events: seq<Event>, more: seq<Event>)
    requires |more| == 5
    ensures events + more == events + [more[0]] + [more[1]] + [more[2]] + [more[3]] + [more[4]]
  {
  }

  lemma RunFive(db: Db, events: seq<Event>, more: seq<Event>, p: Identity.Principal)
    requires |more| == 5
    ensures Run(db, events + more, p)
            == Step(Step(Step(Step(Step(Run(db, events, p), more[0], p), more[1], p), more[2], p), more[3], p),
                    more[4], p)
  {
    OneByOne(events, more);
    RunOne(db, events, more[0], p);
    RunOne(db, events + [more[0]], more[1], p);
    RunOne(db, events + [more[0]] + [more[1]], more[2], p);
    RunOne(db, events + [more[0]] + [more[1]] + [more[2]], more[3], p);
    RunOne(db, events + [more[0]] + [more[1]] + [more[2]] + [more[3]], more[4], p);
  }

  // ---------------------------------------------------------------- two inputs that break it

  const CLIENT := Identity.Principal("a@b", 7, 1, MailScope)

  const ENROLLED := EMPTY.(accounts := map["a@b" := Account(true, 100, 0, 1, 1, 0),
                                           "c@d" := Account(true, 100, 0, 1, 1, 0)],
                           credentials := map[7 := Credential("a@b", MailScope, false)])

  const LOST := Change(Transactions.Disable("a@b"), AppliedUnknown)
  const GRANT := Change(Transactions.SendAs("c@d", "c@d", true), Confirmed)

  /** An account is disabled, the commit's answer is lost, and its session stays parked. */
  lemma UnreportedRevocation()
    ensures var w := Run(ENROLLED, [LOST], CLIENT);
            Identity.Current(ENROLLED, CLIENT) && Parked(w) && !Identity.Current(w.db, CLIENT)
  {
    RunOne(ENROLLED, [], LOST, CLIENT);
    assert [] + [LOST] == [LOST];
  }

  /** The send right of the other account, published, noticed and asked about. */
  lemma Granted() returns (asked: Watch)
    ensures asked == Step(Step(Step(Begun(ENROLLED), GRANT, CLIENT), Notice, CLIENT), Ask, CLIENT)
    ensures asked == Watch(asked.db, 1, 1, 1, true, Asked, 0, false)
    ensures Identity.Current(asked.db, CLIENT) && asked.db.accounts["a@b"].epoch == 1
  {
    asked := Step(Step(Step(Begun(ENROLLED), GRANT, CLIENT), Notice, CLIENT), Ask, CLIENT);
  }

  lemma LostThenAcknowledged(w: Watch)
    requires w.flight == Answered(w.changes, true) && !w.ended && w.pending && w.seen == w.version
    requires Identity.Current(w.db, CLIENT)
    ensures var late := Step(w, LOST, CLIENT);
            var parked := Step(late, Acknowledge, CLIENT);
            Watchful(late, CLIENT) && Parked(parked) && !Identity.Current(parked.db, CLIENT)
  {
  }

  /**
   * A send right of another account is published and checked for; the same loss between the answer of the
   * check and its arrival leaves the promise intact, and acknowledging the answer breaks it.
   */
  lemma UnreportedDuringCheck()
    ensures var late := Run(ENROLLED, [GRANT, Notice, Ask, Check(true), LOST], CLIENT);
            var parked := Run(ENROLLED, [GRANT, Notice, Ask, Check(true), LOST, Acknowledge], CLIENT);
            Watchful(late, CLIENT) && Parked(parked) && !Watchful(parked, CLIENT)
            && !Identity.Current(parked.db, CLIENT)
  {
    var events := [GRANT, Notice, Ask, Check(true), LOST];
    RunFive(ENROLLED, [], events, CLIENT);
    assert [] + events == events && Run(ENROLLED, [], CLIENT) == Begun(ENROLLED);
    var asked := Granted();
    LostThenAcknowledged(Step(asked, Check(true), CLIENT));
    RunOne(ENROLLED, events, Acknowledge, CLIENT);
    assert events + [Acknowledge] == [GRANT, Notice, Ask, Check(true), LOST, Acknowledge];
  }
}
