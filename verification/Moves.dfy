/**
 * The life of one delivery row. Every transaction of the store moves each existing row by
 * one of a few named moves and only adds fresh rows; what holds of the moves holds of runs.
 */
module Moves {
  import opened Wrappers
  import opened Tables
  import opened Ordering
  import Addresses
  import Queue

  /** Administrator retries of a delivery recorded with duplicate consent. */
  function Consents(admin: seq<AdminEvent>, id: Id): nat {
    if admin == [] then 0
    else
      var e := admin[|admin| - 1];
      Consents(admin[..|admin| - 1], id)
      + if e.delivery == id && e.action == RetryAction && e.allowDuplicate then 1 else 0
  }

  /** Mail nobody is told about: not a submission, from nobody, or of no account. */
  predicate Unanswerable(m: Message) { m.source != Submission || m.sender == "" || m.account.None? }

  /**
   * A delivery row with its queue_lease row, the consents given, its report, if any, and whether its
   * failure may go unreported.
   */
  datatype View = View(d: Delivery, phase: Option<Phase>, consents: nat, report: Option<Id>, mute: bool)

  function ViewOf(db: Db, id: Id): View
    requires id in db.deliveries
  {
    View(db.deliveries[id],
         if id in db.leases then Some(db.leases[id]) else None,
         Consents(db.admin, id),
         if id in db.notifications then Some(db.notifications[id]) else None,
         db.deliveries[id].message in db.messages && Unanswerable(db.messages[db.deliveries[id].message]))
  }

  // ---------------------------------------------------------------- the row invariant

  /** The per-row part of queue_integrity_mismatches, with what the code relies on besides. */
  predicate RowOk(v: View) {
    && (v.d.state == Leased <==> v.phase.Some?)
    && (v.d.state == Leased <==> v.d.token.Some?)
    && (v.d.token.Some? <==> v.d.leaseUntil.Some?)
    && (v.d.state == Uncertain ==> v.d.possiblyDelivered)
    && (v.d.state == Failed || v.d.state == Deferred || v.d.state == Delivered ==> !v.d.possiblyDelivered)
    && (v.d.closedAt.Some? ==> v.d.state == Uncertain)
    && (v.d.notice == Created <==> v.report.Some?)
    && (v.report.Some? ==> v.d.state == Failed && v.d.route == Relay)
    && (v.d.route == Local ==> v.d.state == Delivered)
    && (v.d.notice == Suppressed ==> v.mute)
    && v.d.attempts == v.d.generation
    && CodeOk(v.d)
  }

  predicate Coded(code: Option<int>, low: nat) { code.Some? && low <= code.value < low + 100 }

  /** What the state of a relayed row says about the replies it got. */
  predicate CodeOk(d: Delivery) {
    d.route == Relay ==>
      && (d.state == Delivered ==> Coded(d.lastCode, 200))
      && (d.state == Failed ==>
            d.reason == Some(Expired) || (d.reason == Some(SmtpPermanent) && Coded(d.lastCode, 500)))
      && (d.state == Deferred ==> d.lastCode.None? || Coded(d.lastCode, 400))
  }

  predicate Terminal(d: Delivery) {
    d.state == Delivered || d.state == Failed || d.closedAt.Some?
  }

  // ---------------------------------------------------------------- the moves

  /** What no move ever changes. */
  predicate SameMail(d: Delivery, e: Delivery) {
    d.message == e.message && d.recipient == e.recipient && d.route == e.route
  }

  /** Nothing but the end of the lease, which only moves on, and the report columns, once, on a failed row. */
  predicate Still(v: View, w: View) {
    && w.d == v.d.(leaseUntil := w.d.leaseUntil, notice := w.d.notice, noticeDue := w.d.noticeDue)
    && w.phase == v.phase && w.consents == v.consents && w.mute == v.mute
    && (w.d.leaseUntil.Some? <==> v.d.leaseUntil.Some?)
    && (v.d.leaseUntil.Some? ==> v.d.leaseUntil.value <= w.d.leaseUntil.value)
    && (w.d.noticeDue == v.d.noticeDue || (v.d.notice == NotYet && v.d.state == Failed))
    && (|| (w.d.notice == v.d.notice && w.report == v.report)
        || (v.d.notice == NotYet && v.d.state == Failed && v.d.route == Relay
            && (w.d.notice == Suppressed ==> v.mute)
            && if w.d.notice == Created then w.report.Some? else w.report == v.report))
  }

  /** A move of the row alone: report, consents and message stay. */
  predicate Shift(v: View, w: View) { w.report == v.report && w.consents == v.consents && w.mute == v.mute }

  predicate Expires(v: View, w: View) {
    && Shift(v, w) && w.phase == v.phase && Queue.Waiting(v.d)
    && w.d == v.d.(state := if v.d.possiblyDelivered then Uncertain else Failed, reason := Some(Expired),
                   noticeDue := w.d.noticeDue)
  }

  predicate Recovers(v: View, w: View) {
    && Shift(v, w) && v.d.route == Relay && v.d.state == Leased && v.phase.Some? && w.phase.None?
    && var unknown := v.phase.value == Body || v.d.possiblyDelivered;
       w.d == v.d.(state := if unknown then Uncertain else Deferred, token := None, leaseUntil := None,
                   nextAttempt := w.d.nextAttempt, lastCode := None, possiblyDelivered := unknown)
  }

  predicate Claims(v: View, w: View) {
    && Shift(v, w) && Queue.Waiting(v.d) && w.phase == Some(Ready) && w.d.token.Some? && w.d.leaseUntil.Some?
    && w.d == v.d.(state := Leased, attempts := v.d.attempts + 1, generation := v.d.generation + 1,
                   token := w.d.token, leaseUntil := w.d.leaseUntil)
  }

  /** Held by an administrator, or because its counters are used up. */
  predicate Holds(v: View, w: View) {
    && Shift(v, w) && w.phase == v.phase && v.d.route == Relay && v.d.closedAt.None?
    && (v.d.state == Pending || v.d.state == Deferred || v.d.state == Uncertain || v.d.state == Hold)
    && (w.d.reason == Some(Manual) || w.d.reason == Some(Counter))
    && w.d == v.d.(state := Hold, reason := w.d.reason,
                   possiblyDelivered := v.d.possiblyDelivered || v.d.state == Uncertain)
  }

  predicate Retries(v: View, w: View) {
    && w.report == v.report && w.mute == v.mute && w.phase == v.phase
    && v.d.route == Relay && v.d.closedAt.None?
    && (v.d.state == Deferred || v.d.state == Uncertain || v.d.state == Hold)
    && v.d.expires <= w.d.expires
    && w.d == v.d.(state := Pending, nextAttempt := w.d.nextAttempt, expires := w.d.expires, reason := None)
    && w.consents >= (if v.d.state == Deferred then v.consents else v.consents + 1)
  }

  predicate Closes(v: View, w: View) {
    && Shift(v, w) && w.phase == v.phase && v.d.route == Relay && v.d.closedAt.None? && w.d.closedAt.Some?
    && (v.d.state == Uncertain || v.d.state == Hold) && v.d.possiblyDelivered
    && w.d == v.d.(state := Uncertain, closedAt := w.d.closedAt)
  }

  /** The durable body mark. */
  predicate Marks(v: View, w: View) {
    && Shift(v, w) && w.d == v.d && v.d.state == Leased && v.phase.Some? && w.phase == Some(Body)
  }

  /** Which code and reason go with a verdict, and in which phase it can have come to that. */
  predicate Witnessed(verdict: State, phase: Phase, code: Option<int>, reason: Option<Reason>) {
    match verdict
    case Delivered => Coded(code, 200) && reason.None? && phase == Body
    case Deferred => (code.None? || Coded(code, 400)) && reason.None?
    case Failed => Coded(code, 500) && reason == Some(SmtpPermanent)
    case Uncertain => code.None? && reason.None? && phase == Body
    case Hold => code.None? && reason == Some(Content)
    case Pending => false
    case Leased => false
  }

  /** A finished attempt: `verdict` is what its result alone would record. */
  predicate Finishes(v: View, w: View, verdict: State) {
    && Shift(v, w) && v.d.route == Relay && v.d.state == Leased && v.phase.Some? && w.phase.None?
    && Witnessed(verdict, v.phase.value, w.d.lastCode, w.d.reason)
    && var state := if v.d.possiblyDelivered && verdict != Delivered then Uncertain else verdict;
       w.d == v.d.(state := state, token := None, leaseUntil := None, lastCode := w.d.lastCode,
                   nextAttempt := w.d.nextAttempt, reason := w.d.reason, possiblyDelivered := state == Uncertain,
                   noticeDue := w.d.noticeDue)
  }

  ghost predicate Finish(v: View, w: View) { exists verdict :: Finishes(v, w, verdict) }

  /** The moves of rows nobody owns; `Still` is the only one an owned row ever makes otherwise. */
  predicate FreeMove(v: View, w: View) {
    Expires(v, w) || Recovers(v, w) || Claims(v, w) || Holds(v, w) || Retries(v, w) || Closes(v, w)
  }

  ghost predicate Move(v: View, w: View) {
    Still(v, w) || FreeMove(v, w) || Marks(v, w) || Finish(v, w)
  }

  /** A row as the two inserting functions make it. */
  predicate Newborn(v: View) {
    && v.phase.None? && v.report.None? && v.d.token.None? && v.d.leaseUntil.None?
    && !v.d.possiblyDelivered && v.d.closedAt.None? && v.d.notice == NotYet
    && v.d.generation == 0 && v.d.attempts == 0 && v.d.lastCode.None? && v.d.reason.None?
    && (v.d.state == (if v.d.route == Local then Delivered else Pending))
  }

  /** Every move keeps the row invariant and no move leaves a terminal state. */
  lemma MoveKeepsRow(v: View, w: View)
    requires RowOk(v) && Move(v, w)
    ensures RowOk(w) && SameMail(v.d, w.d)
    ensures Terminal(v.d) ==> w.d.state == v.d.state && w.d.closedAt == v.d.closedAt
    ensures v.report.Some? ==> w.report == v.report
  {
  }

  // ---------------------------------------------------------------- accounting for sent dots

  /** The row is leased to the attempt of this generation. */
  predicate LeasedTo(v: View, generation: nat) { v.d.state == Leased && v.d.generation == generation }

  /**
   * A final dot sent by the attempt of this generation is accounted for: the body mark is durable
   * while it runs and, unless its refusal was recorded, the row never denies the message went out.
   */
  predicate Accounted(v: View, generation: nat, refused: bool) {
    && (LeasedTo(v, generation) ==> v.phase == Some(Body))
    && (refused || v.d.possiblyDelivered || v.d.state == Delivered || LeasedTo(v, generation))
  }

  lemma MoveAccounts(v: View, w: View, generation: nat, refused: bool)
    requires RowOk(v) && (Still(v, w) || FreeMove(v, w)) && generation <= v.d.generation
    requires Accounted(v, generation, refused)
    ensures Accounted(w, generation, refused)
  {
  }

  /** One more unresolved attempt than consents is possible once a row is uncertain, held or done. */
  function SlackOf(v: View, dotted: bool): nat {
    if v.d.state == Uncertain || v.d.state == Hold || v.d.state == Delivered || dotted then 1 else 0
  }

  /** The slack a row gives up is paid for by a recorded consent. */
  lemma MovePays(v: View, w: View, dotted: bool, still: bool)
    requires RowOk(v) && (Still(v, w) || FreeMove(v, w))
    requires dotted ==> v.d.state == Leased && v.phase == Some(Body)
    requires dotted && Still(v, w) ==> still
    ensures v.consents + SlackOf(v, dotted) <= w.consents + SlackOf(w, still)
  {
  }

  /** One transaction: rows of `owned` deliveries at most stand still. */
  ghost predicate Evolves(db: Db, next: Db, owned: set<Id>) {
    && db.deliveries.Keys <= next.deliveries.Keys
    && (forall id :: id in db.deliveries ==>
          Still(ViewOf(db, id), ViewOf(next, id))
          || (id !in owned && FreeMove(ViewOf(db, id), ViewOf(next, id))))
    && (forall id :: id in next.deliveries && id !in db.deliveries ==> Newborn(ViewOf(next, id)))
  }

  /** Leases and reports only exist for delivery rows. */
  ghost predicate Attached(db: Db) {
    db.leases.Keys <= db.deliveries.Keys && db.notifications.Keys <= db.deliveries.Keys
  }

  ghost predicate RowsOk(db: Db) {
    Attached(db) && forall id :: id in db.deliveries ==> RowOk(ViewOf(db, id))
  }

  lemma EvolvesKeepsRows(db: Db, next: Db, owned: set<Id>)
    requires RowsOk(db) && Evolves(db, next, owned) && Attached(next)
    ensures RowsOk(next)
  {
    forall id | id in next.deliveries ensures RowOk(ViewOf(next, id)) {
      if id in db.deliveries {
        MoveKeepsRow(ViewOf(db, id), ViewOf(next, id));
      }
    }
  }

  // ---------------------------------------------------------------- queue transactions

  lemma ExpireEvolves(db: Db, keys: seq<Key>, now: int, owned: set<Id>)
    requires forall k :: k in keys ==> k.id in db.deliveries && Queue.Waiting(db.deliveries[k.id])
    requires forall id :: id in owned && id in db.deliveries ==> db.deliveries[id].state == Leased
    ensures Evolves(db, Queue.ExpireRows(db, Ids(keys), now), owned)
  {
    var next := Queue.ExpireRows(db, Ids(keys), now);
    forall id | id in db.deliveries
      ensures Still(ViewOf(db, id), ViewOf(next, id))
              || (id !in owned && FreeMove(ViewOf(db, id), ViewOf(next, id)))
    {
      if id in Ids(keys) {
        assert Expires(ViewOf(db, id), ViewOf(next, id));
      }
    }
  }

  /** A row that is not touched stands still; `next` may differ from `db` elsewhere. */
  lemma SameViewStill(v: View)
    ensures Still(v, v)
  {
  }

  lemma RecoverRowMoves(db: Db, gone: set<Id>, next_: int, id: Id)
    requires id in db.deliveries
    requires id in gone ==> id in db.leases && db.deliveries[id].route == Relay && db.deliveries[id].state == Leased
    ensures var v, w := ViewOf(db, id), ViewOf(Queue.RecoverRows(db, gone, next_), id);
            if id in gone then Recovers(v, w) else w == v
  {
  }

  lemma RecoverEvolves(db: Db, gone: set<Id>, next_: int, owned: set<Id>)
    requires forall id :: id in gone ==> id in db.deliveries && id in db.leases
                                         && db.deliveries[id].route == Relay && db.deliveries[id].state == Leased
    requires gone !! owned
    ensures Evolves(db, Queue.RecoverRows(db, gone, next_), owned)
  {
    var next := Queue.RecoverRows(db, gone, next_);
    forall id | id in db.deliveries
      ensures Still(ViewOf(db, id), ViewOf(next, id))
              || (id !in owned && FreeMove(ViewOf(db, id), ViewOf(next, id)))
    {
      RecoverRowMoves(db, gone, next_, id);
      SameViewStill(ViewOf(db, id));
    }
  }

  // ---------------------------------------------------------------- the claim loop

  /** A lease handed out by the loop names its row exactly. */
  ghost predicate Names(l: Queue.Lease, base: Db, tx: Db, ctx: Queue.Context, i: nat)
    requires l.id in base.deliveries && l.id in tx.deliveries
  {
    && l.id !in ctx.active && l.serial == ctx.serial + i && l.lock == ctx.lock
    && Claims(ViewOf(base, l.id), ViewOf(tx, l.id))
    && tx.deliveries[l.id].token == Some(l.token) && tx.deliveries[l.id].generation == l.generation
  }

  /** Rows are moved at most once, and never one with a live owner. */
  ghost predicate RowsScanned(base: Db, tx: Db, active: set<Id>) {
    && tx == base.(deliveries := tx.deliveries, leases := tx.leases)
    && tx.deliveries.Keys == base.deliveries.Keys
    && tx.leases.Keys <= base.leases.Keys + base.deliveries.Keys
    && (forall id :: id in base.deliveries ==>
          ViewOf(tx, id) == ViewOf(base, id)
          || (id !in active && (Claims(ViewOf(base, id), ViewOf(tx, id)) || Holds(ViewOf(base, id), ViewOf(tx, id)))))
  }

  ghost predicate LeasesScanned(base: Db, c: Queue.Claimed, ctx: Queue.Context)
    requires c.tx.deliveries.Keys == base.deliveries.Keys
  {
    && |c.leases| <= ctx.available
    && (forall i :: 0 <= i < |c.leases| ==> c.leases[i].id in base.deliveries
                                            && Names(c.leases[i], base, c.tx, ctx, i))
    && (forall i, j :: 0 <= i < j < |c.leases| ==> c.leases[i].id != c.leases[j].id)
  }

  /** No domain is filled beyond its share by this claim. */
  ghost predicate SharesKept(leases: seq<Queue.Lease>, ctx: Queue.Context) {
    forall domain ::
      Queue.Load(ctx.active, ctx.live, domain) <= ctx.policy.perDomain ==>
        Queue.Load(ctx.active, ctx.live, domain) + Queue.LeasesFor(leases, domain) <= ctx.policy.perDomain
  }

  ghost predicate Scanned(base: Db, c: Queue.Claimed, ctx: Queue.Context) {
    RowsScanned(base, c.tx, ctx.active.Keys) && LeasesScanned(base, c, ctx) && SharesKept(c.leases, ctx)
  }

  /** The candidates still to come are waiting rows the loop has not touched. */
  ghost predicate Untouched(base: Db, c: Queue.Claimed, rows: seq<Key>) {
    && (forall k :: k in rows ==> k.id in base.deliveries && Queue.Waiting(base.deliveries[k.id])
                                  && k.id in c.tx.deliveries && ViewOf(c.tx, k.id) == ViewOf(base, k.id))
    && (forall i, k :: 0 <= i < |c.leases| && k in rows ==> c.leases[i].id != k.id)
    && (forall i, j :: 0 <= i < j < |rows| ==> rows[i].id != rows[j].id)
  }

  /** At most the row `id` differs. */
  ghost predicate OnlyRow(tx: Db, next: Db, id: Id) {
    && next == tx.(deliveries := next.deliveries, leases := next.leases)
    && next.deliveries.Keys == tx.deliveries.Keys && next.leases.Keys <= tx.leases.Keys + {id}
    && forall x :: x in tx.deliveries && x != id ==> ViewOf(next, x) == ViewOf(tx, x)
  }

  /** What one candidate comes to: nothing, an exhausted counter, or one more lease. */
  ghost predicate Examined(c: Queue.Claimed, next: Queue.Claimed, id: Id, ctx: Queue.Context)
    requires id in c.tx.deliveries
  {
    && OnlyRow(c.tx, next.tx, id)
    && (|| (next.leases == c.leases
            && (next.tx == c.tx
                || (id !in ctx.active && next.tx.leases == c.tx.leases
                    && next.tx.deliveries[id] == c.tx.deliveries[id].(state := Hold, reason := Some(Counter)))))
        || (id !in ctx.active && |next.leases| == |c.leases| + 1 && next.leases[..|c.leases|] == c.leases
            && var l := next.leases[|c.leases|];
               && l.id == id && l.serial == ctx.serial + |c.leases| && l.lock == ctx.lock
               && l.generation == c.tx.deliveries[id].generation + 1
               && next.tx.leases == c.tx.leases[id := Ready]
               && next.tx.deliveries[id].leaseUntil.Some?
               && next.tx.deliveries[id]
                  == Queue.LeasedRow(c.tx.deliveries[id], l.token, next.tx.deliveries[id].leaseUntil.value)
               && !Queue.DomainFull(c, l.domain, ctx)))
  }

  lemma LeasingCases(c: Queue.Claimed, id: Id, recipient: string, ctx: Queue.Context)
    requires ctx.policy.Valid() && id in c.tx.deliveries && Queue.Leasing(c, id, recipient, ctx).Ok?
    requires id !in ctx.active && !Queue.DomainFull(c, Addresses.DomainOf(recipient), ctx)
    ensures Examined(c, Queue.Leasing(c, id, recipient, ctx).value, id, ctx)
  {
    var next := Queue.Leasing(c, id, recipient, ctx).value;
    assert next.leases[..|c.leases|] == c.leases;
  }

  /** A candidate that is passed over or held leaves everything but its own row alone. */
  lemma PassedOver(c: Queue.Claimed, next: Queue.Claimed, id: Id, ctx: Queue.Context)
    requires id in c.tx.deliveries && next.leases == c.leases
    requires || next.tx == c.tx
             || (id !in ctx.active
                 && next.tx == Queue.Put(c.tx, id, c.tx.deliveries[id].(state := Hold, reason := Some(Counter))))
    ensures Examined(c, next, id, ctx)
  {
  }

  /** The three ends of the loop body. */
  lemma ExamineIs(c: Queue.Claimed, id: Id, ctx: Queue.Context)
    requires ctx.policy.Valid() && id in c.tx.deliveries && Queue.Examine(c, id, ctx).Ok?
    ensures var next, d := Queue.Examine(c, id, ctx).value, c.tx.deliveries[id];
            || (next.leases == c.leases && next.tx == c.tx)
            || (next.leases == c.leases && id !in ctx.active
                && next.tx == Queue.Put(c.tx, id, d.(state := Hold, reason := Some(Counter))))
            || (id !in ctx.active && Addresses.Parse(d.recipient).Some?
                && !Queue.DomainFull(c, Addresses.DomainOf(Addresses.Parse(d.recipient).value), ctx)
                && Queue.Leasing(c, id, Addresses.Parse(d.recipient).value, ctx) == Ok(next))
  {
  }

  lemma ExamineCases(c: Queue.Claimed, id: Id, ctx: Queue.Context)
    requires ctx.policy.Valid() && id in c.tx.deliveries && Queue.Examine(c, id, ctx).Ok?
    ensures Examined(c, Queue.Examine(c, id, ctx).value, id, ctx)
  {
    ExamineIs(c, id, ctx);
    var next := Queue.Examine(c, id, ctx).value;
    if next.leases == c.leases {
      PassedOver(c, next, id, ctx);
    } else {
      LeasingCases(c, id, Addresses.Parse(c.tx.deliveries[id].recipient).value, ctx);
    }
  }

  /** The examined row itself: unchanged, claimed or held. */
  lemma ExamineRow(base: Db, c: Queue.Claimed, next: Queue.Claimed, id: Id, ctx: Queue.Context)
    requires id in base.deliveries && id in c.tx.deliveries && Queue.Waiting(base.deliveries[id])
    requires RowOk(ViewOf(base, id)) && ViewOf(c.tx, id) == ViewOf(base, id) && Examined(c, next, id, ctx)
    requires next.tx.notifications == base.notifications && next.tx.admin == base.admin
    ensures || ViewOf(next.tx, id) == ViewOf(base, id)
            || (id !in ctx.active && (Claims(ViewOf(base, id), ViewOf(next.tx, id))
                                      || Holds(ViewOf(base, id), ViewOf(next.tx, id))))
    ensures |next.leases| > |c.leases| ==> Claims(ViewOf(base, id), ViewOf(next.tx, id))
  {
    assert c.tx.deliveries[id] == ViewOf(c.tx, id).d == base.deliveries[id];
  }

  lemma ExamineRows(base: Db, c: Queue.Claimed, next: Queue.Claimed, id: Id, ctx: Queue.Context)
    requires RowsOk(base) && RowsScanned(base, c.tx, ctx.active.Keys)
    requires id in base.deliveries && Queue.Waiting(base.deliveries[id]) && ViewOf(c.tx, id) == ViewOf(base, id)
    requires Examined(c, next, id, ctx)
    ensures RowsScanned(base, next.tx, ctx.active.Keys)
    ensures |next.leases| > |c.leases| ==> Claims(ViewOf(base, id), ViewOf(next.tx, id))
  {
    assert RowOk(ViewOf(base, id));
    ExamineRow(base, c, next, id, ctx);
    forall x | x in base.deliveries && x != id ensures ViewOf(next.tx, x) == ViewOf(c.tx, x) {
    }
  }

  lemma NamesStays(l: Queue.Lease, base: Db, tx: Db, next: Db, ctx: Queue.Context, i: nat)
    requires l.id in base.deliveries && l.id in tx.deliveries && l.id in next.deliveries
    requires Names(l, base, tx, ctx, i) && ViewOf(next, l.id) == ViewOf(tx, l.id)
    ensures Names(l, base, next, ctx, i)
  {
    assert next.deliveries[l.id] == ViewOf(next, l.id).d;
  }

  lemma EarlierLease(c: Queue.Claimed, next: Queue.Claimed, i: nat)
    requires |c.leases| <= |next.leases| && next.leases[..|c.leases|] == c.leases && i < |c.leases|
    ensures next.leases[i] == c.leases[i]
  {
    assert next.leases[i] == next.leases[..|c.leases|][i];
  }

  /** Leases handed out earlier still name their rows. */
  lemma EarlierNames(base: Db, c: Queue.Claimed, next: Queue.Claimed, id: Id, ctx: Queue.Context, i: nat)
    requires c.tx.deliveries.Keys == base.deliveries.Keys && LeasesScanned(base, c, ctx) && OnlyRow(c.tx, next.tx, id)
    requires i < |c.leases| && c.leases[i].id != id
    ensures c.leases[i].id in base.deliveries && c.leases[i].id in next.tx.deliveries
    ensures Names(c.leases[i], base, next.tx, ctx, i)
  {
    assert Names(c.leases[i], base, c.tx, ctx, i);
    NamesStays(c.leases[i], base, c.tx, next.tx, ctx, i);
  }

  /** ... and a new lease names its own. */
  lemma NewestNames(base: Db, c: Queue.Claimed, next: Queue.Claimed, id: Id, ctx: Queue.Context)
    requires id in base.deliveries && id in c.tx.deliveries && id in next.tx.deliveries
    requires Examined(c, next, id, ctx) && |next.leases| > |c.leases| && ViewOf(c.tx, id) == ViewOf(base, id)
    requires Claims(ViewOf(base, id), ViewOf(next.tx, id))
    ensures |next.leases| == |c.leases| + 1 && next.leases[|c.leases|].id == id
    ensures Names(next.leases[|c.leases|], base, next.tx, ctx, |c.leases|)
  {
    assert c.tx.deliveries[id] == ViewOf(c.tx, id).d == base.deliveries[id];
  }

  lemma ExamineLeases(base: Db, c: Queue.Claimed, next: Queue.Claimed, id: Id, ctx: Queue.Context)
    requires c.tx.deliveries.Keys == base.deliveries.Keys && LeasesScanned(base, c, ctx)
    requires id in base.deliveries && ViewOf(c.tx, id) == ViewOf(base, id)
    requires |c.leases| < ctx.available && forall i :: 0 <= i < |c.leases| ==> c.leases[i].id != id
    requires Examined(c, next, id, ctx)
    requires |next.leases| > |c.leases| ==> Claims(ViewOf(base, id), ViewOf(next.tx, id))
    ensures next.tx.deliveries.Keys == base.deliveries.Keys && LeasesScanned(base, next, ctx)
  {
    assert next.leases[..|c.leases|] == c.leases;
    forall i | 0 <= i < |c.leases|
      ensures next.leases[i] == c.leases[i] && c.leases[i].id in base.deliveries
              && Names(c.leases[i], base, next.tx, ctx, i)
    {
      EarlierLease(c, next, i);
      EarlierNames(base, c, next, id, ctx, i);
    }
    if |next.leases| > |c.leases| {
      NewestNames(base, c, next, id, ctx);
    }
  }

  lemma ExamineShares(c: Queue.Claimed, next: Queue.Claimed, id: Id, ctx: Queue.Context)
    requires id in c.tx.deliveries && Examined(c, next, id, ctx) && SharesKept(c.leases, ctx)
    ensures SharesKept(next.leases, ctx)
  {
  }

  lemma ExamineLeavesRest(base: Db, c: Queue.Claimed, next: Queue.Claimed, rows: seq<Key>, ctx: Queue.Context)
    requires rows != [] && rows[0].id in c.tx.deliveries && Untouched(base, c, rows)
    requires Examined(c, next, rows[0].id, ctx)
    ensures Untouched(base, next, rows[1..])
  {
    assert forall k :: k in rows[1..] ==> k in rows && k.id != rows[0].id;
    assert next.leases[..|c.leases|] == c.leases;
    forall i, k | 0 <= i < |next.leases| && k in rows[1..] ensures next.leases[i].id != k.id {
      if i < |c.leases| {
        EarlierLease(c, next, i);
      }
    }
  }

  lemma ExamineScans(base: Db, c: Queue.Claimed, next: Queue.Claimed, rows: seq<Key>, ctx: Queue.Context)
    requires RowsOk(base) && rows != [] && |c.leases| < ctx.available
    requires Scanned(base, c, ctx) && Untouched(base, c, rows)
    requires rows[0].id in c.tx.deliveries && Examined(c, next, rows[0].id, ctx)
    ensures Scanned(base, next, ctx) && Untouched(base, next, rows[1..])
  {
    var id := rows[0].id;
    assert rows[0] in rows;
    ExamineRows(base, c, next, id, ctx);
    ExamineLeases(base, c, next, id, ctx);
    ExamineShares(c, next, id, ctx);
    ExamineLeavesRest(base, c, next, rows, ctx);
  }

  lemma {:induction false} ScanScans(base: Db, c: Queue.Claimed, rows: seq<Key>, ctx: Queue.Context)
    requires ctx.policy.Valid() && RowsOk(base)
    requires Scanned(base, c, ctx) && Untouched(base, c, rows)
    requires Queue.Scan(c, rows, ctx).Ok?
    ensures Scanned(base, Queue.Scan(c, rows, ctx).value, ctx)
    decreases |rows|
  {
    if rows != [] && |c.leases| < ctx.available {
      var next := Queue.Examine(c, rows[0].id, ctx).value;
      assert rows[0] in rows;
      ExamineCases(c, rows[0].id, ctx);
      ExamineScans(base, c, next, rows, ctx);
      ScanScans(base, next, rows[1..], ctx);
    }
  }

  lemma StartScanned(db: Db, rows: seq<Key>, ctx: Queue.Context)
    requires forall k :: k in rows ==> k.id in db.deliveries && Queue.Waiting(db.deliveries[k.id])
    requires forall i, j :: 0 <= i < j < |rows| ==> rows[i].id != rows[j].id
    ensures Scanned(db, Queue.Claimed(db, [], 0), ctx) && Untouched(db, Queue.Claimed(db, [], 0), rows)
  {
  }

  /** A ready batch: waiting rows, each once. */
  lemma ReadyBatchWaits(s: Queue.Store, now: nat)
    ensures var rows := Queue.ReadyBatch(s, now);
            && (forall k :: k in rows ==> k.id in s.db.deliveries && Queue.Waiting(s.db.deliveries[k.id])
                                          && k.at == s.db.deliveries[k.id].nextAttempt)
            && (forall i, j :: 0 <= i < j < |rows| ==> rows[i].id != rows[j].id)
  {
    var keys := Queue.ReadyKeys(s.db, now, s.rt.readyCursor);
    var rows := Queue.ReadyBatch(s, now);
    forall k | k in rows
      ensures k.id in s.db.deliveries && Queue.Waiting(s.db.deliveries[k.id])
              && k.at == s.db.deliveries[k.id].nextAttempt
    {
      assert k in keys;
    }
    forall i, j | 0 <= i < j < |rows| ensures rows[i].id != rows[j].id {
      assert rows[i] in keys && rows[j] in keys && Before(rows[i], rows[j]);
    }
  }

  /** The whole loop of a claim, from the store it starts in. */
  lemma ClaimScans(s: Queue.Store, ctx: Queue.Context)
    requires ctx.policy.Valid() && RowsOk(s.db)
    requires Queue.Scan(Queue.Claimed(s.db, [], 0), Queue.ReadyBatch(s, ctx.now), ctx).Ok?
    ensures Scanned(s.db, Queue.Scan(Queue.Claimed(s.db, [], 0), Queue.ReadyBatch(s, ctx.now), ctx).value, ctx)
  {
    var rows := Queue.ReadyBatch(s, ctx.now);
    ReadyBatchWaits(s, ctx.now);
    StartScanned(s.db, rows, ctx);
    ScanScans(s.db, Queue.Claimed(s.db, [], 0), rows, ctx);
  }
}
