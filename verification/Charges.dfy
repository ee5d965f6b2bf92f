/** When a local delivery to many recipients succeeds, and exactly what it charges to whom. */
module Charges {
  import opened Wrappers
  import opened Tables
  import opened Ordering
  import opened LocalDelivery
  import Acceptance
  import Addresses
  import Clock
  import Growth
  import Identity
  import Queue

  /** The address receives and its account is active. */
  predicate Reachable(db: Db, t: string) {
    && t in db.addresses && db.addresses[t].receive
    && db.addresses[t].account in db.accounts && db.accounts[db.addresses[t].account].active
  }

  predicate Owns(db: Db, t: string, login: string) { t in db.addresses && db.addresses[t].account == login }

  /** How many of the recipients are addresses of this account; aliases count one each. */
  function Share(db: Db, recipients: seq<string>, login: string): nat {
    if recipients == [] then 0
    else Share(db, recipients[1..], login) + if Owns(db, recipients[0], login) then 1 else 0
  }

  /** The account can take `n` more messages of `size` bytes, all of them. */
  predicate Room(a: Account, n: nat, size: nat) {
    n > 0 ==>
      && a.uidNext + n - 1 <= U32_MAX && a.eventSeq + n - 1 < I64_MAX
      && a.used + n * size <= a.quota && a.used + n * size <= I64_MAX
  }

  function Charged(a: Account, n: nat, size: nat): Account {
    a.(uidNext := a.uidNext + n, eventSeq := a.eventSeq + n, used := a.used + n * size)
  }

  ghost predicate Affordable(db: Db, recipients: seq<string>, size: nat) {
    && (forall t :: t in recipients ==> Reachable(db, t))
    && forall login :: login in db.accounts ==> Room(db.accounts[login], Share(db, recipients, login), size)
  }

  ghost predicate ChargedAll(db: Db, next: Db, recipients: seq<string>, size: nat) {
    && next.accounts.Keys == db.accounts.Keys
    && forall login :: login in db.accounts ==>
         next.accounts[login] == Charged(db.accounts[login], Share(db, recipients, login), size)
  }

  /** Rows can be inserted: fresh ids, and no row yet for this message and any of the recipients. */
  ghost predicate Insertable(db: Db, recipients: seq<string>, m: Id, ids: seq<Id>) {
    && |ids| == |recipients| && m in db.messages
    && (forall i :: 0 <= i < |ids| ==> ids[i] !in db.deliveries)
    && (forall i, j :: 0 <= i < j < |ids| ==> ids[i] != ids[j] && recipients[i] != recipients[j])
    && (forall x :: x in db.deliveries && db.deliveries[x].message == m ==> db.deliveries[x].recipient !in recipients)
  }

  lemma RoomSplits(a: Account, n: nat, size: nat)
    ensures Room(a, n + 1, size) <==> Room(a, 1, size) && Room(Charged(a, 1, size), n, size)
    ensures Charged(Charged(a, 1, size), n, size) == Charged(a, n + 1, size)
  {
    assert (n + 1) * size == size + n * size;
  }

  lemma DeliverExactly(db: Db, recipient: string, m: Id, size: nat, id: Id, now: int)
    requires Insertable(db, [recipient], m, [id])
    ensures Deliver(db, recipient, m, size, id, now).Ok?
            <==> Reachable(db, recipient) && Room(db.accounts[db.addresses[recipient].account], 1, size)
    ensures Deliver(db, recipient, m, size, id, now).Ok? ==>
              var next, login := Deliver(db, recipient, m, size, id, now).value, db.addresses[recipient].account;
              && next.addresses == db.addresses && next.messages == db.messages
              && next.accounts == db.accounts[login := Charged(db.accounts[login], 1, size)]
              && next.deliveries == db.deliveries[id := LocalRow(m, recipient, now)]
  {
    assert [recipient][0] in [recipient] && [id][0] == id;
  }

  lemma {:induction false} ShareStable(db: Db, next: Db, recipients: seq<string>, login: string)
    requires next.addresses == db.addresses
    ensures Share(next, recipients, login) == Share(db, recipients, login)
  {
    if recipients != [] {
      ShareStable(db, next, recipients[1..], login);
    }
  }

  lemma RestInsertable(db: Db, next: Db, recipients: seq<string>, m: Id, ids: seq<Id>, now: int)
    requires recipients != [] && Insertable(db, recipients, m, ids) && next.messages == db.messages
    requires next.deliveries == db.deliveries[ids[0] := LocalRow(m, recipients[0], now)]
    ensures Insertable(next, recipients[1..], m, ids[1..])
  {
    forall x | x in next.deliveries && next.deliveries[x].message == m
      ensures next.deliveries[x].recipient !in recipients[1..]
    {
      if x == ids[0] {
        assert forall i :: 0 <= i < |recipients| - 1 ==> recipients[1..][i] != recipients[0];
      } else {
        assert next.deliveries[x].recipient !in recipients;
        assert forall t :: t in recipients[1..] ==> t in recipients;
      }
    }
  }

  /** One account through the whole list: the first recipient, then the rest. */
  lemma AccountSplits(db: Db, one: Db, recipients: seq<string>, size: nat, login: string)
    requires recipients != [] && Reachable(db, recipients[0]) && login in db.accounts
    requires var who := db.addresses[recipients[0]].account;
             one.addresses == db.addresses && one.accounts == db.accounts[who := Charged(db.accounts[who], 1, size)]
    ensures var n, rest := Share(db, recipients, login), Share(one, recipients[1..], login);
            && (login == db.addresses[recipients[0]].account ==>
                  n == rest + 1 && one.accounts[login] == Charged(db.accounts[login], 1, size))
            && (login != db.addresses[recipients[0]].account ==> n == rest && one.accounts[login] == db.accounts[login])
            && (Room(db.accounts[login], n, size)
                <==> (login == db.addresses[recipients[0]].account ==> Room(db.accounts[login], 1, size))
                     && Room(one.accounts[login], rest, size))
            && Charged(one.accounts[login], rest, size) == Charged(db.accounts[login], n, size)
  {
    var rest := Share(one, recipients[1..], login);
    ShareStable(db, one, recipients[1..], login);
    RoomSplits(db.accounts[login], rest, size);
  }

  lemma AffordableSplits(db: Db, one: Db, recipients: seq<string>, size: nat)
    requires recipients != [] && Reachable(db, recipients[0])
    requires var who := db.addresses[recipients[0]].account;
             && Room(db.accounts[who], 1, size)
             && one.addresses == db.addresses && one.accounts == db.accounts[who := Charged(db.accounts[who], 1, size)]
    ensures Affordable(db, recipients, size) <==> Affordable(one, recipients[1..], size)
    ensures forall next :: ChargedAll(one, next, recipients[1..], size) ==> ChargedAll(db, next, recipients, size)
  {
    assert recipients == [recipients[0]] + recipients[1..];
    assert forall t :: Reachable(one, t) <==> Reachable(db, t);
    forall login | login in db.accounts
      ensures Room(db.accounts[login], Share(db, recipients, login), size)
              <==> Room(one.accounts[login], Share(one, recipients[1..], login), size)
      ensures Charged(one.accounts[login], Share(one, recipients[1..], login), size)
              == Charged(db.accounts[login], Share(db, recipients, login), size)
    {
      AccountSplits(db, one, recipients, size, login);
    }
  }

  lemma FirstUnaffordable(db: Db, recipients: seq<string>, size: nat)
    requires recipients != [] && Affordable(db, recipients, size)
    ensures Reachable(db, recipients[0]) && Room(db.accounts[db.addresses[recipients[0]].account], 1, size)
  {
    assert recipients[0] in recipients;
    var who := db.addresses[recipients[0]].account;
    RoomSplits(db.accounts[who], Share(db, recipients[1..], who), size);
  }

  /**
   * Delivery to all recipients succeeds exactly when every address is reachable and every account
   * has room for its whole share; then each account pays for its share and nothing else changes hands.
   */
  lemma {:induction false} DeliverAllExactly(db: Db, recipients: seq<string>, m: Id, size: nat, ids: seq<Id>, now: int)
    requires Insertable(db, recipients, m, ids)
    ensures DeliverAll(db, recipients, m, size, ids, now).Ok? <==> Affordable(db, recipients, size)
    ensures DeliverAll(db, recipients, m, size, ids, now).Ok? ==>
              ChargedAll(db, DeliverAll(db, recipients, m, size, ids, now).value, recipients, size)
    decreases |recipients|
  {
    if recipients != [] {
      FirstInsertable(db, recipients, m, ids);
      DeliverExactly(db, recipients[0], m, size, ids[0], now);
      if Affordable(db, recipients, size) {
        FirstUnaffordable(db, recipients, size);
      }
      var first := Deliver(db, recipients[0], m, size, ids[0], now);
      if first.Ok? {
        RestInsertable(db, first.value, recipients, m, ids, now);
        DeliverAllExactly(first.value, recipients[1..], m, size, ids[1..], now);
        AffordableSplits(db, first.value, recipients, size);
      }
    }
  }

  lemma FirstInsertable(db: Db, recipients: seq<string>, m: Id, ids: seq<Id>)
    requires recipients != [] && Insertable(db, recipients, m, ids)
    ensures Insertable(db, [recipients[0]], m, [ids[0]])
  {
  }

  // ---------------------------------------------------------------- relay rows

  ghost predicate NewIds(db: Db, ids: seq<Id>) {
    && (forall i :: 0 <= i < |ids| ==> ids[i] !in db.deliveries)
    && (forall i, j :: 0 <= i < j < |ids| ==> ids[i] != ids[j])
  }

  /** None of the recipients has a row of this message yet. */
  ghost predicate Unaddressed(db: Db, m: Id, recipients: seq<string>) {
    forall x :: x in db.deliveries && db.deliveries[x].message == m ==> db.deliveries[x].recipient !in recipients
  }

  lemma RelayRowFits(db: Db, m: Id, recipients: seq<string>, ids: seq<Id>, row: Delivery)
    requires |ids| == |recipients| > 0 && m in db.messages && NewIds(db, ids)
    requires forall i, j :: 0 <= i < j < |recipients| ==> recipients[i] != recipients[j]
    requires row.message == m && row.recipient == recipients[0]
    ensures InsertDelivery(db, ids[0], row).Err? ==> !Unaddressed(db, m, recipients)
    ensures InsertDelivery(db, ids[0], row).Ok? ==>
              var one := InsertDelivery(db, ids[0], row).value;
              && one.messages == db.messages && one.accounts == db.accounts && NewIds(one, ids[1..])
              && (Unaddressed(one, m, recipients[1..]) <==> Unaddressed(db, m, recipients))
  {
    assert recipients == [recipients[0]] + recipients[1..];
    if InsertDelivery(db, ids[0], row).Ok? {
      var one := InsertDelivery(db, ids[0], row).value;
      forall x | x in db.deliveries && db.deliveries[x].message == m
        ensures db.deliveries[x].recipient in recipients <==> one.deliveries[x].recipient in recipients[1..]
      {
      }
      assert recipients[0] !in recipients[1..];
    }
  }

  /** New relay rows go in exactly when no recipient has a row of the message already. */
  lemma {:induction false} RelayRowsExactly(db: Db, m: Id, recipients: seq<string>, ids: seq<Id>, now: int,
                                            expires: int)
    requires |ids| == |recipients| && m in db.messages && NewIds(db, ids)
    requires forall i, j :: 0 <= i < j < |recipients| ==> recipients[i] != recipients[j]
    ensures Acceptance.RelayRows(db, m, recipients, ids, now, expires).Ok? <==> Unaddressed(db, m, recipients)
    ensures Acceptance.RelayRows(db, m, recipients, ids, now, expires).Ok? ==>
              Acceptance.RelayRows(db, m, recipients, ids, now, expires).value.accounts == db.accounts
    decreases |recipients|
  {
    if recipients != [] {
      var row := Acceptance.RelayRow(m, recipients[0], now, expires);
      RelayRowFits(db, m, recipients, ids, row);
      var one := InsertDelivery(db, ids[0], row);
      if one.Ok? {
        RelayRowsExactly(one.value, m, recipients[1..], ids[1..], now, expires);
      }
    }
  }

  lemma {:induction false} DeliverAllKeys(db: Db, recipients: seq<string>, m: Id, size: nat, ids: seq<Id>, now: int)
    requires |ids| == |recipients| && DeliverAll(db, recipients, m, size, ids, now).Ok?
    ensures forall x :: x in DeliverAll(db, recipients, m, size, ids, now).value.deliveries ==>
              x in db.deliveries || x in ids
    decreases |recipients|
  {
    if recipients != [] {
      DeliverAllKeys(Deliver(db, recipients[0], m, size, ids[0], now).value, recipients[1..], m, size, ids[1..], now);
    }
  }

  // ---------------------------------------------------------------- acceptance

  function LocalSupply(q: Acceptance.Request, ids: Acceptance.Fresh): seq<Id> {
    Acceptance.Supply(ids.local, |Acceptance.LocalKeys(q.plan.recipients)|)
  }

  function RelaySupply(q: Acceptance.Request, ids: Acceptance.Fresh): seq<Id> {
    Acceptance.Supply(ids.relay, |Acceptance.RemoteOf(q)|)
  }

  /** The ids drawn for a request are new. */
  ghost predicate FreshFor(db: Db, q: Acceptance.Request, p: Acceptance.Prepared, ids: Acceptance.Fresh) {
    && p.id !in db.blobs && ids.message !in db.messages
    && NewIds(db, LocalSupply(q, ids)) && NewIds(db, RelaySupply(q, ids))
    && forall i :: 0 <= i < |RelaySupply(q, ids)| ==> RelaySupply(q, ids)[i] !in LocalSupply(q, ids)
  }

  /** The queue can hold the request: its expiry is a time, and no remote recipient is a local one as well. */
  predicate Queueable(q: Acceptance.Request, now: int) {
    q.Relayed? ==>
      && now + q.relay.maxAge * 1000 <= I64_MAX
      && Acceptance.RemoteOf(q) !! Acceptance.LocalKeys(q.plan.recipients)
  }

  /** The message row goes in, and nothing the deliveries look at has changed. */
  lemma HeadFits(db: Db, q: Acceptance.Request, p: Acceptance.Prepared, ids: Acceptance.Fresh) returns (head: Db)
    requires Growth.Linked(db) && Operation(q.plan.operation) !in db.keys && FreshFor(db, q, p, ids)
    ensures Growth.Headed(db, ids.message, Growth.NewMessage(q, p), Blob(p.size, p.hash)) == Ok(head)
    ensures head.accounts == db.accounts && head.addresses == db.addresses && head.deliveries == db.deliveries
    ensures Insertable(head, InOrder(Acceptance.LocalKeys(q.plan.recipients)), ids.message, LocalSupply(q, ids))
  {
    head := Growth.Headed(db, ids.message, Growth.NewMessage(q, p), Blob(p.size, p.hash)).value;
    assert forall x :: x in db.deliveries ==> Growth.DeliveryOk(db, db.deliveries[x]);
  }

  lemma SameTerms(db: Db, head: Db, recipients: seq<string>, size: nat)
    requires head.accounts == db.accounts && head.addresses == db.addresses
    ensures Affordable(head, recipients, size) <==> Affordable(db, recipients, size)
    ensures forall next :: ChargedAll(head, next, recipients, size) ==> ChargedAll(db, next, recipients, size)
  {
    forall login ensures Share(head, recipients, login) == Share(db, recipients, login) {
      ShareStable(db, head, recipients, login);
    }
    assert forall t :: Reachable(head, t) <==> Reachable(db, t);
  }

  /** The local half of a request. */
  lemma DeliveringExactly(db: Db, q: Acceptance.Request, p: Acceptance.Prepared, ids: Acceptance.Fresh, now: int)
    requires Growth.Linked(db) && Operation(q.plan.operation) !in db.keys && FreshFor(db, q, p, ids)
    ensures var recipients := InOrder(Acceptance.LocalKeys(q.plan.recipients));
            var mid := Growth.Delivering(db, q, p, ids, now);
            && (mid.Ok? <==> Affordable(db, recipients, p.size))
            && (mid.Ok? ==> ChargedAll(db, mid.value, recipients, p.size) && NewIds(mid.value, RelaySupply(q, ids)))
  {
    var head := HeadFits(db, q, p, ids);
    var recipients := InOrder(Acceptance.LocalKeys(q.plan.recipients));
    DeliverAllExactly(head, recipients, ids.message, p.size, LocalSupply(q, ids), now);
    SameTerms(db, head, recipients, p.size);
    if Growth.Delivering(db, q, p, ids, now).Ok? {
      DeliverAllKeys(head, recipients, ids.message, p.size, LocalSupply(q, ids), now);
    }
  }

  /** After the local half, the message has rows for exactly its local recipients. */
  lemma MidUnaddressed(mid: Db, m: Id, local: set<string>, remote: set<string>)
    requires RecipientsOf(mid, m, Local) == local && RecipientsOf(mid, m, Relay) == {}
    ensures Unaddressed(mid, m, InOrder(remote)) <==> remote !! local
  {
    forall x | x in mid.deliveries && mid.deliveries[x].message == m ensures mid.deliveries[x].recipient in local {
      assert mid.deliveries[x].recipient in RecipientsOf(mid, m, mid.deliveries[x].route);
    }
    if Unaddressed(mid, m, InOrder(remote)) {
      forall t | t in local ensures t !in remote {
        var x :| x in mid.deliveries && mid.deliveries[x].message == m && mid.deliveries[x].recipient == t;
      }
    }
  }

  lemma SameRows(db: Db, next: Db, m: Id, recipients: seq<string>, ids: seq<Id>)
    requires next.deliveries == db.deliveries
    ensures Unaddressed(next, m, recipients) <==> Unaddressed(db, m, recipients)
    ensures NewIds(next, ids) <==> NewIds(db, ids)
  {
  }

  lemma InsertRelayIs(db: Db, m: Id, recipients: set<string>, meta: QueueMeta, ids: seq<Id>, now: int, expires: int)
    requires |ids| == |recipients| && m !in db.queued && Queue.Later(now, meta.maxAge * 1000) == Ok(expires)
    ensures Acceptance.InsertRelay(db, m, recipients, meta, ids, now)
            == Acceptance.RelayRows(db.(queued := db.queued[m := meta]), m, InOrder(recipients), ids, now, expires)
  {
  }

  lemma InsertRelayNeedsTime(db: Db, m: Id, recipients: set<string>, meta: QueueMeta, ids: seq<Id>, now: int)
    requires |ids| == |recipients|
    ensures now + meta.maxAge * 1000 > I64_MAX ==> Acceptance.InsertRelay(db, m, recipients, meta, ids, now).Err?
  {
  }

  lemma InsertRelayExactly(db: Db, m: Id, recipients: set<string>, meta: QueueMeta, ids: seq<Id>, now: int)
    requires |ids| == |recipients| && m in db.messages && m !in db.queued && NewIds(db, ids)
    ensures var done := Acceptance.InsertRelay(db, m, recipients, meta, ids, now);
            && (done.Ok? <==> now + meta.maxAge * 1000 <= I64_MAX && Unaddressed(db, m, InOrder(recipients)))
            && (done.Ok? ==> done.value.accounts == db.accounts)
  {
    InsertRelayNeedsTime(db, m, recipients, meta, ids, now);
    var expires := Queue.Later(now, meta.maxAge * 1000);
    if expires.Ok? {
      var queued := db.(queued := db.queued[m := meta]);
      SameRows(db, queued, m, InOrder(recipients), ids);
      RelayRowsExactly(queued, m, InOrder(recipients), ids, now, expires.value);
      InsertRelayIs(db, m, recipients, meta, ids, now, expires.value);
    }
  }

  /** The remote half. */
  lemma QueueingExactly(mid: Db, q: Acceptance.Request, ids: Acceptance.Fresh, now: int)
    requires q.Relayed? && ids.message in mid.messages && ids.message !in mid.queued && NewIds(mid, RelaySupply(q, ids))
    requires RecipientsOf(mid, ids.message, Local) == Acceptance.LocalKeys(q.plan.recipients)
    requires RecipientsOf(mid, ids.message, Relay) == {}
    ensures var done := Acceptance.InsertRelay(mid, ids.message, Acceptance.RemoteOf(q), Acceptance.MetaOf(q).value,
                                               RelaySupply(q, ids), now);
            (done.Ok? <==> Queueable(q, now)) && (done.Ok? ==> done.value.accounts == mid.accounts)
  {
    var remote := Acceptance.RemoteOf(q);
    InsertRelayExactly(mid, ids.message, remote, Acceptance.MetaOf(q).value, RelaySupply(q, ids), now);
    MidUnaddressed(mid, ids.message, Acceptance.LocalKeys(q.plan.recipients), remote);
  }

  lemma AcceptNewExactly(db: Db, q: Acceptance.Request, p: Acceptance.Prepared, ids: Acceptance.Fresh, now: int)
    requires Growth.Linked(db) && Operation(q.plan.operation) !in db.keys && FreshFor(db, q, p, ids)
    ensures var recipients := InOrder(Acceptance.LocalKeys(q.plan.recipients));
            var done := Acceptance.AcceptNew(db, q, p, ids, now);
            && (done.Ok? <==> Affordable(db, recipients, p.size) && Queueable(q, now))
            && (done.Ok? ==> ChargedAll(db, done.value, recipients, p.size))
  {
    Growth.AcceptNewSplits(db, q, p, ids, now);
    DeliveringExactly(db, q, p, ids, now);
    var mid := Growth.Delivering(db, q, p, ids, now);
    if mid.Ok? && q.Relayed? {
      Growth.DeliveringGrows(db, q, p, ids, now);
      QueueingExactly(mid.value, q, ids, now);
    }
  }

  /**
   * A new request is accepted exactly when every local recipient's account is reachable and can hold all its
   * copies and, with remote recipients, the queue can hold it; otherwise the database stays as it was.
   */
  lemma AcceptExactly(db: Db, q: Acceptance.Request, p: Acceptance.Prepared, ids: Acceptance.Fresh, r: Clock.Reading)
    requires Growth.Linked(db) && Acceptance.ValidRequest(q) && Acceptance.Permitted(db, q)
    requires Operation(q.plan.operation) !in db.keys && FreshFor(db, q, p, ids) && r.wall.Some?
    ensures var recipients := InOrder(Acceptance.LocalKeys(q.plan.recipients));
            var (next, answer) := Acceptance.Accept(db, q, p, ids, r, Confirmed);
            && (answer.Ok? <==> Affordable(db, recipients, p.size) && Queueable(q, r.wall.value))
            && (answer.Ok? ==> ChargedAll(db, next, recipients, p.size))
            && (answer.Err? ==> next == db)
  {
    AcceptNewExactly(db, q, p, ids, r.wall.value);
    Acceptance.AcceptOfNew(db, q, p, ids, r, Confirmed);
  }

  // ---------------------------------------------------------------- a request the queue cannot hold

  const OFFICE := EMPTY.(accounts := map["a@b" := Account(true, 100, 0, 1, 1, 0)],
                         addresses := map["a@b" := AddressRow("a@b", true, true)],
                         credentials := map[7 := Credential("a@b", MailScope, false)])

  function Note(): Acceptance.Plan {
    Addresses.ShortestIsAddress();
    Acceptance.Plan(1, Some("a@b"), ["a@b"])
  }

  function Sender(): Acceptance.Submitter {
    Addresses.ShortestIsAddress();
    Acceptance.Submitter(Identity.Principal("a@b", 7, 1, MailScope), "a@b")
  }

  function Onward(): Acceptance.RelayPlan {
    Addresses.ShortestIsAddress();
    Acceptance.RelayPlan(["a@b"], SevenBit, 60)
  }

  lemma OnlyRecipient()
    ensures InOrder({"a@b"}) == ["a@b"]
  {
    var rows := InOrder({"a@b"});
    assert rows[0] in rows;
  }

  lemma OfficeHolds(size: nat)
    requires size <= 100
    ensures Affordable(OFFICE, InOrder({"a@b"}), size)
  {
    OnlyRecipient();
    assert ["a@b"][1..] == [];
    assert Share(OFFICE, ["a@b"], "a@b") == 1;
  }

  predicate OfNote(q: Acceptance.Request) {
    q == Acceptance.Submitted(Note(), Sender()) || q == Acceptance.Relayed(Note(), Sender(), Onward())
  }

  lemma OfficePermits(q: Acceptance.Request)
    requires OfNote(q)
    ensures Acceptance.ValidRequest(q) && Acceptance.Permitted(OFFICE, q)
    ensures Acceptance.LocalKeys(q.plan.recipients) == {"a@b"}
    ensures Acceptance.RemoteOf(q) == if q.Relayed? then {"a@b"} else {}
  {
    assert Addresses.LocalKey("a@b") == "a@b";
    assert q.plan.recipients == ["a@b"];
    assert Addresses.LocalKey(q.plan.recipients[0]) in Acceptance.LocalKeys(q.plan.recipients);
    if q.Relayed? {
      assert q.relay.recipients == ["a@b"];
      assert q.relay.recipients[0] in Acceptance.RemoteOf(q);
    }
  }

  lemma OfficeIsNew(q: Acceptance.Request, p: Acceptance.Prepared, ids: Acceptance.Fresh)
    requires Acceptance.LocalKeys(q.plan.recipients) == {"a@b"} && |Acceptance.RemoteOf(q)| <= 1
    requires ids.local == [2] && ids.relay == [3]
    ensures FreshFor(OFFICE, q, p, ids)
  {
    assert LocalSupply(q, ids) == [2];
    assert RelaySupply(q, ids) <= [3];
  }

  lemma OfficeExactly(q: Acceptance.Request, p: Acceptance.Prepared, ids: Acceptance.Fresh, r: Clock.Reading)
    requires OfNote(q) && p.size <= 100 && ids.local == [2] && ids.relay == [3] && r.wall == Some(0)
    ensures var (next, answer) := Acceptance.Accept(OFFICE, q, p, ids, r, Confirmed);
            (answer.Ok? <==> !q.Relayed?) && (answer.Err? ==> next == OFFICE)
  {
    OfficePermits(q);
    OfficeIsNew(q, p, ids);
    OfficeHolds(p.size);
    AcceptExactly(OFFICE, q, p, ids, r);
    if q.Relayed? {
      assert "a@b" in Acceptance.RemoteOf(q) && "a@b" in Acceptance.LocalKeys(q.plan.recipients);
    }
  }

  /**
   * The account can hold the message, and alone that is enough; with the same recipient once more among the
   * remote ones the whole request fails.
   */
  lemma SharedRecipientFails(p: Acceptance.Prepared, message: Id, r: Clock.Reading)
    requires p.size <= 100 && r.wall == Some(0)
    ensures var ids := Acceptance.Fresh(message, [2], [3]);
            var (next, answer) := Acceptance.Accept(OFFICE, Acceptance.Relayed(Note(), Sender(), Onward()), p, ids, r,
                                                    Confirmed);
            && next == OFFICE && answer.Err?
            && Acceptance.Accept(OFFICE, Acceptance.Submitted(Note(), Sender()), p, ids, r, Confirmed).1.Ok?
  {
    var ids := Acceptance.Fresh(message, [2], [3]);
    OfficeExactly(Acceptance.Submitted(Note(), Sender()), p, ids, r);
    OfficeExactly(Acceptance.Relayed(Note(), Sender(), Onward()), p, ids, r);
  }
}
