/** Quota and UID bookkeeping: the counter queries of Store::check_integrity, as invariants. */
module Ledger {
  import opened Tables
  import opened Ordering
  import opened Growth
  import Acceptance
  import Addresses
  import LocalDelivery

  function SizeOf(db: Db, m: Id): nat {
    if m in db.messages && db.messages[m].blob in db.blobs then db.blobs[db.messages[m].blob].size else 0
  }

  /** Bytes of the messages filed for one account: one term per mailbox entry. */
  function Filed(db: Db, entries: seq<Entry>, login: string): nat {
    if entries == [] then 0
    else
      var e := entries[|entries| - 1];
      Filed(db, entries[..|entries| - 1], login) + if e.account == login then SizeOf(db, e.message) else 0
  }

  ghost predicate AccountOk(db: Db, login: string)
    requires login in db.accounts
  {
    var a := db.accounts[login];
    && a.used == Filed(db, db.entries, login)
    && a.used <= a.quota <= I64_MAX
    && 1 <= a.uidNext <= U32_MAX + 1
  }

  ghost predicate EntryOk(db: Db, e: Entry) {
    && e.account in db.accounts && e.message in db.messages
    && 1 <= e.uid < db.accounts[e.account].uidNext && 1 <= e.event <= db.accounts[e.account].eventSeq
  }

  /** quota_mismatches and uid_mismatches are zero, quotas hold, UIDs and event numbers never repeat. */
  ghost predicate LedgerOk(db: Db) {
    && (forall login :: login in db.accounts ==> AccountOk(db, login))
    && (forall i :: 0 <= i < |db.entries| ==> EntryOk(db, db.entries[i]))
    && (forall i, j :: 0 <= i < j < |db.entries| && db.entries[i].account == db.entries[j].account
                       ==> db.entries[i].uid != db.entries[j].uid && db.entries[i].event != db.entries[j].event)
  }

  /** Sizes of filed messages do not depend on what else is stored. */
  lemma {:induction false} FiledStable(db: Db, next: Db, entries: seq<Entry>, login: string)
    requires forall i :: 0 <= i < |entries| ==> SizeOf(next, entries[i].message) == SizeOf(db, entries[i].message)
    ensures Filed(next, entries, login) == Filed(db, entries, login)
  {
    if entries != [] {
      FiledStable(db, next, entries[..|entries| - 1], login);
    }
  }

  /** Any change that leaves accounts, entries and the sizes of filed messages alone. */
  lemma LedgerUntouched(db: Db, next: Db)
    requires LedgerOk(db) && next.accounts == db.accounts && next.entries == db.entries
    requires forall m :: m in db.messages ==> m in next.messages && SizeOf(next, m) == SizeOf(db, m)
    ensures LedgerOk(next)
  {
    assert forall i :: 0 <= i < |db.entries| ==> EntryOk(db, db.entries[i]);
    forall login | login in next.accounts ensures AccountOk(next, login) {
      assert AccountOk(db, login);
      FiledStable(db, next, db.entries, login);
    }
    forall i | 0 <= i < |next.entries| ensures EntryOk(next, next.entries[i]) {
    }
  }

  /** Account columns other than the ledger's may change freely. */
  lemma LedgerOfAccounts(db: Db, next: Db)
    requires LedgerOk(db) && next.entries == db.entries && next.messages == db.messages && next.blobs == db.blobs
    requires db.accounts.Keys <= next.accounts.Keys
    requires forall login :: login in db.accounts ==>
               && next.accounts[login].used == db.accounts[login].used
               && next.accounts[login].uidNext == db.accounts[login].uidNext
               && next.accounts[login].eventSeq == db.accounts[login].eventSeq
               && next.accounts[login].used <= next.accounts[login].quota <= I64_MAX
    requires forall login :: login in next.accounts && login !in db.accounts ==>
               && next.accounts[login].used == 0 && next.accounts[login].uidNext == 1
               && next.accounts[login].quota <= I64_MAX
    ensures LedgerOk(next)
  {
    assert forall i :: 0 <= i < |db.entries| ==> EntryOk(db, db.entries[i]);
    forall login | login in next.accounts ensures AccountOk(next, login) {
      FiledStable(db, next, db.entries, login);
      if login in db.accounts {
        assert AccountOk(db, login);
      } else {
        NothingFiled(db, db.entries, login);
      }
    }
    forall i | 0 <= i < |next.entries| ensures EntryOk(next, next.entries[i]) {
    }
  }

  lemma {:induction false} NothingFiled(db: Db, entries: seq<Entry>, login: string)
    requires forall i :: 0 <= i < |entries| ==> entries[i].account != login
    ensures Filed(db, entries, login) == 0
  {
    if entries != [] {
      NothingFiled(db, entries[..|entries| - 1], login);
    }
  }

  /** One local delivery: the next UID is used once and the quota pays exactly its size. */
  lemma DeliverKeepsLedger(db: Db, recipient: string, m: Id, size: nat, id: Id, now: int)
    requires LedgerOk(db) && m in db.messages && SizeOf(db, m) == size
    requires LocalDelivery.Deliver(db, recipient, m, size, id, now).Ok?
    ensures LedgerOk(LocalDelivery.Deliver(db, recipient, m, size, id, now).value)
  {
    var next := LocalDelivery.Deliver(db, recipient, m, size, id, now).value;
    var who := LocalDelivery.Target(db, recipient, size).value;
    assert next.entries[..|db.entries|] == db.entries;
    forall login | login in next.accounts ensures AccountOk(next, login) {
      assert AccountOk(db, login);
      FiledStable(db, next, db.entries, login);
    }
    forall i | 0 <= i < |next.entries| ensures EntryOk(next, next.entries[i]) {
      if i < |db.entries| {
        assert EntryOk(db, db.entries[i]);
      } else {
        assert AccountOk(db, who);
      }
    }
    forall i, j | 0 <= i < j < |next.entries| && next.entries[i].account == next.entries[j].account
      ensures next.entries[i].uid != next.entries[j].uid && next.entries[i].event != next.entries[j].event
    {
      assert EntryOk(db, db.entries[i]);
    }
  }

  lemma {:induction false} DeliverAllKeepsLedger(db: Db, recipients: seq<string>, m: Id, size: nat, ids: seq<Id>,
                                                 now: int)
    requires LedgerOk(db) && m in db.messages && SizeOf(db, m) == size && |ids| == |recipients|
    requires LocalDelivery.DeliverAll(db, recipients, m, size, ids, now).Ok?
    ensures LedgerOk(LocalDelivery.DeliverAll(db, recipients, m, size, ids, now).value)
    decreases |recipients|
  {
    if recipients != [] {
      DeliverKeepsLedger(db, recipients[0], m, size, ids[0], now);
      DeliverAllKeepsLedger(LocalDelivery.Deliver(db, recipients[0], m, size, ids[0], now).value,
                            recipients[1..], m, size, ids[1..], now);
    }
  }

  lemma GrowthKeepsSizes(db: Db, next: Db, m: Id)
    requires Linked(db) && Grows(db, next, m)
    ensures forall x :: x in db.messages ==> x in next.messages && SizeOf(next, x) == SizeOf(db, x)
  {
    assert forall x :: x in db.messages ==> MessageOk(db, x);
  }

  lemma HeadedKeepsLedger(db: Db, m: Id, msg: Message, blob: Blob)
    requires Linked(db) && LedgerOk(db) && Headed(db, m, msg, blob).Ok?
    ensures var next := Headed(db, m, msg, blob).value;
            LedgerOk(next) && m in next.messages && SizeOf(next, m) == blob.size
  {
    HeadedGrows(db, m, msg, blob);
    GrowthKeepsSizes(db, Headed(db, m, msg, blob).value, m);
    LedgerUntouched(db, Headed(db, m, msg, blob).value);
  }

  lemma DeliveringKeepsLedger(db: Db, q: Acceptance.Request, p: Acceptance.Prepared, ids: Acceptance.Fresh, now: int)
    requires Linked(db) && LedgerOk(db) && Delivering(db, q, p, ids, now).Ok?
    ensures LedgerOk(Delivering(db, q, p, ids, now).value)
  {
    var head := Headed(db, ids.message, NewMessage(q, p), Blob(p.size, p.hash)).value;
    HeadedKeepsLedger(db, ids.message, NewMessage(q, p), Blob(p.size, p.hash));
    var local := Acceptance.LocalKeys(q.plan.recipients);
    DeliverAllKeepsLedger(head, InOrder(local), ids.message, p.size, Acceptance.Supply(ids.local, |local|), now);
  }

  lemma RelayingKeepsLedger(mid: Db, m: Id, recipients: set<string>, meta: QueueMeta, ids: seq<Id>, now: int)
    requires LedgerOk(mid) && |ids| == |recipients| && Acceptance.InsertRelay(mid, m, recipients, meta, ids, now).Ok?
    requires forall t :: t in recipients ==> Addresses.IsAddress(t)
    ensures LedgerOk(Acceptance.InsertRelay(mid, m, recipients, meta, ids, now).value)
  {
    InsertRelayAdds(mid, m, recipients, meta, ids, now);
    LedgerUntouched(mid, Acceptance.InsertRelay(mid, m, recipients, meta, ids, now).value);
  }

  lemma AcceptKeepsLedger(db: Db, q: Acceptance.Request, p: Acceptance.Prepared, ids: Acceptance.Fresh, now: int)
    requires Linked(db) && LedgerOk(db) && Acceptance.AcceptNew(db, q, p, ids, now).Ok?
    ensures LedgerOk(Acceptance.AcceptNew(db, q, p, ids, now).value)
  {
    AcceptNewSplits(db, q, p, ids, now);
    DeliveringKeepsLedger(db, q, p, ids, now);
    if q.Relayed? {
      var remote := Acceptance.RemoteOf(q);
      RelayingKeepsLedger(Delivering(db, q, p, ids, now).value, ids.message, remote, Acceptance.MetaOf(q).value,
                          Acceptance.Supply(ids.relay, |remote|), now);
    }
  }

  lemma EnqueueKeepsLedger(db: Db, plan: Acceptance.QueuePlan, p: Acceptance.Prepared, ids: Acceptance.Fresh, now: int)
    requires Linked(db) && LedgerOk(db) && Acceptance.EnqueueNew(db, plan, p, ids, now).Ok?
    ensures LedgerOk(Acceptance.EnqueueNew(db, plan, p, ids, now).value)
  {
    EnqueueNewGrows(db, plan, p, ids, now);
    var next := Acceptance.EnqueueNew(db, plan, p, ids, now).value;
    GrowthKeepsSizes(db, next, ids.message);
    LedgerUntouched(db, next);
  }
}
