/** Who may send as whom after each change of an account (crates/store/src/identity.rs), and what may be submitted. */
module Rights {
  import opened Wrappers
  import opened Tables
  import opened Ordering
  import Acceptance
  import Addresses
  import Clock
  import Growth
  import Identity
  import LocalDelivery
  import Queue
  import Transactions

  /** The account holds a send right for the address. */
  predicate Holds(db: Db, account: string, address: string) {
    address in db.addresses && db.addresses[address].account == account && db.addresses[address].send
  }

  /** The same principal one epoch earlier: what it must have been before its account's epoch moved. */
  predicate CurrentBefore(db: Db, p: Identity.Principal) {
    p.epoch >= 1 && Identity.Current(db, p.(epoch := p.epoch - 1))
  }

  /** Sending needs a current mail credential and the account's own right, and nothing more. */
  lemma MaySendExactly(db: Db, p: Identity.Principal, address: string)
    ensures Identity.MaySend(db, p, address)
            <==> p.scope == MailScope && Identity.Current(db, p) && Holds(db, p.account, address)
  {
  }

  /** Being current needs the account active, its epoch, and the credential unrevoked and of that account and scope. */
  lemma CurrentExactly(db: Db, p: Identity.Principal)
    ensures Identity.Current(db, p)
            <==> && p.account in db.accounts && db.accounts[p.account].active && db.accounts[p.account].epoch == p.epoch
                 && p.credential in db.credentials
                 && db.credentials[p.credential] == Credential(p.account, p.scope, false)
  {
  }

  /**
   * After a send-as change exactly the account concerned may send as the address, and only if the right was
   * enabled; rights for other addresses stay, a new account may send as nobody, and no other change moves a right.
   */
  lemma RightsExactly(db: Db, c: Transactions.Change, account: string, address: string)
    requires Transactions.Changed(db, c).Ok?
    ensures var next := Transactions.Changed(db, c).value;
            Holds(next, account, address)
            <==> match c
                 case SendAs(login, x, enabled) =>
                   if address == x then account == login && enabled else Holds(db, account, address)
                 case NewAccount(login, _) => address != login && Holds(db, account, address)
                 case NewQuota(_, _) => Holds(db, account, address)
                 case NewCredential(_, _, _) => Holds(db, account, address)
                 case Revoke(_) => Holds(db, account, address)
                 case Disable(_) => Holds(db, account, address)
  {
  }

  /** Which principals are current after a change: those it ends are gone, and those it makes are there. */
  lemma PrincipalsExactly(db: Db, c: Transactions.Change, p: Identity.Principal)
    requires Transactions.Changed(db, c).Ok?
    ensures var next := Transactions.Changed(db, c).value;
            match c
            case SendAs(login, _, _) =>
              Identity.Current(next, p) <==>
                if p.account == login then CurrentBefore(db, p) else Identity.Current(db, p)
            case Revoke(selector) =>
              && selector in db.credentials
              && (Identity.Current(next, p)
                  <==> if p.account == db.credentials[selector].account
                       then p.credential != selector && CurrentBefore(db, p)
                       else Identity.Current(db, p))
            case Disable(login) => Identity.Current(next, p) <==> p.account != login && Identity.Current(db, p)
            case NewCredential(login, selector, scope) =>
              && login in db.accounts
              && (Identity.Current(next, p)
                  <==> if p.credential == selector
                       then p == Identity.Principal(login, selector, db.accounts[login].epoch, scope)
                       else Identity.Current(db, p))
            case NewQuota(_, _) => Identity.Current(next, p) <==> Identity.Current(db, p)
            case NewAccount(login, _) => p.account != login ==> (Identity.Current(next, p) <==> Identity.Current(db, p))
  {
  }

  // ---------------------------------------------------------------- what may be submitted

  /** One to a hundred recipients; with remote ones, at least one of them and an age of up to a week. */
  predicate WellFormed(q: Acceptance.Request) {
    match q
    case Plain(plan) => 1 <= |plan.recipients| <= 100
    case Submitted(plan, _) => 1 <= |plan.recipients| <= 100
    case Relayed(plan, _, relay) =>
      1 <= |relay.recipients| && |plan.recipients| + |relay.recipients| <= 100 && 1 <= relay.maxAge <= 7 * 24 * 3600
  }

  /** A submission names a sender, and its principal may send both as the sender and as the author. */
  predicate Allowed(db: Db, q: Acceptance.Request) {
    q.Plain? ||
      (&& q.plan.sender.Some?
       && Identity.MaySend(db, q.submitter.principal, Addresses.LocalKey(q.plan.sender.value))
       && Identity.MaySend(db, q.submitter.principal, Addresses.LocalKey(q.submitter.author)))
  }

  /**
   * A request is refused as malformed, or as not permitted, exactly on those grounds, whatever is stored under its
   * key; refused or answered from what is stored, it changes nothing.
   */
  lemma SubmissionsExactly(db: Db, q: Acceptance.Request, p: Acceptance.Prepared, ids: Acceptance.Fresh,
                           r: Clock.Reading, fate: Fate)
    requires r.wall.Some?
    ensures var (next, answer) := Acceptance.Accept(db, q, p, ids, r, fate);
            && (!WellFormed(q) ==> next == db && answer == Err(InvalidInput))
            && (WellFormed(q) && !Allowed(db, q) ==> next == db && answer == Err(PermissionDenied))
            && (WellFormed(q) && Allowed(db, q) ==> answer != Err(PermissionDenied))
  {
    Grounds(db, q);
    if WellFormed(q) && Allowed(db, q) {
      if Operation(q.plan.operation) in db.keys {
        Acceptance.AcceptOfKnown(db, q, p, ids, r, fate);
      } else {
        Acceptance.AcceptOfNew(db, q, p, ids, r, fate);
        NewIsPermitted(db, q, p, ids, r.wall.value);
      }
    }
  }

  lemma Grounds(db: Db, q: Acceptance.Request)
    ensures WellFormed(q) <==> Acceptance.ValidRequest(q)
    ensures Allowed(db, q) <==> Acceptance.Permitted(db, q)
  {
  }

  lemma NewIsPermitted(db: Db, q: Acceptance.Request, p: Acceptance.Prepared, ids: Acceptance.Fresh, now: int)
    ensures Acceptance.AcceptNew(db, q, p, ids, now) != Err(PermissionDenied)
  {
    Growth.AcceptNewSplits(db, q, p, ids, now);
    var local := Acceptance.LocalKeys(q.plan.recipients);
    var head := Growth.Headed(db, ids.message, Growth.NewMessage(q, p), Blob(p.size, p.hash));
    if head.Ok? {
      DeliverIsPermitted(head.value, InOrder(local), ids.message, p.size, Acceptance.Supply(ids.local, |local|), now);
    }
    var mid := Growth.Delivering(db, q, p, ids, now);
    if q.Relayed? && mid.Ok? {
      RelayIsPermitted(mid.value, ids.message, Acceptance.RemoteOf(q), Acceptance.MetaOf(q).value,
                       Acceptance.Supply(ids.relay, |Acceptance.RemoteOf(q)|), now);
    }
  }

  lemma {:induction false} DeliverIsPermitted(db: Db, recipients: seq<string>, m: Id, size: nat, ids: seq<Id>, now: int)
    requires |ids| == |recipients|
    ensures LocalDelivery.DeliverAll(db, recipients, m, size, ids, now) != Err(PermissionDenied)
    decreases |recipients|
  {
    if recipients != [] {
      var one := LocalDelivery.Deliver(db, recipients[0], m, size, ids[0], now);
      if one.Ok? {
        DeliverIsPermitted(one.value, recipients[1..], m, size, ids[1..], now);
      }
    }
  }

  lemma {:induction false} RowsArePermitted(db: Db, m: Id, recipients: seq<string>, ids: seq<Id>, now: int,
                                            expires: int)
    requires |ids| == |recipients|
    ensures Acceptance.RelayRows(db, m, recipients, ids, now, expires) != Err(PermissionDenied)
    decreases |recipients|
  {
    if recipients != [] {
      var one := InsertDelivery(db, ids[0], Acceptance.RelayRow(m, recipients[0], now, expires));
      if one.Ok? {
        RowsArePermitted(one.value, m, recipients[1..], ids[1..], now, expires);
      }
    }
  }

  lemma RelayIsPermitted(db: Db, m: Id, recipients: set<string>, meta: QueueMeta, ids: seq<Id>, now: int)
    requires |ids| == |recipients|
    ensures Acceptance.InsertRelay(db, m, recipients, meta, ids, now) != Err(PermissionDenied)
  {
    var expires := Queue.Later(now, meta.maxAge * 1000);
    if expires.Ok? && m !in db.queued {
      RowsArePermitted(db.(queued := db.queued[m := meta]), m, InOrder(recipients), ids, now, expires.value);
    }
  }
}
