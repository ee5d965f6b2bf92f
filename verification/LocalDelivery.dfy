/** Local delivery shared by acceptance and reports (crates/store/src/local_delivery.rs). */
module LocalDelivery {
  import opened Wrappers
  import opened Tables

  /** `target`: the account that receives for `recipient`, if it can take `size` more bytes. */
  function Target(db: Db, recipient: string, size: nat): (r: Result<string, StoreError>) {
    if || recipient !in db.addresses || !db.addresses[recipient].receive
       || db.addresses[recipient].account !in db.accounts
       || !db.accounts[db.addresses[recipient].account].active
    then Err(RecipientUnavailable)
    else
      var login := db.addresses[recipient].account;
      var a := db.accounts[login];
      if a.uidNext > U32_MAX || a.eventSeq >= I64_MAX then Err(UidExhausted)
      else if a.used + size > a.quota || a.used + size > I64_MAX then Err(Quota)
      else Ok(login)
  }

  function LocalRow(message: Id, recipient: string, now: int): Delivery {
    Delivery(message, recipient, Local, Delivered, 0, 0, now, now, None, None, None, None, false, None, NotYet, 0)
  }

  function Deliver(db: Db, recipient: string, message: Id, size: nat, delivery: Id, now: int)
    : (r: Result<Db, StoreError>)
  {
    var login :- Target(db, recipient, size);
    var db1 :- InsertDelivery(db, delivery, LocalRow(message, recipient, now));
    var a := db.accounts[login];
    Ok(db1.(entries := db1.entries + [Entry(login, a.uidNext, a.eventSeq + 1, message, delivery)],
            accounts := db1.accounts[login := a.(uidNext := a.uidNext + 1, eventSeq := a.eventSeq + 1,
                                                 used := a.used + size)]))
  }

  /** One delivery per recipient, in order; `ids` are the fresh delivery ids. */
  function DeliverAll(db: Db, recipients: seq<string>, message: Id, size: nat, ids: seq<Id>, now: int)
    : (r: Result<Db, StoreError>)
    requires |ids| == |recipients|
    decreases |recipients|
  {
    if recipients == [] then Ok(db)
    else
      var db1 :- Deliver(db, recipients[0], message, size, ids[0], now);
      DeliverAll(db1, recipients[1..], message, size, ids[1..], now)
  }
}
