/** Database authority for identities (crates/store/src/identity.rs). */
module Identity {
  import opened Wrappers
  import opened Tables

  datatype Principal = Principal(account: string, credential: Id, epoch: nat, scope: Scope)

  predicate Current(db: Db, p: Principal) {
    && p.credential in db.credentials && p.account in db.accounts
    && var c, a := db.credentials[p.credential], db.accounts[p.account];
       c.account == p.account && a.epoch == p.epoch && a.active && !c.revoked && c.scope == p.scope
  }

  predicate MaySend(db: Db, p: Principal, address: string) {
    && p.scope == MailScope && Current(db, p)
    && address in db.addresses && db.addresses[address].account == p.account && db.addresses[address].send
  }

  function CreateAccount(db: Db, login: string, quota: nat): (r: Result<Db, StoreError>) {
    if quota > I64_MAX then Err(InvalidInput)
    else if login in db.accounts || login in db.addresses then Err(Database)
    else Ok(db.(accounts := db.accounts[login := Account(true, quota, 0, 1, 1, 0)],
                addresses := db.addresses[login := AddressRow(login, true, false)]))
  }

  function SetQuota(db: Db, login: string, bytes: nat): (r: Result<Db, StoreError>) {
    if bytes > I64_MAX then Err(InvalidInput)
    else if login !in db.accounts then Err(NotFound)
    else if bytes < db.accounts[login].used then Err(Quota)
    else Ok(db.(accounts := db.accounts[login := db.accounts[login].(quota := bytes)]))
  }

  function CreateCredential(db: Db, login: string, selector: Id, scope: Scope): (r: Result<Db, StoreError>) {
    if login !in db.accounts || !db.accounts[login].active then Err(NotFound)
    else if selector in db.credentials then Err(Database)
    else Ok(db.(credentials := db.credentials[selector := Credential(login, scope, false)]))
  }

  /** `auth_epoch=auth_epoch+1`; the strict INTEGER column refuses the overflow. */
  function Bump(db: Db, account: string): (r: Result<Db, StoreError>) {
    if account !in db.accounts || db.accounts[account].epoch >= I64_MAX then Err(Database)
    else Ok(db.(accounts := db.accounts[account := db.accounts[account].(epoch := db.accounts[account].epoch + 1)]))
  }

  function RevokeCredential(db: Db, selector: Id): (r: Result<Db, StoreError>) {
    if selector !in db.credentials then Err(NotFound)
    else
      var c := db.credentials[selector];
      Bump(db.(credentials := db.credentials[selector := c.(revoked := true)]), c.account)
  }

  function DisableAccount(db: Db, login: string): (r: Result<Db, StoreError>) {
    if login !in db.accounts then Err(NotFound)
    else
      var db1 :- Bump(db, login);
      Ok(db1.(accounts := db1.accounts[login := db1.accounts[login].(active := false)],
              credentials := map s | s in db1.credentials
                :: if db1.credentials[s].account == login then db1.credentials[s].(revoked := true)
                   else db1.credentials[s]))
  }

  function SetSendAs(db: Db, login: string, address: string, enabled: bool): (r: Result<Db, StoreError>) {
    if login !in db.accounts || !db.accounts[login].active then Err(NotFound)
    else if address in db.addresses && db.addresses[address].account != login then Err(PermissionDenied)
    else
      var row := if address in db.addresses then db.addresses[address].(send := enabled)
                 else AddressRow(login, false, enabled);
      Bump(db.(addresses := db.addresses[address := row]), login)
  }
}
