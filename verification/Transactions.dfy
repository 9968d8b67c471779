/** The multi-statement transactions of the store, written as the list of their
    SQL statements. A statement sees the committed tables overlaid with the
    transaction's own writes (READ COMMITTED); running a transaction with nothing
    in between is `Serial`. */
module Transactions {
  import opened Tables

  datatype Op =
    | Create(
        command: CommandKey, maxAccounts: int, account: string, organization: string, subject: string, name: string,
        nameKey: string, credential: string, verifier: string, validFrom: Time, validUntil: Time, startedAt: Time,
        aad: string)
    | Rotate(
        command: CommandKey, account: string, organization: string, expectedRevision: int, credential: string,
        verifier: string, validFrom: Time, overlapUntil: Time, validUntil: Time, startedAt: Time, aad: string)
    | Revoke(
        command: CommandKey, account: string, organization: string, expectedRevision: int, revokedAt: Time,
        startedAt: Time, aad: string)
    | Admit(caller: string, key: string, account: string, credential: string, now: Time)

  function CommandOf(op: Op): CommandKey {
    if op.Admit? then CommandKey(op.caller, ExchangeSecret, op.key) else op.command
  }

  /** Which unique index an insert violated. */
  datatype Constraint = AccountKey | SubjectUnique | NameUnique | CredentialKey

  datatype Outcome =
    | Changed(row: AccountRow, changed: bool)   // committed create, rotate or revoke
    | LimitReached                              // create: the organization is full
    | NotFound
    | AlreadyRevoked
    | RevisionConflict
    | UniqueViolation(constraint: Constraint)
    | CheckViolation
    | OutOfRange                                // BIGINT overflow
    | InvariantFailure                          // a missing reread, or no open command row to complete
    | Admitted(credential: CredentialRow)       // committed exchange admission
    | NotAdmitted

  /** Uncommitted writes, newest row version per key. */
  datatype Writes = Writes(
    accounts: map<string, Account>,
    credentials: map<string, Credential>,
    commands: map<CommandKey, Command>)

  const NoWrites := Writes(map[], map[], map[])

  function Apply(db: Db, w: Writes): Db {
    Db(db.accounts + w.accounts, db.credentials + w.credentials, db.commands + w.commands, db.limits)
  }

  /** What the transaction has read back and still holds in a local variable. */
  datatype Fetched = Nothing | FetchedAccount(account: AccountRow) | FetchedCredential(credential: CredentialRow)

  datatype Progress =
    | Running(writes: Writes, fetched: Fetched)
    | Ready(writes: Writes, outcome: Outcome)   // every statement ran; commit is next
    | RolledBack(outcome: Outcome)

  // Row rewrites

  function Min(a: Time, b: Time): Time { if a <= b then a else b }
  function Max(a: Time, b: Time): Time { if a >= b then a else b }
  function Coalesce(a: Option<Time>, b: Time): Option<Time> { if a.Some? then a else Some(b) }

  /** The rows the rotation's UPDATE matches. */
  predicate Live(c: Credential, at: Time) {
    c.revokedAt.None? && c.validUntil > at
  }

  function Bound(c: Credential, at: Time, overlapUntil: Time): Credential {
    c.(validUntil := Min(c.validUntil, overlapUntil), supersededAt := Coalesce(c.supersededAt, at))
  }

  function Withdraw(c: Credential, at: Time): Credential {
    c.(revokedAt := Coalesce(c.revokedAt, at), validUntil := Max(c.validFrom, Min(c.validUntil, at)))
  }

  function JoinCredential(id: string, c: Credential, a: Account): CredentialRow {
    CredentialRow(id, c.account, a.organization, a.subject, a.status, c.verifier, c.validFrom, c.validUntil, c.revokedAt)
  }

  // Statements shared by the transactions

  /** INSERT INTO service_account_credentials. */
  function InsertCredential(db: Db, w: Writes, id: string, c: Credential): Progress {
    if !CredentialCheck(id, c) then RolledBack(CheckViolation)
    else if id in Apply(db, w).credentials then RolledBack(UniqueViolation(CredentialKey))
    else Running(w.(credentials := w.credentials[id := c]), Nothing)
  }

  /** `load_account_in_transaction`. */
  function Load(db: Db, w: Writes, account: string): Progress {
    var view := Apply(db, w);
    if account in view.accounts then Running(w, FetchedAccount(LoadRow(view, account))) else RolledBack(InvariantFailure)
  }

  /** `complete_success`: one open row must change, or the transaction is dropped. */
  function Complete(db: Db, w: Writes, key: CommandKey, receipt: Sealed, at: Time, outcome: Outcome): Progress {
    var view := Apply(db, w);
    if key in view.commands && view.commands[key].state.Completable() then
      Ready(w.(commands := w.commands[key := view.commands[key].(state := CompletedSuccess(receipt, at))]), outcome)
    else
      RolledBack(InvariantFailure)
  }

  /** The receipt of a committed change never carries the secret. */
  function Receipt(aad: string, row: AccountRow, changed: bool): Sealed {
    Sealed(aad, ChangeBody(row, changed, None))
  }

  // create_account

  function NewAccount(op: Op): Account
    requires op.Create?
  {
    Account(op.organization, op.subject, op.name, op.nameKey, Active, 1, op.startedAt, None, None)
  }

  function CreateStatement(db: Db, op: Op, i: nat, w: Writes, fetched: Fetched): Progress
    requires op.Create?
  {
    var view := Apply(db, w);
    match i
    case 0 => Running(w, Nothing)                                   // pg_advisory_xact_lock
    case 1 => if |AccountsOf(view, op.organization)| >= op.maxAccounts then RolledBack(LimitReached) else Running(w, Nothing)
    // one INSERT; its unique indexes are checked in the order they were created
    case 2 =>
      if !AccountCheck(op.account, NewAccount(op)) then RolledBack(CheckViolation)
      else if op.account in view.accounts then RolledBack(UniqueViolation(AccountKey))
      else Running(w, Nothing)
    case 3 =>
      if AccountsWithSubject(view, op.subject) != {} then RolledBack(UniqueViolation(SubjectUnique)) else Running(w, Nothing)
    case 4 =>
      if AccountsNamed(view, op.organization, op.nameKey) != {} then RolledBack(UniqueViolation(NameUnique))
      else Running(w.(accounts := w.accounts[op.account := NewAccount(op)]), Nothing)
    case 5 =>
      InsertCredential(db, w, op.credential,
                       Credential(op.account, op.verifier, op.validFrom, op.validUntil, op.startedAt, None, None, None))
    case 6 => Load(db, w, op.account)
    case _ =>
      if !fetched.FetchedAccount? then RolledBack(InvariantFailure)
      else Complete(db, w, op.command, Receipt(op.aad, fetched.account, true), op.startedAt, Changed(fetched.account, true))
  }

  // rotate_account

  function BoundRows(db: Db, op: Op): map<string, Credential>
    requires op.Rotate?
  {
    map c | c in db.credentials && db.credentials[c].account == op.account && Live(db.credentials[c], op.validFrom)
      :: Bound(db.credentials[c], op.validFrom, op.overlapUntil)
  }

  function RotateStatement(db: Db, op: Op, i: nat, w: Writes, fetched: Fetched): Progress
    requires op.Rotate?
  {
    var view := Apply(db, w);
    match i
    case 0 =>                                                    // lock_account, then the two guards
      if op.account !in view.accounts || view.accounts[op.account].organization != op.organization then RolledBack(NotFound)
      else if view.accounts[op.account].status == Revoked then RolledBack(AlreadyRevoked)
      else if view.accounts[op.account].revision != op.expectedRevision then RolledBack(RevisionConflict)
      else Running(w, Nothing)
    case 1 =>
      var bounded := BoundRows(view, op);
      if exists c :: c in bounded && !CredentialCheck(c, bounded[c]) then RolledBack(CheckViolation)
      else Running(w.(credentials := w.credentials + bounded), Nothing)
    case 2 =>
      InsertCredential(db, w, op.credential,
                       Credential(op.account, op.verifier, op.validFrom, op.validUntil, op.startedAt, None, None, None))
    case 3 =>
      if op.account !in view.accounts then Running(w, Nothing)
      else if view.accounts[op.account].revision >= MAX_BIGINT then RolledBack(OutOfRange)
      else
        var a := view.accounts[op.account];
        Running(w.(accounts := w.accounts[op.account := a.(revision := a.revision + 1, rotatedAt := Some(op.validFrom))]), Nothing)
    case 4 => Load(db, w, op.account)
    case _ =>
      if !fetched.FetchedAccount? then RolledBack(InvariantFailure)
      else Complete(db, w, op.command, Receipt(op.aad, fetched.account, true), op.startedAt, Changed(fetched.account, true))
  }

  // revoke_account

  function WithdrawnRows(db: Db, op: Op): map<string, Credential>
    requires op.Revoke?
  {
    map c | c in db.credentials && db.credentials[c].account == op.account
      :: Withdraw(db.credentials[c], op.revokedAt)
  }

  function RevokeStatement(db: Db, op: Op, i: nat, w: Writes, fetched: Fetched): Progress
    requires op.Revoke?
  {
    var view := Apply(db, w);
    match i
    case 0 =>                                                    // lock_account, then the guard
      if op.account !in view.accounts || view.accounts[op.account].organization != op.organization then RolledBack(NotFound)
      else if view.accounts[op.account].revision != op.expectedRevision then RolledBack(RevisionConflict)
      else Running(w, Nothing)
    case 1 =>                                                    // skipped when already revoked
      if op.account !in view.accounts || view.accounts[op.account].status == Revoked then Running(w, Nothing)
      else if view.accounts[op.account].revision >= MAX_BIGINT then RolledBack(OutOfRange)
      else
        var a := view.accounts[op.account];
        Running(w.(accounts := w.accounts[op.account :=
          a.(status := Revoked, revision := a.revision + 1, revokedAt := Some(op.revokedAt))]), Nothing)
    case 2 =>
      // only when statement 1 changed the row
      if op.account !in w.accounts then Running(w, Nothing)
      else Running(w.(credentials := w.credentials + WithdrawnRows(view, op)), Nothing)
    case 3 => Load(db, w, op.account)
    case _ =>
      if !fetched.FetchedAccount? then RolledBack(InvariantFailure)
      else
        var changed := op.account in w.accounts;
        Complete(db, w, op.command, Receipt(op.aad, fetched.account, changed), op.startedAt, Changed(fetched.account, changed))
  }

  // mark_exchange_issuing

  predicate Admissible(db: Db, op: Op)
    requires op.Admit?
  {
    && op.account in db.accounts && db.accounts[op.account].status == Active
    && op.credential in db.credentials
    && var c := db.credentials[op.credential];
       c.account == op.account && c.revokedAt.None? && c.validFrom <= op.now < c.validUntil
  }

  function AdmitStatement(db: Db, op: Op, i: nat, w: Writes, fetched: Fetched): Progress
    requires op.Admit?
  {
    var view := Apply(db, w);
    match i
    case 0 =>
      if op.account in view.accounts && view.accounts[op.account].status == Active then Running(w, Nothing)
      else RolledBack(NotAdmitted)
    case 1 =>
      if Admissible(view, op) then
        Running(w, FetchedCredential(JoinCredential(op.credential, view.credentials[op.credential], view.accounts[op.account])))
      else RolledBack(NotAdmitted)
    case 2 =>
      if op.credential !in view.credentials then Running(w, fetched)
      else Running(w.(credentials := w.credentials[op.credential := view.credentials[op.credential].(lastUsedAt := Some(op.now))]), fetched)
    case _ =>
      var key := CommandOf(op);
      if fetched.FetchedCredential? && key in view.commands && view.commands[key].state.Reserved? && op.credential in view.credentials then
        Ready(w.(commands := w.commands[key := view.commands[key].(state := Issuing)]), Admitted(fetched.credential))
      else RolledBack(NotAdmitted)
  }

  // A transaction is its statements, one after the other

  function Length(op: Op): nat {
    match op
    case Create(_, _, _, _, _, _, _, _, _, _, _, _, _) => 8
    case Rotate(_, _, _, _, _, _, _, _, _, _, _) => 6
    case Revoke(_, _, _, _, _, _, _) => 5
    case Admit(_, _, _, _, _) => 4
  }

  function Statement(db: Db, op: Op, i: nat, w: Writes, fetched: Fetched): Progress {
    match op
    case Create(_, _, _, _, _, _, _, _, _, _, _, _, _) => CreateStatement(db, op, i, w, fetched)
    case Rotate(_, _, _, _, _, _, _, _, _, _, _) => RotateStatement(db, op, i, w, fetched)
    case Revoke(_, _, _, _, _, _, _) => RevokeStatement(db, op, i, w, fetched)
    case Admit(_, _, _, _, _) => AdmitStatement(db, op, i, w, fetched)
  }

  /** The first `n` statements, run against committed tables that do not move. */
  function Prefix(db: Db, op: Op, n: nat): Progress {
    if n == 0 then Running(NoWrites, Nothing)
    else
      var p := Prefix(db, op, n - 1);
      if p.Running? then Statement(db, op, n - 1, p.writes, p.fetched) else p
  }

  lemma LastStatementEnds(db: Db, op: Op, w: Writes, fetched: Fetched)
    ensures !Statement(db, op, Length(op) - 1, w, fetched).Running?
  {
  }

  /** Every transaction has ended when its statements have run. */
  lemma StatementsEnd(db: Db, op: Op)
    ensures !Prefix(db, op, Length(op)).Running?
  {
    var p := Prefix(db, op, Length(op) - 1);
    if p.Running? { LastStatementEnds(db, op, p.writes, p.fetched); }
  }

  function Serial(db: Db, op: Op): (Db, Outcome) {
    StatementsEnd(db, op);
    match Prefix(db, op, Length(op))
    case Ready(w, outcome) => (Apply(db, w), outcome)
    case RolledBack(outcome) => (db, outcome)
  }

  /** A transaction that has ended stays ended, with the same answer. */
  lemma {:induction false} PrefixStuck(db: Db, op: Op, n: nat, m: nat)
    requires n <= m && !Prefix(db, op, n).Running?
    ensures Prefix(db, op, m) == Prefix(db, op, n)
    decreases m
  {
    if n < m {
      PrefixStuck(db, op, n, m - 1);
    }
  }
}
