/** The four tables of the service-account schema, one datatype per row, and the
    CHECK constraints the database puts on a row. A set of rows keyed by primary
    key is a `map`, so primary-key uniqueness is the shape of the type. */
module Tables {
  import opened Text

  datatype Option<+T> = None | Some(value: T)

  /** A timestamp, in ticks of the clock's resolution. */
  type Time = int

  const MAX_BIGINT: int := 0x7fff_ffff_ffff_ffff

  datatype AccountStatus = Active | Revoked

  datatype Account = Account(
    organization: string,
    subject: string,
    name: string,
    nameKey: string,
    status: AccountStatus,
    revision: int,
    createdAt: Time,
    rotatedAt: Option<Time>,
    revokedAt: Option<Time>)

  datatype Credential = Credential(
    account: string,
    verifier: string,
    validFrom: Time,
    validUntil: Time,
    createdAt: Time,
    supersededAt: Option<Time>,
    revokedAt: Option<Time>,
    lastUsedAt: Option<Time>)

  datatype Operation = CreateAccount | RotateSecret | RevokeAccount | ExchangeSecret

  datatype CommandKey = CommandKey(caller: string, operation: Operation, key: string)

  /** What a caller asked for. The stored intent hash is taken to be collision
      free, so the row keeps the hashed value itself. */
  datatype Intent =
    | CreateIntent(actor: string, organization: string, name: string)
    | RotateIntent(actor: string, organization: string, account: string, revision: string)
    | RevokeIntent(actor: string, organization: string, account: string, revision: string)
    | ExchangeIntent(secret: string)

  /** An account as the queries return it: the row and the expiry of its newest
      credential. */
  datatype AccountRow = AccountRow(
    id: string,
    organization: string,
    subject: string,
    name: string,
    status: AccountStatus,
    revision: int,
    createdAt: Time,
    rotatedAt: Option<Time>,
    revokedAt: Option<Time>,
    credentialExpiresAt: Option<Time>)

  /** A credential joined with its account. */
  datatype CredentialRow = CredentialRow(
    id: string,
    account: string,
    organization: string,
    subject: string,
    status: AccountStatus,
    verifier: string,
    validFrom: Time,
    validUntil: Time,
    revokedAt: Option<Time>)

  datatype ExchangeResponse = ExchangeResponse(
    account: string,
    organization: string,
    subject: string,
    session: string,
    token: string,
    expiresAt: Time)

  /** The plaintext of a command receipt. */
  datatype Body =
    | ChangeBody(account: AccountRow, changed: bool, secret: Option<string>)
    | ExchangeBody(response: ExchangeResponse)

  /** A receipt under an ideal AEAD: it opens only under the associated data it
      was sealed with. */
  datatype Sealed = Sealed(aad: string, body: Body)

  function Open(receipt: Sealed, aad: string): Option<Body> {
    if receipt.aad == aad then Some(receipt.body) else None
  }

  /** A command row's status together with the columns the table's CHECK ties to
      it: a receipt exactly on success, an error code exactly on failure, a
      completion time on both. */
  datatype CommandState =
    | Reserved
    | Verifying
    | Issuing
    | CompletedSuccess(receipt: Sealed, at: Time)
    | CompletedError(code: string, at: Time)
  {
    predicate Completable() { Reserved? || Verifying? || Issuing? }
  }

  datatype Command = Command(intent: Intent, state: CommandState)

  datatype Limit = Limit(windowStartedAt: Time, attempts: int, lockedUntil: Option<Time>)

  datatype Db = Db(
    accounts: map<string, Account>,
    credentials: map<string, Credential>,
    commands: map<CommandKey, Command>,
    limits: map<string, Limit>)

  const EmptyDb := Db(map[], map[], map[], map[])

  // CHECK constraints

  predicate AccountCheck(id: string, a: Account) {
    && 1 <= |id| <= 128
    && 1 <= |a.organization| <= 256
    && 1 <= |a.subject| <= 256
    && 1 <= |a.name| <= 128
    && 1 <= |a.nameKey| <= 128
    && a.name == TrimSpaces(a.name)
    && a.nameKey == Lower(a.name)
    && 0 < a.revision <= MAX_BIGINT
    && (a.status == Revoked <==> a.revokedAt.Some?)
  }

  predicate CredentialCheck(id: string, c: Credential) {
    && 1 <= |id| <= 128
    && 32 <= |c.verifier| <= 1024
    && c.validFrom <= c.validUntil
  }

  // Selections

  function AccountsOf(db: Db, organization: string): set<string> {
    set id | id in db.accounts && db.accounts[id].organization == organization
  }

  function AccountsWithSubject(db: Db, subject: string): set<string> {
    set id | id in db.accounts && db.accounts[id].subject == subject
  }

  function AccountsNamed(db: Db, organization: string, nameKey: string): set<string> {
    set id | id in db.accounts && db.accounts[id].organization == organization && db.accounts[id].nameKey == nameKey
  }

  function CredentialsOf(db: Db, account: string): map<string, Credential> {
    map c | c in db.credentials && db.credentials[c].account == account :: db.credentials[c]
  }

  // The newest credential of an account: latest creation, then largest id

  predicate Newer(i: string, a: Credential, j: string, b: Credential) {
    a.createdAt > b.createdAt || (a.createdAt == b.createdAt && Less(j, i))
  }

  predicate IsNewest(rows: map<string, Credential>, n: string) {
    n in rows && forall j :: j in rows ==> j == n || Newer(n, rows[n], j, rows[j])
  }

  lemma {:induction false} NewestExists(rows: map<string, Credential>)
    requires rows.Keys != {}
    ensures exists n :: IsNewest(rows, n)
    decreases |rows|
  {
    var x :| x in rows;
    var rest := rows - {x};
    assert rest.Keys == rows.Keys - {x};
    if rest.Keys == {} {
      assert forall j :: j in rows && j != x ==> j in rest.Keys;
      assert IsNewest(rows, x);
    } else {
      assert |rest.Keys| < |rows.Keys|;
      NewestExists(rest);
      var n :| IsNewest(rest, n);
      LessIsTotal(n, x);
      if Newer(n, rows[n], x, rows[x]) {
        assert forall j :: j in rows && j != x ==> j in rest;
        assert IsNewest(rows, n);
      } else {
        forall j | j in rows && j != x
          ensures Newer(x, rows[x], j, rows[j])
        {
          assert j in rest;
          if j != n && rows[n].createdAt == rows[j].createdAt == rows[x].createdAt {
            LessIsTransitive(j, n, x);
          }
        }
        assert IsNewest(rows, x);
      }
    }
  }

  lemma NewestIsUnique(rows: map<string, Credential>, m: string, n: string)
    requires IsNewest(rows, m) && IsNewest(rows, n)
    ensures m == n
  {
    if m != n {
      assert Newer(n, rows[n], m, rows[m]) && Newer(m, rows[m], n, rows[n]);
      if Less(m, n) {
        LessIsAsymmetric(m, n);
      }
    }
  }

  function NewestExpiry(rows: map<string, Credential>): (r: Option<Time>)
    ensures r.None? <==> rows.Keys == {}
    ensures r.Some? ==> exists n :: IsNewest(rows, n) && rows[n].validUntil == r.value
  {
    if rows.Keys == {} then None
    else
      NewestExists(rows);
      assert forall m, n :: IsNewest(rows, m) && IsNewest(rows, n) ==> m == n by {
        forall m, n | IsNewest(rows, m) && IsNewest(rows, n) ensures m == n {
          NewestIsUnique(rows, m, n);
        }
      }
      var n :| n in rows && IsNewest(rows, n);
      Some(rows[n].validUntil)
  }

  /** An account with its newest credential's expiry, as `load_account` and
      `lock_account` select it. */
  function LoadRow(db: Db, id: string): AccountRow
    requires id in db.accounts
  {
    var a := db.accounts[id];
    AccountRow(id, a.organization, a.subject, a.name, a.status, a.revision, a.createdAt, a.rotatedAt, a.revokedAt,
               NewestExpiry(CredentialsOf(db, id)))
  }
}
