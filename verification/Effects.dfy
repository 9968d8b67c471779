/** What each committed change leaves in the tables, field by field, and what the
    accounts look like at any point of a history, told from its entries alone. */
module Effects {
  import opened Text
  import opened Tables
  import opened Transactions
  import opened Atomic
  import opened Interleaving
  import opened Guarantees
  import opened Histories

  // Creation

  /** A creation adds one active account of revision 1 and one credential, valid from
      its reading for the configured lifetime, and changes nothing else. */
  lemma CreationIs(cfg: Limits, h: seq<Entry>, i: nat)
    requires Possible(cfg, h) && i < |h| && Effective(h[i]) && h[i].action.op.Create?
    ensures var op, db, t := h[i].action.op, At(h, i), At(h, i + 1);
            && op.account !in db.accounts && op.credential !in db.credentials
            && t.accounts == db.accounts[op.account :=
                 Account(op.organization, op.subject, op.name, op.nameKey, Active, 1, op.startedAt, None, None)]
            && t.credentials == db.credentials[op.credential :=
                 Credential(op.account, op.verifier, op.validFrom, op.validFrom + cfg.credentialTtl, op.startedAt, None, None, None)]
  {
    EffectiveIs(cfg, h, i);
  }

  // Rotation

  /** The credential a rotation leaves for one it finds: a live one is superseded and
      ends with the overlap unless it ended before; any other is as it was. */
  predicate CutTo(at: Time, until: Time, c: Credential, d: Credential) {
    if c.revokedAt.None? && at < c.validUntil then
      && d.revokedAt.None?
      && d.validUntil == (if c.validUntil <= until then c.validUntil else until)
      && d.supersededAt == (if c.supersededAt.Some? then c.supersededAt else Some(at))
      && d == c.(validUntil := d.validUntil, supersededAt := d.supersededAt)
    else d == c
  }

  /** A rotation adds one credential, valid from its reading for the configured
      lifetime, bounds the account's live ones, counts one revision, notes its reading,
      and changes nothing else. */
  lemma RotationIs(cfg: Limits, h: seq<Entry>, i: nat)
    requires Possible(cfg, h) && i < |h| && Effective(h[i]) && h[i].action.op.Rotate?
    ensures var op, db, t := h[i].action.op, At(h, i), At(h, i + 1);
            && op.account in db.accounts && db.accounts[op.account].status == Active
            && db.accounts[op.account].revision == op.expectedRevision
            && t.accounts == db.accounts[op.account :=
                 db.accounts[op.account].(revision := op.expectedRevision + 1, rotatedAt := Some(op.validFrom))]
            && op.credential !in db.credentials && t.credentials.Keys == db.credentials.Keys + {op.credential}
            && t.credentials[op.credential] ==
                 Credential(op.account, op.verifier, op.validFrom, op.validFrom + cfg.credentialTtl, op.startedAt, None, None, None)
            && (forall c :: c in db.credentials ==>
                  if db.credentials[c].account == op.account
                  then CutTo(op.validFrom, op.validFrom + cfg.rotationOverlap, db.credentials[c], t.credentials[c])
                  else t.credentials[c] == db.credentials[c])
  {
    EffectiveIs(cfg, h, i);
    var op, db := h[i].action.op, At(h, i);
    assert ConfiguredAction(cfg, h[i].action);
    forall c | c in db.credentials && db.credentials[c].account == op.account
      ensures CutTo(op.validFrom, op.validFrom + cfg.rotationOverlap, db.credentials[c], At(h, i + 1).credentials[c]) {
    }
  }

  // Revocation

  /** The credential a revocation leaves: revoked, and over at its reading unless it
      was over before or had not begun. */
  predicate WithdrawnTo(at: Time, c: Credential, d: Credential) {
    && d.revokedAt == (if c.revokedAt.Some? then c.revokedAt else Some(at))
    && d.validUntil == (if c.validUntil <= at then c.validUntil else if c.validFrom <= at then at else c.validFrom)
    && d == c.(validUntil := d.validUntil, revokedAt := d.revokedAt)
  }

  lemma RevokedRows(cfg: Limits, db: Db, op: Op, t: Db, c: string)
    requires TablesInv(cfg, db) && op.Revoke? && Revokes(db, op) && SameRows(t, RevokedTables(db, op)) && c in db.credentials
    ensures c in t.credentials
    ensures if db.credentials[c].account == op.account
            then t.credentials[c].revokedAt == Some(op.revokedAt) && WithdrawnTo(op.revokedAt, db.credentials[c], t.credentials[c])
            else t.credentials[c] == db.credentials[c]
  {
    if db.credentials[c].account == op.account {
      CredentialsAreLive(cfg, db, op.account, c);
      WithdrawnRow(op.revokedAt, db.credentials[c]);
    }
  }

  /** A revocation revokes every credential of the account, counts one revision, notes
      its reading, and changes nothing else. */
  lemma RevocationIs(cfg: Limits, h: seq<Entry>, i: nat)
    requires Possible(cfg, h) && i < |h| && Effective(h[i]) && h[i].action.op.Revoke?
    ensures var op, db, t := h[i].action.op, At(h, i), At(h, i + 1);
            && op.account in db.accounts && db.accounts[op.account].status == Active
            && db.accounts[op.account].revision == op.expectedRevision
            && t.accounts == db.accounts[op.account :=
                 db.accounts[op.account].(status := AccountStatus.Revoked, revision := op.expectedRevision + 1, revokedAt := Some(op.revokedAt))]
            && t.credentials.Keys == db.credentials.Keys
            && (forall c :: c in db.credentials ==>
                  if db.credentials[c].account == op.account
                  then t.credentials[c].revokedAt == Some(op.revokedAt) && WithdrawnTo(op.revokedAt, db.credentials[c], t.credentials[c])
                  else t.credentials[c] == db.credentials[c])
  {
    EffectiveIs(cfg, h, i);
    TablesAt(cfg, h, i);
    RevokedTablesAre(cfg, At(h, i), h[i].action.op, At(h, i + 1));
  }

  lemma RevokedTablesAre(cfg: Limits, db: Db, op: Op, t: Db)
    requires TablesInv(cfg, db) && op.Revoke? && Revokes(db, op) && SameRows(t, RevokedTables(db, op))
    ensures t.credentials.Keys == db.credentials.Keys
    ensures forall c :: c in db.credentials ==>
              if db.credentials[c].account == op.account
              then t.credentials[c].revokedAt == Some(op.revokedAt) && WithdrawnTo(op.revokedAt, db.credentials[c], t.credentials[c])
              else t.credentials[c] == db.credentials[c]
  {
    assert t.credentials.Keys == db.credentials.Keys;
    forall c | c in db.credentials
      ensures if db.credentials[c].account == op.account
              then t.credentials[c].revokedAt == Some(op.revokedAt) && WithdrawnTo(op.revokedAt, db.credentials[c], t.credentials[c])
              else t.credentials[c] == db.credentials[c] {
      RevokedRows(cfg, db, op, t, c);
    }
  }

  lemma CredentialsAreLive(cfg: Limits, db: Db, x: string, c: string)
    requires TablesInv(cfg, db) && x in db.accounts && db.accounts[x].status == Active
    requires c in db.credentials && db.credentials[c].account == x
    ensures db.credentials[c].revokedAt.None? && db.credentials[c].validFrom <= db.credentials[c].validUntil
  {
    assert AccountRowsInv(cfg, db, x);
    assert c in CredentialsOf(db, x);
    assert CredentialInv(db, c);
  }

  lemma WithdrawnRow(at: Time, c: Credential)
    requires c.revokedAt.None? && c.validFrom <= c.validUntil
    ensures WithdrawnTo(at, c, Withdraw(c, at))
  {
  }

  // Admission, and everything else

  /** An admission notes its reading as the credential's last use; every other entry
      leaves accounts and credentials alone. */
  lemma OtherwiseUnchanged(cfg: Limits, h: seq<Entry>, i: nat)
    requires Possible(cfg, h) && i < |h| && !Effective(h[i])
    ensures var db, t := At(h, i), At(h, i + 1);
            && t.accounts == db.accounts
            && (!IsAdmission(h[i]) ==> t.credentials == db.credentials)
            && (IsAdmission(h[i]) ==>
                  var op := h[i].action.op;
                  op.credential in db.credentials
                  && t.credentials == db.credentials[op.credential := db.credentials[op.credential].(lastUsedAt := Some(op.now))])
  {
    EntryAt(cfg, h, i);
    IneffectiveKeepsRows(At(h, i), h[i].action);
  }

  lemma IneffectiveKeepsRows(db: Db, a: Action)
    requires !Effective(Entry(a, Perform(db, a).1))
    ensures var t, r := Perform(db, a).0, Perform(db, a).1;
            && t.accounts == db.accounts
            && (!IsAdmission(Entry(a, r)) ==> t.credentials == db.credentials)
            && (IsAdmission(Entry(a, r)) ==>
                  a.op.credential in db.credentials
                  && t.credentials == db.credentials[a.op.credential := db.credentials[a.op.credential].(lastUsedAt := Some(a.op.now))])
  {
    if a.Transact? {
      StatementsCompose(db, a.op);
      IneffectiveAlone(db, a.op);
    }
  }

  lemma IneffectiveAlone(db: Db, op: Op)
    requires !(Alone(db, op).1.Changed? && Alone(db, op).1.changed)
    ensures var t, r := Alone(db, op).0, Alone(db, op).1;
            && t.accounts == db.accounts
            && (!(op.Admit? && r.Admitted?) ==> t.credentials == db.credentials)
            && (op.Admit? && r.Admitted? ==>
                  op.credential in db.credentials
                  && t.credentials == db.credentials[op.credential := db.credentials[op.credential].(lastUsedAt := Some(op.now))])
  {
  }

  // Where credentials come from

  predicate Inserts(e: Entry, c: string) {
    Effective(e) && (e.action.op.Create? || e.action.op.Rotate?) && e.action.op.credential == c
  }

  predicate InsertedAs(e: Entry, c: string, row: Credential) {
    && Inserts(e, c) && row.account == e.action.op.account && row.verifier == e.action.op.verifier
    && row.validFrom == e.action.op.validFrom && row.createdAt == e.action.op.startedAt
  }

  lemma OriginStays(cfg: Limits, h: seq<Entry>, i: nat, c: string)
    requires Possible(cfg, h) && i < |h| && c in At(h, i).credentials
    ensures c in At(h, i + 1).credentials
    ensures var a, b := At(h, i).credentials[c], At(h, i + 1).credentials[c];
            a.account == b.account && a.verifier == b.verifier && a.validFrom == b.validFrom && a.createdAt == b.createdAt
  {
    EntryMovesForward(cfg, h, i);
    assert CredentialLater(At(h, i).credentials[c], At(h, i + 1).credentials[c]);
  }

  lemma NewCredentialsAreInserted(cfg: Limits, h: seq<Entry>, i: nat, c: string)
    requires Possible(cfg, h) && i < |h| && c in At(h, i + 1).credentials && c !in At(h, i).credentials
    ensures InsertedAs(h[i], c, At(h, i + 1).credentials[c])
  {
    if !Effective(h[i]) {
      OtherwiseUnchanged(cfg, h, i);
    } else {
      EffectiveIs(cfg, h, i);
    }
  }

  lemma NothingAtFirst(h: seq<Entry>)
    ensures At(h, 0) == EmptyDb
  {
  }

  /** Every credential was stored by an effective creation or rotation, with that
      change's account, verifier and reading. */
  lemma {:induction false} CredentialOrigin(cfg: Limits, h: seq<Entry>, n: nat, c: string)
    requires Possible(cfg, h) && n <= |h| && c in At(h, n).credentials
    ensures exists i :: 0 <= i < n && InsertedAs(h[i], c, At(h, n).credentials[c])
    decreases n
  {
    NothingAtFirst(h);
    if c in At(h, n - 1).credentials {
      CredentialOrigin(cfg, h, n - 1, c);
      OriginStays(cfg, h, n - 1, c);
      var i :| 0 <= i < n - 1 && InsertedAs(h[i], c, At(h, n - 1).credentials[c]);
      assert InsertedAs(h[i], c, At(h, n).credentials[c]);
    } else {
      NewCredentialsAreInserted(cfg, h, n - 1, c);
    }
  }

  // The accounts, told from the entries

  datatype Told = Told(
    organization: string, subject: string, name: string, status: AccountStatus, revision: int,
    createdAt: Time, rotatedAt: Option<Time>, revokedAt: Option<Time>)

  /** An account after its effective creation, rotations and revocation. */
  function Story(h: seq<Entry>, x: string): Option<Told> {
    if h == [] then None
    else
      var before, last := Story(h[..|h| - 1], x), h[|h| - 1];
      if !Effective(last) || last.action.op.account != x then before
      else
        var op := last.action.op;
        if op.Create? then Some(Told(op.organization, op.subject, op.name, Active, 1, op.startedAt, None, None))
        else if before.None? then None
        else if op.Rotate? then Some(before.value.(revision := op.expectedRevision + 1, rotatedAt := Some(op.validFrom)))
        else if op.Revoke? then
          Some(before.value.(status := AccountStatus.Revoked, revision := op.expectedRevision + 1, revokedAt := Some(op.revokedAt)))
        else before
  }

  predicate TellsAccount(told: Told, a: Account) {
    && a.organization == told.organization && a.subject == told.subject && a.name == told.name
    && a.status == told.status && a.revision == told.revision && a.createdAt == told.createdAt
    && a.rotatedAt == told.rotatedAt && a.revokedAt == told.revokedAt
  }

  predicate TellsTables(h: seq<Entry>, n: nat, x: string)
    requires n <= |h|
  {
    && (x in At(h, n).accounts <==> Story(h[..n], x).Some?)
    && (x in At(h, n).accounts ==> TellsAccount(Story(h[..n], x).value, At(h, n).accounts[x]))
  }

  lemma OneMoreChange(cfg: Limits, h: seq<Entry>, i: nat, x: string)
    requires Possible(cfg, h) && i < |h| && TellsTables(h, i, x)
    ensures TellsTables(h, i + 1, x)
  {
    assert h[..i + 1][..i] == h[..i];
    if !Effective(h[i]) {
      OtherwiseUnchanged(cfg, h, i);
    } else {
      EffectiveIs(cfg, h, i);
      if h[i].action.op.Create? { CreationIs(cfg, h, i); }
      else if h[i].action.op.Rotate? { RotationIs(cfg, h, i); }
      else { RevocationIs(cfg, h, i); }
    }
  }

  /** At every point of a history the accounts are those its entries tell. */
  lemma {:induction false} AccountsAreTold(cfg: Limits, h: seq<Entry>, n: nat, x: string)
    requires Possible(cfg, h) && n <= |h|
    ensures TellsTables(h, n, x)
    decreases n
  {
    if n == 0 {
      assert h[..0] == [];
    } else {
      AccountsAreTold(cfg, h, n - 1, x);
      OneMoreChange(cfg, h, n - 1, x);
    }
  }

  // Account rows, as answers and listings carry them

  /** The row of an account: its id, its fields, and the expiry of the credential
      created last, the larger id deciding between equals. */
  ghost predicate RowOf(row: AccountRow, id: string, told: Told, rows: map<string, Credential>) {
    && row.id == id && row.organization == told.organization && row.subject == told.subject && row.name == told.name
    && row.status == told.status && row.revision == told.revision && row.createdAt == told.createdAt
    && row.rotatedAt == told.rotatedAt && row.revokedAt == told.revokedAt
    && (row.credentialExpiresAt.None? <==> rows.Keys == {})
    && (row.credentialExpiresAt.Some? ==> exists n :: LastCreated(rows, n) && rows[n].validUntil == row.credentialExpiresAt.value)
  }

  predicate LastCreated(rows: map<string, Credential>, n: string) {
    n in rows && forall c :: c in rows && c != n ==>
      rows[c].createdAt < rows[n].createdAt || (rows[c].createdAt == rows[n].createdAt && Less(c, n))
  }

  /** A row shows the account as the table has it, field by field. */
  ghost predicate Shows(db: Db, row: AccountRow) {
    && row.id in db.accounts
    && var a := db.accounts[row.id];
       RowOf(row, row.id, Told(a.organization, a.subject, a.name, a.status, a.revision, a.createdAt, a.rotatedAt, a.revokedAt),
             CredentialsOf(db, row.id))
  }

  lemma LoadedShows(db: Db, x: string)
    requires x in db.accounts
    ensures Shows(db, LoadRow(db, x)) && LoadRow(db, x).id == x
  {
    var a := db.accounts[x];
    LoadedRow(db, x, Told(a.organization, a.subject, a.name, a.status, a.revision, a.createdAt, a.rotatedAt, a.revokedAt));
  }

  lemma LoadedRow(db: Db, x: string, told: Told)
    requires x in db.accounts && TellsAccount(told, db.accounts[x])
    ensures RowOf(LoadRow(db, x), x, told, CredentialsOf(db, x))
  {
    var rows := CredentialsOf(db, x);
    var expiry := NewestExpiry(rows);
    if expiry.Some? {
      var n :| IsNewest(rows, n) && rows[n].validUntil == expiry.value;
      assert LastCreated(rows, n) by {
        forall c | c in rows && c != n
          ensures rows[c].createdAt < rows[n].createdAt || (rows[c].createdAt == rows[n].createdAt && Less(c, n)) {
          assert Newer(n, rows[n], c, rows[c]);
        }
      }
    }
  }

  /** Every row the queries load, at any point of a history, is the account the entries
      tell. */
  lemma RowsAreTold(cfg: Limits, h: seq<Entry>, n: nat, x: string)
    requires Possible(cfg, h) && n <= |h| && x in At(h, n).accounts
    ensures Story(h[..n], x).Some? && RowOf(LoadRow(At(h, n), x), x, Story(h[..n], x).value, CredentialsOf(At(h, n), x))
  {
    AccountsAreTold(cfg, h, n, x);
    LoadedRow(At(h, n), x, Story(h[..n], x).value);
  }

  lemma SameLoad(db: Db, t: Db, x: string)
    requires SameRows(db, t) && x in db.accounts
    ensures LoadRow(db, x) == LoadRow(t, x)
  {
    SameRowsSameCredentials(db, t, x);
  }

  lemma ReturnedIsLoaded(db: Db, op: Op)
    requires Alone(db, op).1.Changed?
    ensures op.account in Alone(db, op).0.accounts && Alone(db, op).1.row == LoadRow(Alone(db, op).0, op.account)
  {
    var t := Alone(db, op).0;
    match op
    case Create(_, _, _, _, _, _, _, _, _, _, _, _, _) => SameLoad(CreatedTables(db, op), t, op.account);
    case Rotate(_, _, _, _, _, _, _, _, _, _, _) => SameLoad(RotatedTables(db, op), t, op.account);
    case Revoke(_, _, _, _, _, _, _) =>
      if Alone(db, op).1.changed { SameLoad(RevokedTables(db, op), t, op.account); } else { SameLoad(db, t, op.account); }
    case Admit(_, _, _, _, _) =>
  }

  predicate Returns(e: Entry) {
    e.action.Transact? && e.result.Transacted? && e.result.outcome.Changed?
  }

  /** The row a committed create, rotate or revoke answers with is its account as the
      entries tell it, this one included. */
  lemma ReturnedRowIsTold(cfg: Limits, h: seq<Entry>, i: nat)
    requires Possible(cfg, h) && i < |h| && Returns(h[i])
    ensures var x := h[i].action.op.account;
            && Story(h[..i + 1], x).Some?
            && RowOf(h[i].result.outcome.row, x, Story(h[..i + 1], x).value, CredentialsOf(At(h, i + 1), x))
  {
    EntryAt(cfg, h, i);
    StatementsCompose(At(h, i), h[i].action.op);
    ReturnedIsLoaded(At(h, i), h[i].action.op);
    RowsAreTold(cfg, h, i + 1, h[i].action.op.account);
  }

  /** The row an effective change answers with, in terms of its arguments. */
  predicate ShowsChange(cfg: Limits, op: Op, row: AccountRow) {
    && !op.Admit? && row.id == op.account
    && (op.Create? ==>
          && row.organization == op.organization && row.subject == op.subject && row.name == op.name
          && row.status == Active && row.revision == 1 && row.createdAt == op.startedAt
          && row.rotatedAt == None && row.revokedAt == None
          && row.credentialExpiresAt == Some(op.validFrom + cfg.credentialTtl))
    && (op.Rotate? ==>
          && row.status == Active && row.revision == op.expectedRevision + 1
          && row.rotatedAt == Some(op.validFrom) && row.revokedAt == None)
    && (op.Revoke? ==>
          && row.status == AccountStatus.Revoked && row.revision == op.expectedRevision + 1
          && row.revokedAt == Some(op.revokedAt))
  }

  /** In numbers: what a creation, a rotation and a revocation answer. */
  lemma ReturnedFields(cfg: Limits, h: seq<Entry>, i: nat)
    requires Possible(cfg, h) && i < |h| && Effective(h[i])
    ensures var op, row, db := h[i].action.op, h[i].result.outcome.row, At(h, i);
            && ShowsChange(cfg, op, row)
            && (op.Revoke? ==> op.account in db.accounts && row.rotatedAt == db.accounts[op.account].rotatedAt)
  {
    var op := h[i].action.op;
    assert h[..i + 1][..i] == h[..i];
    ReturnedRowIsTold(cfg, h, i);
    EffectiveIs(cfg, h, i);
    AccountsAreTold(cfg, h, i, op.account);
    TablesAt(cfg, h, i);
    if op.account in At(h, i).accounts { assert AccountRowsInv(cfg, At(h, i), op.account); }
    if op.Create? { CreatedExpiry(cfg, h, i); }
  }

  /** The expiry a creation answers with is its credential's; so is a rotation's, if it
      started later than the account's other credentials were created. */
  lemma ReturnedExpiry(cfg: Limits, h: seq<Entry>, i: nat)
    requires Possible(cfg, h) && i < |h| && Effective(h[i]) && (h[i].action.op.Create? || h[i].action.op.Rotate?)
    requires forall c :: c in At(h, i).credentials && At(h, i).credentials[c].account == h[i].action.op.account ==>
               At(h, i).credentials[c].createdAt < h[i].action.op.startedAt
    ensures h[i].result.outcome.row.credentialExpiresAt == Some(h[i].action.op.validFrom + cfg.credentialTtl)
  {
    var op := h[i].action.op;
    EffectiveIs(cfg, h, i);
    ReturnedRowIsTold(cfg, h, i);
    var rows := CredentialsOf(At(h, i + 1), op.account);
    if op.Create? { CreationIs(cfg, h, i); } else { RotationIs(cfg, h, i); }
    assert op.credential in rows;
    NewestIsOwn(cfg, h, i, rows);
  }

  /** A new account's expiry is always that of its one credential. */
  lemma CreatedExpiry(cfg: Limits, h: seq<Entry>, i: nat)
    requires Possible(cfg, h) && i < |h| && Effective(h[i]) && h[i].action.op.Create?
    ensures h[i].result.outcome.row.credentialExpiresAt == Some(h[i].action.op.validFrom + cfg.credentialTtl)
  {
    CreationIs(cfg, h, i);
    TablesAt(cfg, h, i);
    forall c | c in At(h, i).credentials ensures At(h, i).credentials[c].account != h[i].action.op.account {
      assert CredentialInv(At(h, i), c);
    }
    ReturnedExpiry(cfg, h, i);
  }

  lemma NewestIsOwn(cfg: Limits, h: seq<Entry>, i: nat, rows: map<string, Credential>)
    requires Possible(cfg, h) && i < |h| && Effective(h[i]) && (h[i].action.op.Create? || h[i].action.op.Rotate?)
    requires rows == CredentialsOf(At(h, i + 1), h[i].action.op.account) && h[i].action.op.credential in rows
    requires rows[h[i].action.op.credential].createdAt == h[i].action.op.startedAt
    requires forall c :: c in At(h, i).credentials && At(h, i).credentials[c].account == h[i].action.op.account ==>
               At(h, i).credentials[c].createdAt < h[i].action.op.startedAt
    ensures forall n :: LastCreated(rows, n) ==> n == h[i].action.op.credential
  {
    var own := h[i].action.op.credential;
    forall n | LastCreated(rows, n) ensures n == own {
      if n != own {
        if n in At(h, i).credentials {
          OriginStays(cfg, h, i, n);
        } else {
          NewCredentialsAreInserted(cfg, h, i, n);
        }
      }
    }
  }
}
