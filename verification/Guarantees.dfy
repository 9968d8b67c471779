/** What every history of actions keeps true of the tables, and what can happen at
    most once in any history, however often requests are repeated and receipts are
    pruned. */
module Guarantees {
  import opened Tables
  import opened Transactions
  import opened Atomic
  import opened Interleaving

  /** The numeric part of the plugin configuration, its durations in clock ticks. */
  datatype Limits = Limits(
    ticksPerSecond: int,
    credentialTtl: int,
    rotationOverlap: int,
    tokenTtl: int,
    exchangeWindow: int,
    maxExchanges: int,
    exchangeLockout: int,
    maxPageSize: int,
    maxAccounts: int)
  {
    predicate Valid() {
      && 1 <= ticksPerSecond
      && 300 * ticksPerSecond <= credentialTtl <= 31_536_000 * ticksPerSecond
      && 0 <= rotationOverlap <= 3_600 * ticksPerSecond
      && rotationOverlap < credentialTtl
      && ticksPerSecond <= tokenTtl <= 86_400 * ticksPerSecond
      && tokenTtl <= credentialTtl
      && ticksPerSecond <= exchangeWindow <= 3_600 * ticksPerSecond
      && 1 <= maxExchanges <= 10_000
      && ticksPerSecond <= exchangeLockout <= 86_400 * ticksPerSecond
      && 1 <= maxPageSize <= 200
      && 1 <= maxAccounts <= 10_000
    }
  }

  /** The arguments the workers compute from the configuration and one clock reading. */
  predicate Configured(cfg: Limits, op: Op) {
    match op
    case Create(_, max, _, _, _, _, _, _, _, from, until, _, _) =>
      max == cfg.maxAccounts && until == from + cfg.credentialTtl
    case Rotate(_, _, _, _, _, _, from, overlap, until, _, _) =>
      overlap == from + cfg.rotationOverlap && until == from + cfg.credentialTtl
    case _ => true
  }

  predicate ConfiguredAction(cfg: Limits, a: Action) {
    && (a.Transact? ==> Configured(cfg, a.op))
    && (a.TakeSlot? ==> a.window == cfg.exchangeWindow && a.max == cfg.maxExchanges && a.lockout == cfg.exchangeLockout)
  }

  // The invariant

  predicate CredentialBounds(cfg: Limits, c: Credential) {
    && c.validFrom <= c.validUntil <= c.validFrom + cfg.credentialTtl
    && (c.supersededAt.Some? ==> c.validUntil <= c.supersededAt.value + cfg.rotationOverlap)
  }

  /** Out of use once the overlap after `rotatedAt` has passed. */
  predicate PhasedOut(cfg: Limits, c: Credential, rotatedAt: Time) {
    c.revokedAt.Some? || c.validUntil <= rotatedAt + cfg.rotationOverlap
  }

  /** The credential of the last rotation, which started with it and was not
      superseded since, is the only one that may outlive its overlap. */
  predicate OnlyNewestSurvives(cfg: Limits, rows: map<string, Credential>, newest: string, rotatedAt: Time) {
    && newest in rows && rows[newest].validFrom == rotatedAt && rows[newest].supersededAt.None?
    && forall c :: c in rows && c != newest ==> PhasedOut(cfg, rows[c], rotatedAt)
  }

  /** One account with its credentials. The revision counts credentials, plus one
      for the revocation; status and credentials agree about being revoked. */
  ghost predicate AccountInv(cfg: Limits, a: Account, rows: map<string, Credential>) {
    && a.revision == |rows| + (if a.status == Active then 0 else 1)
    && rows.Keys != {}
    && (forall c :: c in rows ==> CredentialBounds(cfg, rows[c]))
    && (forall c :: c in rows ==> (rows[c].revokedAt.Some? <==> a.status == AccountStatus.Revoked))
    && (a.rotatedAt.Some? ==> exists n :: OnlyNewestSurvives(cfg, rows, n, a.rotatedAt.value))
  }

  ghost predicate AccountRowsInv(cfg: Limits, db: Db, x: string)
    requires x in db.accounts
  {
    AccountCheck(x, db.accounts[x]) && AccountInv(cfg, db.accounts[x], CredentialsOf(db, x))
  }

  predicate CredentialInv(db: Db, c: string)
    requires c in db.credentials
  {
    CredentialCheck(c, db.credentials[c]) && db.credentials[c].account in db.accounts
  }

  /** The unique constraints, and the cap on accounts per organization. */
  ghost predicate KeysInv(cfg: Limits, db: Db) {
    && (forall x :: x in db.accounts ==> AccountsWithSubject(db, db.accounts[x].subject) == {x})
    && (forall x :: x in db.accounts ==> AccountsNamed(db, db.accounts[x].organization, db.accounts[x].nameKey) == {x})
    && (forall o :: |AccountsOf(db, o)| <= cfg.maxAccounts)
  }

  ghost predicate AccountsInv(cfg: Limits, db: Db) {
    forall x :: x in db.accounts ==> AccountRowsInv(cfg, db, x)
  }

  predicate CredentialsInv(db: Db) {
    forall c :: c in db.credentials ==> CredentialInv(db, c)
  }

  ghost predicate TablesInv(cfg: Limits, db: Db) {
    AccountsInv(cfg, db) && CredentialsInv(db) && KeysInv(cfg, db)
  }

  /** The rows that matter to the invariant are those of `t`. */
  predicate SameRows(db: Db, t: Db) {
    db.accounts == t.accounts && db.credentials == t.credentials
  }

  // When a transaction changes anything, and what its account's credentials become

  predicate Creates(db: Db, op: Op)
    requires op.Create?
  {
    && |AccountsOf(db, op.organization)| < op.maxAccounts
    && AccountCheck(op.account, NewAccount(op)) && op.account !in db.accounts
    && AccountsWithSubject(db, op.subject) == {} && AccountsNamed(db, op.organization, op.nameKey) == {}
    && InsertFailure(db, op) == None
  }

  predicate Rotates(db: Db, op: Op)
    requires op.Rotate?
  {
    && op.account in db.accounts && db.accounts[op.account].status == Active
    && db.accounts[op.account].revision == op.expectedRevision < MAX_BIGINT
    && (forall c :: c in BoundRows(db, op) ==> CredentialCheck(c, BoundRows(db, op)[c]))
    && InsertFailure(db, op) == None
  }

  predicate Revokes(db: Db, op: Op)
    requires op.Revoke?
  {
    && op.account in db.accounts && db.accounts[op.account].status == Active
    && db.accounts[op.account].revision == op.expectedRevision < MAX_BIGINT
  }

  predicate Uses(db: Db, op: Op, t: Db)
    requires op.Admit?
  {
    && Admissible(db, op)
    && t.accounts == db.accounts
    && t.credentials == db.credentials[op.credential := db.credentials[op.credential].(lastUsedAt := Some(op.now))]
  }

  lemma CreateOutcome(db: Db, op: Op)
    requires op.Create?
    ensures SameRows(CreateAlone(db, op).0, db) || (Creates(db, op) && SameRows(CreateAlone(db, op).0, CreatedTables(db, op)))
    ensures CreateAlone(db, op).1.Changed? ==> Creates(db, op) && SameRows(CreateAlone(db, op).0, CreatedTables(db, op))
  {
  }

  lemma RotateOutcome(db: Db, op: Op)
    requires op.Rotate?
    ensures SameRows(RotateAlone(db, op).0, db) || (Rotates(db, op) && SameRows(RotateAlone(db, op).0, RotatedTables(db, op)))
    ensures RotateAlone(db, op).1.Changed? ==> Rotates(db, op) && SameRows(RotateAlone(db, op).0, RotatedTables(db, op))
  {
  }

  lemma RevokeOutcome(db: Db, op: Op)
    requires op.Revoke?
    ensures SameRows(RevokeAlone(db, op).0, db) || (Revokes(db, op) && SameRows(RevokeAlone(db, op).0, RevokedTables(db, op)))
    ensures RevokeAlone(db, op).1.Changed? && RevokeAlone(db, op).1.changed ==>
              Revokes(db, op) && SameRows(RevokeAlone(db, op).0, RevokedTables(db, op))
  {
  }

  lemma AdmitOutcome(db: Db, op: Op)
    requires op.Admit?
    ensures SameRows(AdmitAlone(db, op).0, db) || Uses(db, op, AdmitAlone(db, op).0)
    ensures AdmitAlone(db, op).1.Admitted? ==>
              && Uses(db, op, AdmitAlone(db, op).0)
              && AdmitAlone(db, op).1.credential
                   == JoinCredential(op.credential, db.credentials[op.credential], db.accounts[op.account])
  {
  }

  function Cap(rows: map<string, Credential>, op: Op): map<string, Credential>
    requires op.Rotate?
  {
    map c | c in rows :: if Live(rows[c], op.validFrom) then Bound(rows[c], op.validFrom, op.overlapUntil) else rows[c]
  }

  function WithdrawAll(rows: map<string, Credential>, at: Time): map<string, Credential> {
    map c | c in rows :: Withdraw(rows[c], at)
  }

  lemma CreateRows(db: Db, op: Op)
    requires op.Create? && op.credential !in db.credentials
    requires forall c :: c in db.credentials ==> db.credentials[c].account != op.account
    ensures CredentialsOf(CreatedTables(db, op), op.account) == map[op.credential := NewCredential(op)]
    ensures forall x :: x != op.account ==> CredentialsOf(CreatedTables(db, op), x) == CredentialsOf(db, x)
  {
  }

  lemma RotateRowsOf(db: Db, op: Op, x: string)
    requires op.Rotate? && op.credential !in db.credentials && op.account in db.accounts && x != op.account
    ensures CredentialsOf(RotatedTables(db, op), x) == CredentialsOf(db, x)
  {
  }

  lemma RotateOwnRows(db: Db, op: Op)
    requires op.Rotate? && op.credential !in db.credentials && op.account in db.accounts
    ensures CredentialsOf(RotatedTables(db, op), op.account)
              == Cap(CredentialsOf(db, op.account), op)[op.credential := NewCredential(op)]
  {
  }

  lemma RevokeRows(db: Db, op: Op)
    requires op.Revoke? && op.account in db.accounts
    ensures CredentialsOf(RevokedTables(db, op), op.account) == WithdrawAll(CredentialsOf(db, op.account), op.revokedAt)
    ensures forall x :: x != op.account ==> CredentialsOf(RevokedTables(db, op), x) == CredentialsOf(db, x)
  {
  }

  lemma AdmitRows(db: Db, op: Op, t: Db)
    requires op.Admit? && Uses(db, op, t)
    ensures op.credential in CredentialsOf(db, op.account)
    ensures CredentialsOf(t, op.account)
      == CredentialsOf(db, op.account)[op.credential := db.credentials[op.credential].(lastUsedAt := Some(op.now))]
    ensures forall x :: x != op.account ==> CredentialsOf(t, x) == CredentialsOf(db, x)
  {
  }

  // Each change keeps the invariant of its account

  lemma CreateAccountInv(cfg: Limits, op: Op)
    requires cfg.Valid() && op.Create? && Configured(cfg, op) && CredentialCheck(op.credential, NewCredential(op))
    ensures AccountInv(cfg, NewAccount(op), map[op.credential := NewCredential(op)])
  {
    assert (map[op.credential := NewCredential(op)]).Keys == {op.credential};
  }

  lemma CappedRowInv(cfg: Limits, op: Op, id: string, c: Credential)
    requires cfg.Valid() && op.Rotate? && Configured(cfg, op) && CredentialBounds(cfg, c) && c.revokedAt.None?
    requires Live(c, op.validFrom) ==> CredentialCheck(id, Bound(c, op.validFrom, op.overlapUntil))
    ensures var d := if Live(c, op.validFrom) then Bound(c, op.validFrom, op.overlapUntil) else c;
            CredentialBounds(cfg, d) && d.revokedAt.None? && PhasedOut(cfg, d, op.validFrom)
  {
  }

  lemma RotateAccountInv(cfg: Limits, op: Op, a: Account, rows: map<string, Credential>)
    requires cfg.Valid() && op.Rotate? && Configured(cfg, op) && AccountInv(cfg, a, rows) && a.status == Active
    requires op.credential !in rows && CredentialCheck(op.credential, NewCredential(op))
    requires forall c :: c in rows && Live(rows[c], op.validFrom) ==>
               CredentialCheck(c, Bound(rows[c], op.validFrom, op.overlapUntil))
    ensures AccountInv(cfg, Rotated(a, op.validFrom), Cap(rows, op)[op.credential := NewCredential(op)])
  {
    var rows' := Cap(rows, op)[op.credential := NewCredential(op)];
    assert rows'.Keys == rows.Keys + {op.credential};
    forall c | c in rows
      ensures CredentialBounds(cfg, rows'[c]) && rows'[c].revokedAt.None? && PhasedOut(cfg, rows'[c], op.validFrom) {
      CappedRowInv(cfg, op, c, rows[c]);
    }
    assert OnlyNewestSurvives(cfg, rows', op.credential, op.validFrom);
  }

  lemma RevokeAccountInv(cfg: Limits, a: Account, rows: map<string, Credential>, at: Time)
    requires cfg.Valid() && AccountInv(cfg, a, rows) && a.status == Active
    ensures AccountInv(cfg, Withdrawn(a, at), WithdrawAll(rows, at))
  {
    var rows' := WithdrawAll(rows, at);
    assert rows'.Keys == rows.Keys;
    if a.rotatedAt.Some? {
      var n :| OnlyNewestSurvives(cfg, rows, n, a.rotatedAt.value);
      assert OnlyNewestSurvives(cfg, rows', n, a.rotatedAt.value);
    }
  }

  lemma AdmitAccountInv(cfg: Limits, a: Account, rows: map<string, Credential>, c: string, at: Time)
    requires AccountInv(cfg, a, rows) && c in rows
    ensures AccountInv(cfg, a, rows[c := rows[c].(lastUsedAt := Some(at))])
  {
    var rows' := rows[c := rows[c].(lastUsedAt := Some(at))];
    assert rows'.Keys == rows.Keys;
    if a.rotatedAt.Some? {
      var n :| OnlyNewestSurvives(cfg, rows, n, a.rotatedAt.value);
      assert OnlyNewestSurvives(cfg, rows', n, a.rotatedAt.value);
    }
  }

  /** An account nobody touched keeps its invariant. */
  lemma OtherAccount(cfg: Limits, db: Db, t: Db, x: string)
    requires x in db.accounts && AccountRowsInv(cfg, db, x)
    requires x in t.accounts && t.accounts[x] == db.accounts[x] && CredentialsOf(t, x) == CredentialsOf(db, x)
    ensures AccountRowsInv(cfg, t, x)
  {
  }

  lemma SameRowsSameCredentials(db: Db, t: Db, x: string)
    requires SameRows(db, t)
    ensures CredentialsOf(db, x) == CredentialsOf(t, x)
  {
  }

  lemma NewSubjectAndName(db: Db, op: Op, x: string)
    requires op.Create? && Creates(db, op) && x in db.accounts
    ensures db.accounts[x].subject != op.subject
    ensures db.accounts[x].organization != op.organization || db.accounts[x].nameKey != op.nameKey
  {
    assert x !in AccountsWithSubject(db, op.subject);
    assert x !in AccountsNamed(db, op.organization, op.nameKey);
  }

  lemma CreateKeepsUnique(cfg: Limits, db: Db, op: Op, t: Db, x: string)
    requires KeysInv(cfg, db) && op.Create? && Creates(db, op) && SameRows(t, CreatedTables(db, op)) && x in t.accounts
    ensures AccountsWithSubject(t, t.accounts[x].subject) == {x}
    ensures AccountsNamed(t, t.accounts[x].organization, t.accounts[x].nameKey) == {x}
  {
    var a := t.accounts[x];
    if x == op.account {
      assert AccountsWithSubject(t, a.subject) == AccountsWithSubject(db, a.subject) + {x};
      assert AccountsNamed(t, a.organization, a.nameKey) == AccountsNamed(db, a.organization, a.nameKey) + {x};
    } else {
      NewSubjectAndName(db, op, x);
      assert AccountsWithSubject(t, a.subject) == AccountsWithSubject(db, a.subject);
      assert AccountsNamed(t, a.organization, a.nameKey) == AccountsNamed(db, a.organization, a.nameKey);
    }
  }

  lemma CreateAddsOne(db: Db, op: Op, t: Db, o: string)
    requires op.Create? && op.account !in db.accounts && t.accounts == db.accounts[op.account := NewAccount(op)]
    ensures AccountsOf(t, o) == if o == op.organization then AccountsOf(db, o) + {op.account} else AccountsOf(db, o)
  {
  }

  lemma CreateKeepsCapacity(cfg: Limits, db: Db, op: Op, t: Db, o: string)
    requires |AccountsOf(db, o)| <= cfg.maxAccounts && op.Create? && Configured(cfg, op) && Creates(db, op)
    requires SameRows(t, CreatedTables(db, op))
    ensures |AccountsOf(t, o)| <= cfg.maxAccounts
  {
    CreateAddsOne(db, op, t, o);
  }

  lemma CreateKeepsKeys(cfg: Limits, db: Db, op: Op, t: Db)
    requires KeysInv(cfg, db) && op.Create? && Configured(cfg, op) && Creates(db, op)
    requires SameRows(t, CreatedTables(db, op))
    ensures KeysInv(cfg, t)
  {
    forall o ensures |AccountsOf(t, o)| <= cfg.maxAccounts {
      CreateKeepsCapacity(cfg, db, op, t, o);
    }
    forall x | x in t.accounts
      ensures AccountsWithSubject(t, t.accounts[x].subject) == {x}
      ensures AccountsNamed(t, t.accounts[x].organization, t.accounts[x].nameKey) == {x} {
      CreateKeepsUnique(cfg, db, op, t, x);
    }
  }

  lemma CreateKeeps(cfg: Limits, db: Db, op: Op, t: Db)
    requires cfg.Valid() && TablesInv(cfg, db) && op.Create? && Configured(cfg, op) && Creates(db, op)
    requires SameRows(t, CreatedTables(db, op))
    ensures TablesInv(cfg, t)
  {
    forall c | c in db.credentials ensures db.credentials[c].account != op.account {
      assert CredentialInv(db, c);
    }
    CreateRows(db, op);
    forall x | x in t.accounts ensures AccountRowsInv(cfg, t, x) {
      SameRowsSameCredentials(t, CreatedTables(db, op), x);
      if x == op.account { CreateAccountInv(cfg, op); } else { OtherAccount(cfg, db, t, x); }
    }
    forall c | c in t.credentials ensures CredentialInv(t, c) {
      if c != op.credential { assert CredentialInv(db, c); }
    }
    CreateKeepsKeys(cfg, db, op, t);
  }

  /** Tables whose accounts keep their keys keep the key constraints. */
  lemma SameKeys(cfg: Limits, db: Db, t: Db)
    requires KeysInv(cfg, db) && t.accounts.Keys == db.accounts.Keys
    requires forall x :: x in db.accounts ==>
               t.accounts[x].organization == db.accounts[x].organization
               && t.accounts[x].subject == db.accounts[x].subject && t.accounts[x].nameKey == db.accounts[x].nameKey
    ensures KeysInv(cfg, t)
  {
    forall o ensures |AccountsOf(t, o)| <= cfg.maxAccounts {
      assert AccountsOf(t, o) == AccountsOf(db, o);
    }
    forall x | x in t.accounts
      ensures AccountsWithSubject(t, t.accounts[x].subject) == {x}
      ensures AccountsNamed(t, t.accounts[x].organization, t.accounts[x].nameKey) == {x} {
      var a := t.accounts[x];
      assert AccountsWithSubject(t, a.subject) == AccountsWithSubject(db, a.subject);
      assert AccountsNamed(t, a.organization, a.nameKey) == AccountsNamed(db, a.organization, a.nameKey);
    }
  }

  lemma RotateKeepsOwn(cfg: Limits, db: Db, op: Op, t: Db)
    requires cfg.Valid() && op.Rotate? && Configured(cfg, op) && Rotates(db, op) && AccountRowsInv(cfg, db, op.account)
    requires SameRows(t, RotatedTables(db, op))
    ensures AccountRowsInv(cfg, t, op.account)
  {
    RotateOwnRows(db, op);
    SameRowsSameCredentials(t, RotatedTables(db, op), op.account);
    var rows := CredentialsOf(db, op.account);
    forall c | c in rows && Live(rows[c], op.validFrom)
      ensures CredentialCheck(c, Bound(rows[c], op.validFrom, op.overlapUntil)) {
      assert c in BoundRows(db, op);
    }
    RotateAccountInv(cfg, op, db.accounts[op.account], rows);
  }

  lemma RotateKeepsAccount(cfg: Limits, db: Db, op: Op, t: Db, x: string)
    requires cfg.Valid() && op.Rotate? && Configured(cfg, op) && Rotates(db, op) && x in db.accounts && AccountRowsInv(cfg, db, x)
    requires SameRows(t, RotatedTables(db, op))
    ensures AccountRowsInv(cfg, t, x)
  {
    if x == op.account {
      RotateKeepsOwn(cfg, db, op, t);
    } else {
      RotateRowsOf(db, op, x);
      SameRowsSameCredentials(t, RotatedTables(db, op), x);
      OtherAccount(cfg, db, t, x);
    }
  }

  lemma RotateKeepsCredentials(db: Db, op: Op, t: Db)
    requires op.Rotate? && Rotates(db, op) && SameRows(t, RotatedTables(db, op)) && CredentialsInv(db)
    ensures CredentialsInv(t)
  {
    forall c | c in t.credentials ensures CredentialInv(t, c) {
      if c in db.credentials { assert CredentialInv(db, c); }
    }
  }

  lemma RotateKeepsKeys(cfg: Limits, db: Db, op: Op, t: Db)
    requires KeysInv(cfg, db) && op.Rotate? && Rotates(db, op) && SameRows(t, RotatedTables(db, op))
    ensures KeysInv(cfg, t)
  {
    assert t.accounts.Keys == db.accounts.Keys;
    SameKeys(cfg, db, t);
  }

  lemma RotateKeepsAccounts(cfg: Limits, db: Db, op: Op, t: Db)
    requires cfg.Valid() && AccountsInv(cfg, db) && op.Rotate? && Configured(cfg, op) && Rotates(db, op)
    requires SameRows(t, RotatedTables(db, op))
    ensures AccountsInv(cfg, t)
  {
    forall x | x in t.accounts ensures AccountRowsInv(cfg, t, x) {
      RotateKeepsAccount(cfg, db, op, t, x);
    }
  }

  lemma RotateKeeps(cfg: Limits, db: Db, op: Op, t: Db)
    requires cfg.Valid() && TablesInv(cfg, db) && op.Rotate? && Configured(cfg, op) && Rotates(db, op)
    requires SameRows(t, RotatedTables(db, op))
    ensures TablesInv(cfg, t)
  {
    RotateKeepsAccounts(cfg, db, op, t);
    RotateKeepsCredentials(db, op, t);
    RotateKeepsKeys(cfg, db, op, t);
  }

  lemma RevokeKeepsOwn(cfg: Limits, db: Db, op: Op, t: Db)
    requires cfg.Valid() && op.Revoke? && Revokes(db, op) && AccountRowsInv(cfg, db, op.account)
    requires SameRows(t, RevokedTables(db, op))
    ensures AccountRowsInv(cfg, t, op.account)
  {
    RevokeRows(db, op);
    SameRowsSameCredentials(t, RevokedTables(db, op), op.account);
    RevokeAccountInv(cfg, db.accounts[op.account], CredentialsOf(db, op.account), op.revokedAt);
  }

  lemma RevokeKeepsAccount(cfg: Limits, db: Db, op: Op, t: Db, x: string)
    requires cfg.Valid() && op.Revoke? && Revokes(db, op) && x in db.accounts && AccountRowsInv(cfg, db, x)
    requires SameRows(t, RevokedTables(db, op))
    ensures AccountRowsInv(cfg, t, x)
  {
    if x == op.account {
      RevokeKeepsOwn(cfg, db, op, t);
    } else {
      RevokeRows(db, op);
      SameRowsSameCredentials(t, RevokedTables(db, op), x);
      OtherAccount(cfg, db, t, x);
    }
  }

  lemma RevokeKeepsCredentials(db: Db, op: Op, t: Db)
    requires op.Revoke? && Revokes(db, op) && SameRows(t, RevokedTables(db, op)) && CredentialsInv(db)
    ensures CredentialsInv(t)
  {
    forall c | c in t.credentials ensures CredentialInv(t, c) {
      if c in db.credentials { assert CredentialInv(db, c); }
    }
  }

  lemma RevokeKeepsKeys(cfg: Limits, db: Db, op: Op, t: Db)
    requires KeysInv(cfg, db) && op.Revoke? && Revokes(db, op) && SameRows(t, RevokedTables(db, op))
    ensures KeysInv(cfg, t)
  {
    assert t.accounts.Keys == db.accounts.Keys;
    SameKeys(cfg, db, t);
  }

  lemma RevokeKeepsAccounts(cfg: Limits, db: Db, op: Op, t: Db)
    requires cfg.Valid() && AccountsInv(cfg, db) && op.Revoke? && Revokes(db, op)
    requires SameRows(t, RevokedTables(db, op))
    ensures AccountsInv(cfg, t)
  {
    forall x | x in t.accounts ensures AccountRowsInv(cfg, t, x) {
      RevokeKeepsAccount(cfg, db, op, t, x);
    }
  }

  lemma RevokeKeeps(cfg: Limits, db: Db, op: Op, t: Db)
    requires cfg.Valid() && TablesInv(cfg, db) && op.Revoke? && Revokes(db, op)
    requires SameRows(t, RevokedTables(db, op))
    ensures TablesInv(cfg, t)
  {
    RevokeKeepsAccounts(cfg, db, op, t);
    RevokeKeepsCredentials(db, op, t);
    RevokeKeepsKeys(cfg, db, op, t);
  }

  lemma AdmitKeepsAccount(cfg: Limits, db: Db, op: Op, t: Db, x: string)
    requires op.Admit? && Uses(db, op, t) && x in db.accounts && AccountRowsInv(cfg, db, x)
    ensures AccountRowsInv(cfg, t, x)
  {
    AdmitRows(db, op, t);
    if x == op.account {
      AdmitAccountInv(cfg, db.accounts[x], CredentialsOf(db, x), op.credential, op.now);
    } else {
      OtherAccount(cfg, db, t, x);
    }
  }

  lemma AdmitKeepsAccounts(cfg: Limits, db: Db, op: Op, t: Db)
    requires AccountsInv(cfg, db) && op.Admit? && Uses(db, op, t)
    ensures AccountsInv(cfg, t)
  {
    forall x | x in t.accounts ensures AccountRowsInv(cfg, t, x) {
      AdmitKeepsAccount(cfg, db, op, t, x);
    }
  }

  lemma AdmitKeepsCredentials(db: Db, op: Op, t: Db)
    requires CredentialsInv(db) && op.Admit? && Uses(db, op, t)
    ensures CredentialsInv(t)
  {
    forall c | c in t.credentials ensures CredentialInv(t, c) {
      assert CredentialInv(db, c);
    }
  }

  lemma AdmitKeeps(cfg: Limits, db: Db, op: Op, t: Db)
    requires cfg.Valid() && TablesInv(cfg, db) && op.Admit? && Uses(db, op, t)
    ensures TablesInv(cfg, t)
  {
    AdmitKeepsAccounts(cfg, db, op, t);
    AdmitKeepsCredentials(db, op, t);
    SameKeys(cfg, db, t);
  }

  lemma UnchangedKeeps(cfg: Limits, db: Db, t: Db)
    requires TablesInv(cfg, db) && SameRows(t, db)
    ensures TablesInv(cfg, t)
  {
    forall x | x in t.accounts ensures AccountRowsInv(cfg, t, x) {
      SameRowsSameCredentials(db, t, x);
      OtherAccount(cfg, db, t, x);
    }
    forall c | c in t.credentials ensures CredentialInv(t, c) {
      assert CredentialInv(db, c);
    }
    SameKeys(cfg, db, t);
  }

  lemma TransactionKeeps(cfg: Limits, db: Db, op: Op)
    requires cfg.Valid() && Configured(cfg, op) && TablesInv(cfg, db)
    ensures TablesInv(cfg, Alone(db, op).0)
  {
    var t := Alone(db, op).0;
    if SameRows(t, db) {
      UnchangedKeeps(cfg, db, t);
    } else {
      match op
      case Create(_, _, _, _, _, _, _, _, _, _, _, _, _) => CreateOutcome(db, op); CreateKeeps(cfg, db, op, t);
      case Rotate(_, _, _, _, _, _, _, _, _, _, _) => RotateOutcome(db, op); RotateKeeps(cfg, db, op, t);
      case Revoke(_, _, _, _, _, _, _) => RevokeOutcome(db, op); RevokeKeeps(cfg, db, op, t);
      case Admit(_, _, _, _, _) => AdmitOutcome(db, op); AdmitKeeps(cfg, db, op, t);
    }
  }

  /** An action other than a transaction touches neither accounts nor credentials. */
  lemma OtherActionsKeepRows(db: Db, a: Action)
    requires !a.Transact?
    ensures SameRows(Perform(db, a).0, db)
  {
  }

  lemma PerformedKeeps(cfg: Limits, db: Db, op: Op)
    requires cfg.Valid() && Configured(cfg, op) && TablesInv(cfg, db)
    ensures TablesInv(cfg, Serial(db, op).0)
  {
    StatementsCompose(db, op);
    TransactionKeeps(cfg, db, op);
  }

  lemma ActionKeeps(cfg: Limits, db: Db, a: Action)
    requires cfg.Valid() && ConfiguredAction(cfg, a) && TablesInv(cfg, db)
    ensures TablesInv(cfg, Perform(db, a).0)
  {
    if a.Transact? {
      PerformedKeeps(cfg, db, a.op);
    } else {
      OtherActionsKeepRows(db, a);
      UnchangedKeeps(cfg, db, Perform(db, a).0);
    }
  }
}
