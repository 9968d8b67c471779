/** What each transaction does when it runs alone, written on the tables directly:
    the guards in the order they decide, then the rows that end up changed. */
module Atomic {
  import opened Tables
  import opened Transactions

  function NewCredential(op: Op): Credential
    requires op.Create? || op.Rotate?
  {
    Credential(op.account, op.verifier, op.validFrom, op.validUntil, op.startedAt, None, None, None)
  }

  function InsertFailure(db: Db, op: Op): Option<Outcome>
    requires op.Create? || op.Rotate?
  {
    if !CredentialCheck(op.credential, NewCredential(op)) then Some(CheckViolation)
    else if op.credential in db.credentials then Some(UniqueViolation(CredentialKey))
    else None
  }

  predicate OpenCommand(db: Db, key: CommandKey) {
    key in db.commands && db.commands[key].state.Completable()
  }

  function Completed(db: Db, key: CommandKey, receipt: Sealed, at: Time): Db
    requires key in db.commands
  {
    db.(commands := db.commands[key := db.commands[key].(state := CompletedSuccess(receipt, at))])
  }

  /** Reread the account, seal the receipt and complete the command, or give up. */
  function Conclude(db: Db, changed: Db, op: Op, flag: bool): (Db, Outcome)
    requires !op.Admit? && op.account in changed.accounts && changed.commands == db.commands
  {
    var row := LoadRow(changed, op.account);
    if OpenCommand(db, op.command) then
      (Completed(changed, op.command, Receipt(op.aad, row, flag), op.startedAt), Changed(row, flag))
    else (db, InvariantFailure)
  }

  function CreatedTables(db: Db, op: Op): Db
    requires op.Create?
  {
    db.(accounts := db.accounts[op.account := NewAccount(op)],
        credentials := db.credentials[op.credential := NewCredential(op)])
  }

  function CreateAlone(db: Db, op: Op): (Db, Outcome)
    requires op.Create?
  {
    if |AccountsOf(db, op.organization)| >= op.maxAccounts then (db, LimitReached)
    else if !AccountCheck(op.account, NewAccount(op)) then (db, CheckViolation)
    else if op.account in db.accounts then (db, UniqueViolation(AccountKey))
    else if AccountsWithSubject(db, op.subject) != {} then (db, UniqueViolation(SubjectUnique))
    else if AccountsNamed(db, op.organization, op.nameKey) != {} then (db, UniqueViolation(NameUnique))
    else if InsertFailure(db, op).Some? then (db, InsertFailure(db, op).value)
    else
      Conclude(db, CreatedTables(db, op), op, true)
  }

  function Rotated(a: Account, at: Time): Account {
    a.(revision := a.revision + 1, rotatedAt := Some(at))
  }

  function RotatedTables(db: Db, op: Op): Db
    requires op.Rotate? && op.account in db.accounts
  {
    db.(accounts := db.accounts[op.account := Rotated(db.accounts[op.account], op.validFrom)],
        credentials := db.credentials + BoundRows(db, op)[op.credential := NewCredential(op)])
  }

  function RotateAlone(db: Db, op: Op): (Db, Outcome)
    requires op.Rotate?
  {
    if op.account !in db.accounts || db.accounts[op.account].organization != op.organization then (db, NotFound)
    else if db.accounts[op.account].status == AccountStatus.Revoked then (db, AlreadyRevoked)
    else if db.accounts[op.account].revision != op.expectedRevision then (db, RevisionConflict)
    else
      var bounded := BoundRows(db, op);
      if exists c :: c in bounded && !CredentialCheck(c, bounded[c]) then (db, CheckViolation)
      else if InsertFailure(db, op).Some? then (db, InsertFailure(db, op).value)
      else if op.expectedRevision >= MAX_BIGINT then (db, OutOfRange)
      else
        Conclude(db, RotatedTables(db, op), op, true)
  }

  function Withdrawn(a: Account, at: Time): Account {
    a.(status := AccountStatus.Revoked, revision := a.revision + 1, revokedAt := Some(at))
  }

  function RevokedTables(db: Db, op: Op): Db
    requires op.Revoke? && op.account in db.accounts
  {
    db.(accounts := db.accounts[op.account := Withdrawn(db.accounts[op.account], op.revokedAt)],
        credentials := db.credentials + WithdrawnRows(db, op))
  }

  function RevokeAlone(db: Db, op: Op): (Db, Outcome)
    requires op.Revoke?
  {
    if op.account !in db.accounts || db.accounts[op.account].organization != op.organization then (db, NotFound)
    else if db.accounts[op.account].revision != op.expectedRevision then (db, RevisionConflict)
    else if db.accounts[op.account].status == AccountStatus.Revoked then Conclude(db, db, op, false)
    else if op.expectedRevision >= MAX_BIGINT then (db, OutOfRange)
    else
      Conclude(db, RevokedTables(db, op), op, true)
  }

  function AdmitAlone(db: Db, op: Op): (Db, Outcome)
    requires op.Admit?
  {
    var key := CommandOf(op);
    if Admissible(db, op) && key in db.commands && db.commands[key].state.Reserved? then
      (db.(credentials := db.credentials[op.credential := db.credentials[op.credential].(lastUsedAt := Some(op.now))],
           commands := db.commands[key := db.commands[key].(state := Issuing)]),
       Admitted(JoinCredential(op.credential, db.credentials[op.credential], db.accounts[op.account])))
    else (db, NotAdmitted)
  }

  function Alone(db: Db, op: Op): (Db, Outcome) {
    match op
    case Create(_, _, _, _, _, _, _, _, _, _, _, _, _) => CreateAlone(db, op)
    case Rotate(_, _, _, _, _, _, _, _, _, _, _) => RotateAlone(db, op)
    case Revoke(_, _, _, _, _, _, _) => RevokeAlone(db, op)
    case Admit(_, _, _, _, _) => AdmitAlone(db, op)
  }

  // The statements compose to that

  lemma Advance(db: Db, op: Op, n: nat)
    requires n > 0
    ensures Prefix(db, op, n - 1).Running? ==>
              var p := Prefix(db, op, n - 1);
              Prefix(db, op, n) == Statement(db, op, n - 1, p.writes, p.fetched)
    ensures !Prefix(db, op, n - 1).Running? ==> Prefix(db, op, n) == Prefix(db, op, n - 1)
  {
  }

  lemma NoWritesIsIdentity(db: Db)
    ensures Apply(db, NoWrites) == db
  {
    assert db.accounts + map[] == db.accounts;
    assert db.credentials + map[] == db.credentials;
    assert db.commands + map[] == db.commands;
  }

  lemma AdmitComposes(db: Db, op: Op)
    requires op.Admit?
    ensures Serial(db, op) == AdmitAlone(db, op)
  {
    NoWritesIsIdentity(db);
    Advance(db, op, 1); Advance(db, op, 2); Advance(db, op, 3); Advance(db, op, 4);
    if !Prefix(db, op, 1).Running? {
      PrefixStuck(db, op, 1, 4);
    } else if !Prefix(db, op, 2).Running? {
      PrefixStuck(db, op, 2, 4);
    } else {
      var row := db.credentials[op.credential].(lastUsedAt := Some(op.now));
      var w := NoWrites.(credentials := map[op.credential := row]);
      assert Prefix(db, op, 3).writes == w;
      assert Apply(db, w).commands == db.commands;
      assert db.credentials + w.credentials == db.credentials[op.credential := row];
      if Prefix(db, op, 4).Ready? {
        var key := CommandOf(op);
        assert Prefix(db, op, 4).writes.commands == map[key := db.commands[key].(state := Issuing)];
        assert Apply(db, Prefix(db, op, 4).writes).commands == db.commands[key := db.commands[key].(state := Issuing)];
        assert Apply(db, Prefix(db, op, 4).writes).accounts == db.accounts;
      }
    }
  }

  // create, rotate and revoke end with the same two statements

  lemma SecondLastLoads(db: Db, op: Op, w: Writes, f: Fetched)
    requires !op.Admit?
    ensures Statement(db, op, Length(op) - 2, w, f) == Load(db, w, op.account)
  {
  }

  lemma LastCompletes(db: Db, op: Op, w: Writes, row: AccountRow)
    requires !op.Admit?
    ensures var flag := op.Revoke? ==> op.account in w.accounts;
            Statement(db, op, Length(op) - 1, w, FetchedAccount(row))
              == Complete(db, w, op.command, Receipt(op.aad, row, flag), op.startedAt, Changed(row, flag))
  {
  }

  lemma CompletionApplies(db: Db, w: Writes, key: CommandKey, receipt: Sealed, at: Time)
    requires w.commands == map[] && OpenCommand(db, key)
    ensures var w' := w.(commands := map[key := db.commands[key].(state := CompletedSuccess(receipt, at))]);
            Apply(db, w') == Completed(Apply(db, w), key, receipt, at)
  {
    assert db.commands + map[] == db.commands;
  }

  lemma ConcludeComposes(db: Db, op: Op, w: Writes, changed: Db, flag: bool)
    requires !op.Admit? && Prefix(db, op, Length(op) - 2) == Running(w, Nothing)
    requires Apply(db, w) == changed && op.account in changed.accounts && w.commands == map[]
    requires flag == (op.Revoke? ==> op.account in w.accounts)
    ensures changed.commands == db.commands
    ensures Serial(db, op) == Conclude(db, changed, op, flag)
  {
    assert changed.commands == db.commands + map[] == db.commands;
    var n := Length(op) - 2;
    Advance(db, op, n + 1);
    SecondLastLoads(db, op, w, Nothing);
    var row := LoadRow(changed, op.account);
    assert Prefix(db, op, n + 1) == Running(w, FetchedAccount(row));
    Advance(db, op, n + 2);
    LastCompletes(db, op, w, row);
    if OpenCommand(db, op.command) {
      CompletionApplies(db, w, op.command, Receipt(op.aad, row, flag), op.startedAt);
    }
  }

  lemma StopsWith(db: Db, op: Op, n: nat, outcome: Outcome)
    requires n <= Length(op) && Prefix(db, op, n) == RolledBack(outcome)
    ensures Serial(db, op) == (db, outcome)
  {
    PrefixStuck(db, op, n, Length(op));
  }

  lemma RevokeFirst(db: Db, op: Op)
    requires op.Revoke?
    ensures Prefix(db, op, 1) ==
      if op.account !in db.accounts || db.accounts[op.account].organization != op.organization then RolledBack(NotFound)
      else if db.accounts[op.account].revision != op.expectedRevision then RolledBack(RevisionConflict)
      else Running(NoWrites, Nothing)
  {
    NoWritesIsIdentity(db);
    Advance(db, op, 1);
  }

  lemma RevokeSecond(db: Db, op: Op)
    requires op.Revoke? && op.account in db.accounts && Prefix(db, op, 1) == Running(NoWrites, Nothing)
    requires db.accounts[op.account].status == Active && db.accounts[op.account].revision < MAX_BIGINT
    ensures Prefix(db, op, 2) ==
      Running(Writes(map[op.account := Withdrawn(db.accounts[op.account], op.revokedAt)], map[], map[]), Nothing)
  {
    NoWritesIsIdentity(db);
    Advance(db, op, 2);
  }

  lemma RevokeWrites(db: Db, op: Op)
    requires op.Revoke? && op.account in db.accounts && Prefix(db, op, 1) == Running(NoWrites, Nothing)
    requires db.accounts[op.account].status == Active && db.accounts[op.account].revision < MAX_BIGINT
    ensures Prefix(db, op, 3) ==
      Running(Writes(map[op.account := Withdrawn(db.accounts[op.account], op.revokedAt)], WithdrawnRows(db, op), map[]), Nothing)
  {
    RevokeSecond(db, op);
    var w := Writes(map[op.account := Withdrawn(db.accounts[op.account], op.revokedAt)], map[], map[]);
    Advance(db, op, 3);
    assert Apply(db, w).credentials == db.credentials;
    assert WithdrawnRows(Apply(db, w), op) == WithdrawnRows(db, op);
    assert map[] + WithdrawnRows(db, op) == WithdrawnRows(db, op);
  }

  lemma RevokeSkips(db: Db, op: Op)
    requires op.Revoke? && op.account in db.accounts && Prefix(db, op, 1) == Running(NoWrites, Nothing)
    requires db.accounts[op.account].status == AccountStatus.Revoked
    ensures Prefix(db, op, 3) == Running(NoWrites, Nothing)
  {
    NoWritesIsIdentity(db);
    Advance(db, op, 2);
    Advance(db, op, 3);
  }

  lemma RevokeComposes(db: Db, op: Op)
    requires op.Revoke?
    ensures Serial(db, op) == RevokeAlone(db, op)
  {
    NoWritesIsIdentity(db);
    RevokeFirst(db, op);
    if Prefix(db, op, 1).RolledBack? {
      StopsWith(db, op, 1, Prefix(db, op, 1).outcome);
    } else if db.accounts[op.account].status == AccountStatus.Revoked {
      RevokeSkips(db, op);
      ConcludeComposes(db, op, NoWrites, db, false);
    } else if op.expectedRevision >= MAX_BIGINT {
      Advance(db, op, 2);
      StopsWith(db, op, 2, OutOfRange);
    } else {
      RevokeWrites(db, op);
      var a := Withdrawn(db.accounts[op.account], op.revokedAt);
      var w := Writes(map[op.account := a], WithdrawnRows(db, op), map[]);
      assert Apply(db, w) == RevokedTables(db, op);
      ConcludeComposes(db, op, w, RevokedTables(db, op), true);
    }
  }

  lemma RotateFirst(db: Db, op: Op)
    requires op.Rotate?
    ensures Prefix(db, op, 1) ==
      if op.account !in db.accounts || db.accounts[op.account].organization != op.organization then RolledBack(NotFound)
      else if db.accounts[op.account].status == AccountStatus.Revoked then RolledBack(AlreadyRevoked)
      else if db.accounts[op.account].revision != op.expectedRevision then RolledBack(RevisionConflict)
      else Running(NoWrites, Nothing)
  {
    NoWritesIsIdentity(db);
    Advance(db, op, 1);
  }

  lemma RotateSecond(db: Db, op: Op)
    requires op.Rotate? && Prefix(db, op, 1) == Running(NoWrites, Nothing)
    ensures var bounded := BoundRows(db, op);
            Prefix(db, op, 2) ==
              if exists c :: c in bounded && !CredentialCheck(c, bounded[c]) then RolledBack(CheckViolation)
              else Running(Writes(map[], bounded, map[]), Nothing)
  {
    NoWritesIsIdentity(db);
    Advance(db, op, 2);
    assert map[] + BoundRows(db, op) == BoundRows(db, op);
  }

  lemma RotateThird(db: Db, op: Op)
    requires op.Rotate? && Prefix(db, op, 2) == Running(Writes(map[], BoundRows(db, op), map[]), Nothing)
    ensures Prefix(db, op, 3) ==
              if InsertFailure(db, op).Some? then RolledBack(InsertFailure(db, op).value)
              else Running(Writes(map[], BoundRows(db, op)[op.credential := NewCredential(op)], map[]), Nothing)
  {
    Advance(db, op, 3);
    var w := Writes(map[], BoundRows(db, op), map[]);
    assert op.credential in Apply(db, w).credentials <==> op.credential in db.credentials;
  }

  lemma RotateFourth(db: Db, op: Op, rows: map<string, Credential>)
    requires op.Rotate? && Prefix(db, op, 3) == Running(Writes(map[], rows, map[]), Nothing) && op.account in db.accounts
    ensures Prefix(db, op, 4) ==
              if db.accounts[op.account].revision >= MAX_BIGINT then RolledBack(OutOfRange)
              else Running(Writes(map[op.account := Rotated(db.accounts[op.account], op.validFrom)], rows, map[]), Nothing)
  {
    Advance(db, op, 4);
    assert Apply(db, Writes(map[], rows, map[])).accounts == db.accounts;
  }

  lemma RotateComposes(db: Db, op: Op)
    requires op.Rotate?
    ensures Serial(db, op) == RotateAlone(db, op)
  {
    RotateFirst(db, op);
    if Prefix(db, op, 1).RolledBack? {
      StopsWith(db, op, 1, Prefix(db, op, 1).outcome);
    } else {
      RotateSecond(db, op);
      if Prefix(db, op, 2).RolledBack? {
        StopsWith(db, op, 2, Prefix(db, op, 2).outcome);
      } else {
        RotateThird(db, op);
        if Prefix(db, op, 3).RolledBack? {
          StopsWith(db, op, 3, Prefix(db, op, 3).outcome);
        } else {
          var rows := BoundRows(db, op)[op.credential := NewCredential(op)];
          RotateFourth(db, op, rows);
          if Prefix(db, op, 4).RolledBack? {
            StopsWith(db, op, 4, OutOfRange);
          } else {
            RotateEnds(db, op);
          }
        }
      }
    }
  }

  lemma AppliesAccount(db: Db, id: string, a: Account, rows: map<string, Credential>)
    ensures Apply(db, Writes(map[id := a], rows, map[])) ==
            db.(accounts := db.accounts[id := a], credentials := db.credentials + rows)
  {
    assert db.accounts + map[id := a] == db.accounts[id := a];
    assert db.commands + map[] == db.commands;
  }

  lemma RotateEnds(db: Db, op: Op)
    requires op.Rotate? && op.account in db.accounts
    requires Prefix(db, op, 4) ==
      Running(Writes(map[op.account := Rotated(db.accounts[op.account], op.validFrom)],
                     BoundRows(db, op)[op.credential := NewCredential(op)], map[]), Nothing)
    ensures Serial(db, op) == Conclude(db, RotatedTables(db, op), op, true)
  {
    var w := Writes(map[op.account := Rotated(db.accounts[op.account], op.validFrom)],
                    BoundRows(db, op)[op.credential := NewCredential(op)], map[]);
    AppliesAccount(db, op.account, w.accounts[op.account], w.credentials);
    ConcludeComposes(db, op, w, RotatedTables(db, op), true);
  }

  lemma CreateGuards(db: Db, op: Op)
    requires op.Create?
    ensures Prefix(db, op, 2) ==
      if |AccountsOf(db, op.organization)| >= op.maxAccounts then RolledBack(LimitReached) else Running(NoWrites, Nothing)
  {
    NoWritesIsIdentity(db);
    Advance(db, op, 1);
    Advance(db, op, 2);
  }

  lemma CreateKeys(db: Db, op: Op)
    requires op.Create? && Prefix(db, op, 2) == Running(NoWrites, Nothing)
    ensures Prefix(db, op, 5) ==
      if !AccountCheck(op.account, NewAccount(op)) then RolledBack(CheckViolation)
      else if op.account in db.accounts then RolledBack(UniqueViolation(AccountKey))
      else if AccountsWithSubject(db, op.subject) != {} then RolledBack(UniqueViolation(SubjectUnique))
      else if AccountsNamed(db, op.organization, op.nameKey) != {} then RolledBack(UniqueViolation(NameUnique))
      else Running(Writes(map[op.account := NewAccount(op)], map[], map[]), Nothing)
  {
    NoWritesIsIdentity(db);
    Advance(db, op, 3);
    Advance(db, op, 4);
    Advance(db, op, 5);
  }

  lemma CreateInserts(db: Db, op: Op)
    requires op.Create? && Prefix(db, op, 5) == Running(Writes(map[op.account := NewAccount(op)], map[], map[]), Nothing)
    ensures Prefix(db, op, 6) ==
              if InsertFailure(db, op).Some? then RolledBack(InsertFailure(db, op).value)
              else Running(Writes(map[op.account := NewAccount(op)], map[op.credential := NewCredential(op)], map[]), Nothing)
  {
    Advance(db, op, 6);
    assert Apply(db, Writes(map[op.account := NewAccount(op)], map[], map[])).credentials == db.credentials;
  }

  lemma CreateComposes(db: Db, op: Op)
    requires op.Create?
    ensures Serial(db, op) == CreateAlone(db, op)
  {
    CreateGuards(db, op);
    if Prefix(db, op, 2).RolledBack? {
      StopsWith(db, op, 2, LimitReached);
    } else {
      CreateKeys(db, op);
      if Prefix(db, op, 5).RolledBack? {
        StopsWith(db, op, 5, Prefix(db, op, 5).outcome);
      } else {
        CreateInserts(db, op);
        if Prefix(db, op, 6).RolledBack? {
          StopsWith(db, op, 6, Prefix(db, op, 6).outcome);
        } else {
          CreateEnds(db, op);
        }
      }
    }
  }

  lemma CreateEnds(db: Db, op: Op)
    requires op.Create?
    requires Prefix(db, op, 6) ==
      Running(Writes(map[op.account := NewAccount(op)], map[op.credential := NewCredential(op)], map[]), Nothing)
    ensures Serial(db, op) == Conclude(db, CreatedTables(db, op), op, true)
  {
    var w := Writes(map[op.account := NewAccount(op)], map[op.credential := NewCredential(op)], map[]);
    assert Apply(db, w) == CreatedTables(db, op);
    ConcludeComposes(db, op, w, CreatedTables(db, op), true);
  }

  /** Running a transaction's statements with nothing in between is the change
      written down above. */
  lemma StatementsCompose(db: Db, op: Op)
    ensures Serial(db, op) == Alone(db, op)
  {
    match op
    case Create(_, _, _, _, _, _, _, _, _, _, _, _, _) => CreateComposes(db, op);
    case Rotate(_, _, _, _, _, _, _, _, _, _, _) => RotateComposes(db, op);
    case Revoke(_, _, _, _, _, _, _) => RevokeComposes(db, op);
    case Admit(_, _, _, _, _) => AdmitComposes(db, op);
  }
}
