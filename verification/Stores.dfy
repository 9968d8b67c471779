/** The store as the plugin uses it: four mutable tables, transactions that buffer
    their writes until commit, and the store's operations statement by statement,
    each proved equal to its transaction in the concurrent model. */
module Stores {
  import opened Text
  import opened Tables
  import opened Transactions
  import opened Atomic
  import opened Interleaving
  import opened Pagination
  import opened Effects

  datatype Claim =
    | Fresh
    | Replayed(receipt: Sealed)
    | Refused(code: string)
    | Clash
    | Busy

  /** What the tables say of a key that is already taken. */
  predicate Claims(db: Db, key: CommandKey, intent: Intent, claim: Claim)
    requires key in db.commands
  {
    var c := db.commands[key];
    match claim
    case Fresh => false
    case Clash => c.intent != intent
    case Replayed(receipt) => c.intent == intent && c.state.CompletedSuccess? && c.state.receipt == receipt
    case Refused(code) => c.intent == intent && c.state.CompletedError? && c.state.code == code
    case Busy => c.intent == intent && c.state.Completable()
  }

  datatype Page = Page(rows: seq<AccountRow>, nextCursor: Option<string>)

  function Ids(rows: seq<AccountRow>): seq<string> {
    seq(|rows|, i requires 0 <= i < |rows| => rows[i].id)
  }

  class Store {
    var accounts: map<string, Account>
    var credentials: map<string, Credential>
    var commands: map<CommandKey, Command>
    var limits: map<string, Limit>

    function Snapshot(): Db
      reads this
    {
      Db(accounts, credentials, commands, limits)
    }

    constructor ()
      ensures Snapshot() == EmptyDb
    {
      accounts, credentials, commands, limits := map[], map[], map[], map[];
    }

    method Prune(before: Time)
      modifies this`commands
      ensures forall k :: k in commands <==> k in old(commands) && !Expired(old(commands)[k], before)
      ensures forall k :: k in commands ==> commands[k] == old(commands)[k]
      ensures Snapshot() == Perform(old(Snapshot()), Action.Prune(before)).0
    {
      commands := map k | k in commands && !(CompletedAt(commands[k].state).Some? && CompletedAt(commands[k].state).value < before)
        :: commands[k];
    }

    /** Insert the row or, when the key is taken, read what it holds. */
    method ClaimCommand(key: CommandKey, intent: Intent) returns (claim: Claim)
      modifies this`commands
      ensures claim.Fresh? <==> key !in old(commands)
      ensures claim.Fresh? ==> commands == old(commands)[key := Command(intent, Reserved)]
      ensures !claim.Fresh? ==> commands == old(commands) && Claims(Snapshot(), key, intent, claim)
      ensures (Snapshot(), Affected(claim.Fresh?)) == Perform(old(Snapshot()), Reserve(key, intent))
    {
      if key !in commands {
        commands := commands[key := Command(intent, Reserved)];
        return Fresh;
      }
      var row := commands[key];
      if row.intent != intent { return Clash; }
      match row.state {
        case CompletedSuccess(receipt, _) => claim := Replayed(receipt);
        case CompletedError(code, _) => claim := Refused(code);
        case _ => claim := Busy;
      }
    }

    method CompleteError(key: CommandKey, code: string, at: Time) returns (ok: bool)
      modifies this`commands
      ensures ok <==> OpenCommand(old(Snapshot()), key)
      ensures commands == if ok then old(commands)[key := Command(old(commands)[key].intent, CompletedError(code, at))]
                          else old(commands)
      ensures (Snapshot(), Affected(ok)) == Perform(old(Snapshot()), Fail(key, code, at))
    {
      ok := key in commands && commands[key].state.Completable();
      if ok { commands := commands[key := Command(commands[key].intent, CompletedError(code, at))]; }
    }

    /** `complete_success_owned`: a transaction of its own. */
    method CompleteSuccess(key: CommandKey, receipt: Sealed, at: Time) returns (ok: bool)
      modifies this
      ensures ok <==> OpenCommand(old(Snapshot()), key)
      ensures (Snapshot(), Affected(ok)) == Perform(old(Snapshot()), Finish(key, receipt, at))
    {
      var transaction := new Transaction(this);
      ok := transaction.CompleteSuccess(key, receipt, at);
      if ok { transaction.Commit(this); }
    }

    method CreateAccount(op: Op) returns (outcome: Outcome)
      requires op.Create?
      modifies this
      ensures (Snapshot(), outcome) == Alone(old(Snapshot()), op)
    {
      var transaction := new Transaction(this);
      var count := |AccountsOf(transaction.view, op.organization)|;
      if count >= op.maxAccounts { return LimitReached; }
      var account := Account(op.organization, op.subject, op.name, op.nameKey, Active, 1, op.startedAt, None, None);
      var failure := transaction.InsertAccount(op.account, account);
      if failure.Some? { return failure.value; }
      failure := transaction.InsertCredential(op.credential,
        Credential(op.account, op.verifier, op.validFrom, op.validUntil, op.startedAt, None, None, None));
      if failure.Some? { return failure.value; }
      outcome := transaction.Conclude(this, op, true);
    }

    method RotateAccount(op: Op) returns (outcome: Outcome)
      requires op.Rotate?
      modifies this
      ensures (Snapshot(), outcome) == Alone(old(Snapshot()), op)
    {
      var transaction := new Transaction(this);
      var current := transaction.LockAccount(op.organization, op.account);
      if current.None? { return NotFound; }
      if current.value.status == AccountStatus.Revoked { return AlreadyRevoked; }
      if current.value.revision != op.expectedRevision { return RevisionConflict; }
      var ok := transaction.BoundCredentials(op);
      if !ok { return CheckViolation; }
      var failure := transaction.InsertCredential(op.credential,
        Credential(op.account, op.verifier, op.validFrom, op.validUntil, op.startedAt, None, None, None));
      if failure.Some? { return failure.value; }
      ok := transaction.Advance(op.account, false, op.validFrom);
      RotatedView(Snapshot(), op);
      if !ok { return OutOfRange; }
      outcome := transaction.Conclude(this, op, true);
    }

    method RevokeAccount(op: Op) returns (outcome: Outcome)
      requires op.Revoke?
      modifies this
      ensures (Snapshot(), outcome) == Alone(old(Snapshot()), op)
    {
      var transaction := new Transaction(this);
      var current := transaction.LockAccount(op.organization, op.account);
      if current.None? { return NotFound; }
      if current.value.revision != op.expectedRevision { return RevisionConflict; }
      var changed := current.value.status != AccountStatus.Revoked;
      if changed {
        var ok := transaction.Advance(op.account, true, op.revokedAt);
        if !ok { return OutOfRange; }
        transaction.WithdrawCredentials(op);
      }
      outcome := transaction.Conclude(this, op, changed);
    }

    method MarkExchangeIssuing(op: Op) returns (outcome: Outcome)
      requires op.Admit?
      modifies this
      ensures (Snapshot(), outcome) == Alone(old(Snapshot()), op)
    {
      var transaction := new Transaction(this);
      if op.account !in transaction.view.accounts || transaction.view.accounts[op.account].status != Active {
        return NotAdmitted;
      }
      var row := transaction.RecheckCredential(op);
      if row.None? { return NotAdmitted; }
      transaction.RecordUse(op.credential, op.now);
      var ok := transaction.AdvanceCommand(op);
      if !ok { return NotAdmitted; }
      transaction.Commit(this);
      outcome := Admitted(row.value);
    }

    method ReserveRateSlot(caller: string, now: Time, window: int, max: int, lockout: int) returns (admitted: bool)
      modifies this`limits
      ensures (Snapshot(), Affected(admitted)) == Perform(old(Snapshot()), TakeSlot(caller, now, window, max, lockout))
      ensures caller in limits && forall c :: c != caller ==> (c in limits <==> c in old(limits)) && (c in limits ==> limits[c] == old(limits)[c])
      ensures var row := if caller in old(limits) then old(limits)[caller] else Limit(now, 0, None);
              var over := now >= row.windowStartedAt + window;
              if row.lockedUntil.Some? && now < row.lockedUntil.value then !admitted && limits[caller] == row
              else if !over && row.attempts >= max then
                !admitted && limits[caller] == row.(lockedUntil := Some(now + lockout))
              else if over && 0 >= max then !admitted && limits[caller] == row.(windowStartedAt := now, lockedUntil := Some(now + lockout))
              else
                admitted && limits[caller] == Limit(if over then now else row.windowStartedAt, if over then 1 else row.attempts + 1, None)
    {
      if caller !in limits { limits := limits[caller := Limit(now, 0, None)]; }
      var row := limits[caller];
      assert limits == limits[caller := row];
      var windowStartedAt, attempts := row.windowStartedAt, row.attempts;
      if row.lockedUntil.Some? && now < row.lockedUntil.value { return false; }
      if now >= windowStartedAt + window {
        windowStartedAt := now;
        attempts := 0;
      }
      if attempts >= max {
        limits := limits[caller := row.(windowStartedAt := windowStartedAt, lockedUntil := Some(now + lockout))];
        assert limits == old(limits)[caller := limits[caller]];
        return false;
      }
      limits := limits[caller := Limit(windowStartedAt, attempts + 1, None)];
      assert limits == old(limits)[caller := limits[caller]];
      return true;
    }

    /** The credential joined with its account. */
    method LoadCredential(id: string) returns (row: Option<CredentialRow>)
      ensures row.Some? <==> id in credentials && credentials[id].account in accounts
      ensures row.Some? ==> row.value == JoinCredential(id, credentials[id], accounts[credentials[id].account])
      ensures row.Some? ==>
                var c, a, r := credentials[id], accounts[credentials[id].account], row.value;
                && r.id == id && r.account == c.account && r.organization == a.organization && r.subject == a.subject
                && r.status == a.status && r.verifier == c.verifier
                && r.validFrom == c.validFrom && r.validUntil == c.validUntil && r.revokedAt == c.revokedAt
    {
      if id in credentials && credentials[id].account in accounts {
        row := Some(JoinCredential(id, credentials[id], accounts[credentials[id].account]));
      } else {
        row := None;
      }
    }

    /** The organization's first rows after the cursor, in id order. */
    method ListAccounts(organization: string, after: Option<string>, limit: nat) returns (rows: seq<AccountRow>)
      ensures IsFirst(Ids(rows), After(AccountsOf(Snapshot(), organization), after), limit)
      ensures forall i :: 0 <= i < |rows| ==> rows[i].id in accounts && rows[i] == LoadRow(Snapshot(), rows[i].id)
      ensures forall i :: 0 <= i < |rows| ==> Shows(Snapshot(), rows[i])
    {
      ghost var keys := After(AccountsOf(Snapshot(), organization), after);
      var rest := After(AccountsOf(Snapshot(), organization), after);
      rows := [];
      while |rows| < limit && rest != {}
        invariant FirstSoFar(Ids(rows), keys, rest) && |rows| <= limit
        invariant forall i :: 0 <= i < |rows| ==> rows[i].id in accounts && rows[i] == LoadRow(Snapshot(), rows[i].id)
        decreases |rest|
      {
        LeastExists(rest);
        var next :| next in rest && IsLeast(rest, next);
        TakeLeast(Ids(rows), keys, rest, next);
        assert Ids(rows + [LoadRow(Snapshot(), next)]) == Ids(rows) + [next];
        rows := rows + [LoadRow(Snapshot(), next)];
        rest := rest - {next};
      }
      FirstIsFirst(Ids(rows), keys, rest, limit);
      forall i | 0 <= i < |rows| ensures Shows(Snapshot(), rows[i]) {
        LoadedShows(Snapshot(), rows[i].id);
      }
    }

    /** One page of `list`: one row more than asked for tells whether there is another. */
    method List(organization: string, after: Option<string>, limit: nat) returns (page: Page)
      requires limit > 0
      ensures var keys := After(AccountsOf(Snapshot(), organization), after);
              && IsFirst(Ids(page.rows), keys, limit)
              && page.nextCursor == (if |keys| > limit then Cursor(Ids(page.rows)) else None)
      ensures forall i :: 0 <= i < |page.rows| ==>
                page.rows[i].id in accounts && page.rows[i] == LoadRow(Snapshot(), page.rows[i].id)
      ensures forall i :: 0 <= i < |page.rows| ==> Shows(Snapshot(), page.rows[i])
    {
      var rows := ListAccounts(organization, after, limit + 1);
      ghost var keys := After(AccountsOf(Snapshot(), organization), after);
      ghost var all := Ids(rows);
      var hasMore := |rows| > limit;
      if hasMore {
        rows := rows[..limit];
        assert Ids(rows) == all[..limit];
        Truncated(all, keys, limit);
      }
      var nextCursor := if hasMore then Some(rows[|rows| - 1].id) else None;
      page := Page(rows, nextCursor);
    }
  }

  /** An open transaction: the committed rows overlaid with its own writes. Dropping
      it without `Commit` is the rollback. */
  class Transaction {
    var view: Db

    constructor (store: Store)
      ensures view == store.Snapshot()
    {
      view := store.Snapshot();
    }

    method Commit(store: Store)
      modifies store
      ensures store.Snapshot() == view
    {
      store.accounts, store.credentials, store.commands, store.limits :=
        view.accounts, view.credentials, view.commands, view.limits;
    }

    /** Checks and unique indexes decide in the order they were declared. */
    method InsertAccount(id: string, a: Account) returns (failure: Option<Outcome>)
      modifies this
      ensures failure ==
        (if !AccountCheck(id, a) then Some(CheckViolation)
         else if id in old(view).accounts then Some(UniqueViolation(AccountKey))
         else if AccountsWithSubject(old(view), a.subject) != {} then Some(UniqueViolation(SubjectUnique))
         else if AccountsNamed(old(view), a.organization, a.nameKey) != {} then Some(UniqueViolation(NameUnique))
         else None)
      ensures view == if failure.Some? then old(view) else old(view).(accounts := old(view).accounts[id := a])
    {
      if !AccountCheck(id, a) { return Some(CheckViolation); }
      if id in view.accounts { return Some(UniqueViolation(AccountKey)); }
      if AccountsWithSubject(view, a.subject) != {} { return Some(UniqueViolation(SubjectUnique)); }
      if AccountsNamed(view, a.organization, a.nameKey) != {} { return Some(UniqueViolation(NameUnique)); }
      view := view.(accounts := view.accounts[id := a]);
      return None;
    }

    method InsertCredential(id: string, c: Credential) returns (failure: Option<Outcome>)
      modifies this
      ensures failure ==
        (if !CredentialCheck(id, c) then Some(CheckViolation)
         else if id in old(view).credentials then Some(UniqueViolation(CredentialKey))
         else None)
      ensures view == if failure.Some? then old(view) else old(view).(credentials := old(view).credentials[id := c])
    {
      if !CredentialCheck(id, c) { return Some(CheckViolation); }
      if id in view.credentials { return Some(UniqueViolation(CredentialKey)); }
      view := view.(credentials := view.credentials[id := c]);
      return None;
    }

    method LockAccount(organization: string, id: string) returns (row: Option<AccountRow>)
      ensures row.Some? <==> id in view.accounts && view.accounts[id].organization == organization
      ensures row.Some? ==> row.value == LoadRow(view, id)
    {
      if id in view.accounts && view.accounts[id].organization == organization {
        row := Some(LoadRow(view, id));
      } else {
        row := None;
      }
    }

    /** Cut the live credentials short; a cut below its start violates the CHECK. */
    method BoundCredentials(op: Op) returns (ok: bool)
      requires op.Rotate?
      modifies this
      ensures ok <==> forall c :: c in BoundRows(old(view), op) ==> CredentialCheck(c, BoundRows(old(view), op)[c])
      ensures view == if ok then old(view).(credentials := old(view).credentials + BoundRows(old(view), op)) else old(view)
      ensures ok ==> CredentialsBecome(old(view), op.account, view, (c, d) => CutTo(op.validFrom, op.overlapUntil, c, d))
    {
      var rows := map c | c in view.credentials
                          && view.credentials[c].account == op.account && view.credentials[c].revokedAt.None?
                          && view.credentials[c].validUntil > op.validFrom
        :: view.credentials[c].(validUntil := Min(view.credentials[c].validUntil, op.overlapUntil),
                                supersededAt := Coalesce(view.credentials[c].supersededAt, op.validFrom));
      assert rows == BoundRows(view, op);
      ok := forall c :: c in rows ==> CredentialCheck(c, rows[c]);
      if ok { view := view.(credentials := view.credentials + rows); }
    }

    method WithdrawCredentials(op: Op)
      requires op.Revoke?
      modifies this
      ensures view == old(view).(credentials := old(view).credentials + WithdrawnRows(old(view), op))
      ensures SoundRows(old(view)) ==>
                CredentialsBecome(old(view), op.account, view, (c, d) => WithdrawnTo(op.revokedAt, c, d))
    {
      var rows := map c | c in view.credentials && view.credentials[c].account == op.account
        :: view.credentials[c].(revokedAt := Coalesce(view.credentials[c].revokedAt, op.revokedAt),
                                validUntil := Max(view.credentials[c].validFrom, Min(view.credentials[c].validUntil, op.revokedAt)));
      assert rows == WithdrawnRows(view, op);
      view := view.(credentials := view.credentials + rows);
    }

    /** The account row of a rotation or a revocation; the revision may overflow. */
    method Advance(id: string, revoke: bool, at: Time) returns (ok: bool)
      requires id in view.accounts
      modifies this
      ensures ok <==> old(view).accounts[id].revision < MAX_BIGINT
      ensures view == if !ok then old(view) else
                old(view).(accounts := old(view).accounts[id :=
                  if revoke then Withdrawn(old(view).accounts[id], at) else Rotated(old(view).accounts[id], at)])
    {
      var a := view.accounts[id];
      ok := a.revision < MAX_BIGINT;
      if ok && revoke {
        view := view.(accounts := view.accounts[id := a.(status := AccountStatus.Revoked, revision := a.revision + 1, revokedAt := Some(at))]);
      } else if ok {
        view := view.(accounts := view.accounts[id := a.(revision := a.revision + 1, rotatedAt := Some(at))]);
      }
    }

    method CompleteSuccess(key: CommandKey, receipt: Sealed, at: Time) returns (ok: bool)
      modifies this
      ensures ok <==> OpenCommand(old(view), key)
      ensures view == if ok then Completed(old(view), key, receipt, at) else old(view)
    {
      ok := key in view.commands && view.commands[key].state.Completable();
      if ok { view := view.(commands := view.commands[key := view.commands[key].(state := CompletedSuccess(receipt, at))]); }
    }

    /** Reread the account, seal its receipt, complete the command and commit. */
    method Conclude(store: Store, op: Op, changed: bool) returns (outcome: Outcome)
      requires !op.Admit?
      modifies this, store
      ensures
        if op.account in old(view).accounts && OpenCommand(old(view), op.command) then
          var row := LoadRow(old(view), op.account);
          && outcome == Changed(row, changed)
          && store.Snapshot() == Completed(old(view), op.command, Receipt(op.aad, row, changed), op.startedAt)
        else outcome == InvariantFailure && store.Snapshot() == old(store.Snapshot())
    {
      if op.account !in view.accounts { return InvariantFailure; }
      var row := LoadRow(view, op.account);
      var receipt := Sealed(op.aad, ChangeBody(row, changed, None));
      var ok := CompleteSuccess(op.command, receipt, op.startedAt);
      if !ok { return InvariantFailure; }
      Commit(store);
      return Changed(row, changed);
    }

    method RecheckCredential(op: Op) returns (row: Option<CredentialRow>)
      requires op.Admit?
      ensures row.Some? <==> Admissible(view, op)
      ensures row.Some? ==> row.value == JoinCredential(op.credential, view.credentials[op.credential], view.accounts[op.account])
    {
      row := None;
      if op.credential in view.credentials && op.account in view.accounts {
        var c, a := view.credentials[op.credential], view.accounts[op.account];
        if c.account == op.account && a.status == Active && c.revokedAt.None? && c.validFrom <= op.now && c.validUntil > op.now {
          row := Some(JoinCredential(op.credential, c, a));
        }
      }
    }

    method RecordUse(id: string, now: Time)
      requires id in view.credentials
      modifies this
      ensures view == old(view).(credentials :=
                old(view).credentials[id := old(view).credentials[id].(lastUsedAt := Some(now))])
    {
      view := view.(credentials := view.credentials[id := view.credentials[id].(lastUsedAt := Some(now))]);
    }

    /** From `reserved` to `issuing`, and from nothing else. */
    method AdvanceCommand(op: Op) returns (ok: bool)
      requires op.Admit?
      modifies this
      ensures var key := CommandOf(op);
              && (ok <==> key in old(view).commands && old(view).commands[key].state.Reserved?
                          && op.credential in old(view).credentials)
              && view == if ok then old(view).(commands := old(view).commands[key := old(view).commands[key].(state := Issuing)])
                         else old(view)
    {
      var key := CommandKey(op.caller, ExchangeSecret, op.key);
      ok := key in view.commands && view.commands[key].state.Reserved? && op.credential in view.credentials;
      if ok { view := view.(commands := view.commands[key := view.commands[key].(state := Issuing)]); }
    }
  }

  lemma RotatedView(db: Db, op: Op)
    requires op.Rotate? && op.account in db.accounts
    ensures RotatedTables(db, op) ==
      db.(credentials := (db.credentials + BoundRows(db, op))[op.credential := NewCredential(op)],
          accounts := db.accounts[op.account := Rotated(db.accounts[op.account], op.validFrom)])
  {
  }

  predicate SoundRows(db: Db) {
    forall c :: c in db.credentials ==> db.credentials[c].validFrom <= db.credentials[c].validUntil
  }

  /** The account's credentials are rewritten so, and the others are as they were. */
  ghost predicate CredentialsBecome(db: Db, account: string, t: Db, to: (Credential, Credential) -> bool) {
    && t.credentials.Keys == db.credentials.Keys
    && forall c :: c in db.credentials ==>
         if db.credentials[c].account == account then to(db.credentials[c], t.credentials[c])
         else t.credentials[c] == db.credentials[c]
  }

  // Selecting rows in id order

  predicate IsLeast(keys: set<string>, x: string) {
    x in keys && forall k :: k in keys ==> k == x || Less(x, k)
  }

  lemma {:induction false} LeastExists(keys: set<string>)
    requires keys != {}
    ensures exists x :: IsLeast(keys, x)
    ensures forall x, y :: IsLeast(keys, x) && IsLeast(keys, y) ==> x == y
    decreases |keys|
  {
    forall x, y | IsLeast(keys, x) && IsLeast(keys, y) ensures x == y {
      if x != y { LessIsAsymmetric(x, y); }
    }
    var x :| x in keys;
    var rest := keys - {x};
    if rest == {} {
      assert forall k :: k in keys && k != x ==> k in rest;
      assert IsLeast(keys, x);
    } else {
      LeastExists(rest);
      var y :| IsLeast(rest, y);
      assert forall k :: k in keys && k != x ==> k in rest;
      LessIsTotal(x, y);
      if Less(x, y) {
        forall k | k in keys ensures k == x || Less(x, k) {
          if k != x && k != y { LessIsTransitive(x, y, k); }
        }
        assert IsLeast(keys, x);
      } else {
        assert IsLeast(keys, y);
      }
    }
  }

  /** `ids` were taken in order, `rest` is left, all of it beyond them. */
  ghost predicate FirstSoFar(ids: seq<string>, keys: set<string>, rest: set<string>) {
    && Increasing(ids) && rest <= keys && |ids| + |rest| == |keys|
    && (forall k :: k in keys <==> k in ids || k in rest)
    && (forall k, i :: k in rest && 0 <= i < |ids| ==> Less(ids[i], k))
  }

  lemma TakeLeast(ids: seq<string>, keys: set<string>, rest: set<string>, next: string)
    requires FirstSoFar(ids, keys, rest) && IsLeast(rest, next)
    ensures FirstSoFar(ids + [next], keys, rest - {next})
  {
  }

  lemma FirstIsFirst(ids: seq<string>, keys: set<string>, rest: set<string>, limit: nat)
    requires FirstSoFar(ids, keys, rest) && |ids| <= limit && (|ids| == limit || rest == {})
    ensures IsFirst(ids, keys, limit)
  {
  }

  lemma Truncated(ids: seq<string>, keys: set<string>, limit: nat)
    requires IsFirst(ids, keys, limit + 1) && |ids| > limit
    ensures IsFirst(ids[..limit], keys, limit) && |keys| > limit
  {
    forall k, i | k in keys && k !in ids[..limit] && 0 <= i < limit ensures Less(ids[i], k) {
      if k in ids { assert k == ids[limit]; }
    }
  }
}
