/** Whole runs: what any history of actions, in any order, with receipts pruned at
    any time, leaves true of accounts, credentials and admissions. */
module Histories {
  import opened Tables
  import opened Transactions
  import opened Atomic
  import opened Interleaving
  import opened Guarantees

  predicate ConfiguredHistory(cfg: Limits, h: seq<Entry>) {
    forall i :: 0 <= i < |h| ==> ConfiguredAction(cfg, h[i].action)
  }

  /** A history some run produced, starting from empty tables. */
  ghost predicate Possible(cfg: Limits, h: seq<Entry>) {
    cfg.Valid() && ConfiguredHistory(cfg, h) && Faithful(EmptyDb, h)
  }

  /** The committed tables after the first `i` entries. */
  function At(h: seq<Entry>, i: nat): Db
    requires i <= |h|
  {
    Replay(EmptyDb, h[..i])
  }

  lemma {:induction false} TablesAt(cfg: Limits, h: seq<Entry>, i: nat)
    requires cfg.Valid() && ConfiguredHistory(cfg, h) && i <= |h|
    ensures TablesInv(cfg, At(h, i))
  {
    if i == 0 {
      assert forall o :: AccountsOf(EmptyDb, o) == {};
    } else {
      TablesAt(cfg, h, i - 1);
      assert h[..i][..i - 1] == h[..i - 1];
      ActionKeeps(cfg, At(h, i - 1), h[i - 1].action);
    }
  }

  lemma {:induction false} ResultAt(h: seq<Entry>, n: nat, i: nat)
    requires i < n <= |h| && Faithful(EmptyDb, h[..n])
    ensures Perform(At(h, i), h[i].action) == (At(h, i + 1), h[i].result)
    decreases n
  {
    assert h[..n][..n - 1] == h[..n - 1];
    if i < n - 1 { ResultAt(h, n - 1, i); }
  }

  lemma EntryAt(cfg: Limits, h: seq<Entry>, i: nat)
    requires Possible(cfg, h) && i < |h|
    ensures Perform(At(h, i), h[i].action) == (At(h, i + 1), h[i].result)
    ensures TablesInv(cfg, At(h, i)) && TablesInv(cfg, At(h, i + 1))
  {
    assert h[..|h|] == h;
    ResultAt(h, |h|, i);
    TablesAt(cfg, h, i);
    TablesAt(cfg, h, i + 1);
  }

  /** The invariant of the tables holds of every committed state of every
      interleaved run. */
  lemma EveryRunKeepsTables(cfg: Limits, es: seq<Event>)
    requires cfg.Valid() && Legal(Sys(EmptyDb, map[], []), es)
    requires ConfiguredHistory(cfg, Final(Sys(EmptyDb, map[], []), es).history)
    ensures Possible(cfg, Final(Sys(EmptyDb, map[], []), es).history)
    ensures TablesInv(cfg, Final(Sys(EmptyDb, map[], []), es).db)
  {
    Serializable(EmptyDb, es);
    var h := Final(Sys(EmptyDb, map[], []), es).history;
    TablesAt(cfg, h, |h|);
    assert h[..|h|] == h;
  }

  // What only ever moves one way

  predicate AccountLater(a: Account, b: Account) {
    && b.organization == a.organization && b.subject == a.subject
    && b.name == a.name && b.nameKey == a.nameKey && b.createdAt == a.createdAt
    && a.revision <= b.revision
    && (a.status == AccountStatus.Revoked ==> b == a)
  }

  /** Validity never grows, and being superseded or revoked is for good. */
  predicate CredentialLater(c: Credential, d: Credential) {
    && d.account == c.account && d.verifier == c.verifier && d.validFrom == c.validFrom && d.createdAt == c.createdAt
    && d.validUntil <= c.validUntil
    && (c.supersededAt.Some? ==> d.supersededAt == c.supersededAt)
    && (c.revokedAt.Some? ==> d.revokedAt == c.revokedAt)
  }

  /** No row disappears; every row only moves forward. */
  predicate Later(db: Db, t: Db) {
    && (forall x :: x in db.accounts ==> x in t.accounts && AccountLater(db.accounts[x], t.accounts[x]))
    && (forall c :: c in db.credentials ==> c in t.credentials && CredentialLater(db.credentials[c], t.credentials[c]))
  }

  lemma LaterIsTransitive(a: Db, b: Db, c: Db)
    requires Later(a, b) && Later(b, c)
    ensures Later(a, c)
  {
    forall x | x in a.accounts ensures x in c.accounts && AccountLater(a.accounts[x], c.accounts[x]) {
      assert AccountLater(a.accounts[x], b.accounts[x]) && AccountLater(b.accounts[x], c.accounts[x]);
    }
    forall x | x in a.credentials ensures x in c.credentials && CredentialLater(a.credentials[x], c.credentials[x]) {
      assert CredentialLater(a.credentials[x], b.credentials[x]) && CredentialLater(b.credentials[x], c.credentials[x]);
    }
  }

  lemma RevokeLater(db: Db, op: Op, t: Db)
    requires op.Revoke? && Revokes(db, op) && SameRows(t, RevokedTables(db, op)) && CredentialsInv(db)
    ensures Later(db, t)
  {
    forall c | c in db.credentials ensures c in t.credentials && CredentialLater(db.credentials[c], t.credentials[c]) {
      assert CredentialInv(db, c);
    }
  }

  lemma CreateLater(db: Db, op: Op, t: Db)
    requires op.Create? && Creates(db, op) && SameRows(t, CreatedTables(db, op))
    ensures Later(db, t)
  {
  }

  lemma RotateLater(db: Db, op: Op, t: Db)
    requires op.Rotate? && Rotates(db, op) && SameRows(t, RotatedTables(db, op))
    ensures Later(db, t)
  {
  }

  lemma AdmitLater(db: Db, op: Op, t: Db)
    requires op.Admit? && Uses(db, op, t)
    ensures Later(db, t)
  {
  }

  lemma TransactionLater(db: Db, op: Op)
    requires CredentialsInv(db)
    ensures Later(db, Alone(db, op).0)
  {
    var t := Alone(db, op).0;
    if !SameRows(t, db) {
      match op
      case Create(_, _, _, _, _, _, _, _, _, _, _, _, _) => CreateOutcome(db, op); CreateLater(db, op, t);
      case Rotate(_, _, _, _, _, _, _, _, _, _, _) => RotateOutcome(db, op); RotateLater(db, op, t);
      case Revoke(_, _, _, _, _, _, _) => RevokeOutcome(db, op); RevokeLater(db, op, t);
      case Admit(_, _, _, _, _) => AdmitOutcome(db, op); AdmitLater(db, op, t);
    }
  }

  lemma ActionLater(db: Db, a: Action)
    requires CredentialsInv(db)
    ensures Later(db, Perform(db, a).0)
  {
    if a.Transact? {
      StatementsCompose(db, a.op);
      TransactionLater(db, a.op);
    }
  }

  lemma EntryMovesForward(cfg: Limits, h: seq<Entry>, i: nat)
    requires Possible(cfg, h) && i < |h|
    ensures Later(At(h, i), At(h, i + 1))
  {
    EntryAt(cfg, h, i);
    ActionLater(At(h, i), h[i].action);
  }

  lemma {:induction false} HistoryMovesForward(cfg: Limits, h: seq<Entry>, i: nat, j: nat)
    requires Possible(cfg, h) && i <= j <= |h|
    ensures Later(At(h, i), At(h, j))
    decreases j
  {
    if i < j {
      HistoryMovesForward(cfg, h, i, j - 1);
      EntryMovesForward(cfg, h, j - 1);
      LaterIsTransitive(At(h, i), At(h, j - 1), At(h, j));
    }
  }

  // Effects happen at most once

  predicate Effective(e: Entry) {
    && e.action.Transact? && e.result.Transacted?
    && e.result.outcome.Changed? && e.result.outcome.changed
  }

  lemma EffectiveIs(cfg: Limits, h: seq<Entry>, i: nat)
    requires Possible(cfg, h) && i < |h| && Effective(h[i])
    ensures var op := h[i].action.op;
            && (op.Create? ==> Creates(At(h, i), op) && SameRows(At(h, i + 1), CreatedTables(At(h, i), op)))
            && (op.Rotate? ==> Rotates(At(h, i), op) && SameRows(At(h, i + 1), RotatedTables(At(h, i), op)))
            && (op.Revoke? ==> Revokes(At(h, i), op) && SameRows(At(h, i + 1), RevokedTables(At(h, i), op)))
            && !op.Admit?
  {
    EntryAt(cfg, h, i);
    var op := h[i].action.op;
    StatementsCompose(At(h, i), op);
    match op
    case Create(_, _, _, _, _, _, _, _, _, _, _, _, _) => CreateOutcome(At(h, i), op);
    case Rotate(_, _, _, _, _, _, _, _, _, _, _) => RotateOutcome(At(h, i), op);
    case Revoke(_, _, _, _, _, _, _) => RevokeOutcome(At(h, i), op);
    case Admit(_, _, _, _, _) => AdmitOutcome(At(h, i), op);
  }

  /** Effective rotations and revocations of one account are expected at strictly
      increasing revisions, so re-sending a request can never take effect twice,
      not even after its receipt is gone. */
  lemma OneChangePerRevision(cfg: Limits, h: seq<Entry>, i: nat, j: nat)
    requires Possible(cfg, h) && i < j < |h| && Effective(h[i]) && Effective(h[j])
    requires !h[i].action.op.Create? && !h[j].action.op.Create?
    requires h[i].action.op.account == h[j].action.op.account
    ensures !h[i].action.op.Admit? && !h[j].action.op.Admit?
    ensures h[i].action.op.expectedRevision < h[j].action.op.expectedRevision
  {
    EffectiveIs(cfg, h, i);
    EffectiveIs(cfg, h, j);
    HistoryMovesForward(cfg, h, i + 1, j);
    var x := h[i].action.op.account;
    assert AccountLater(At(h, i + 1).accounts[x], At(h, j).accounts[x]);
  }

  /** Two effective creations differ in account, subject, and name within the
      organization. */
  lemma OneAccountPerName(cfg: Limits, h: seq<Entry>, i: nat, j: nat)
    requires Possible(cfg, h) && i < j < |h| && Effective(h[i]) && Effective(h[j])
    requires h[i].action.op.Create? && h[j].action.op.Create?
    ensures var a, b := h[i].action.op, h[j].action.op;
            a.account != b.account && a.subject != b.subject
            && (a.organization != b.organization || Text.Lower(a.name) != Text.Lower(b.name))
  {
    EffectiveIs(cfg, h, i);
    EffectiveIs(cfg, h, j);
    HistoryMovesForward(cfg, h, i + 1, j);
    var x := h[i].action.op.account;
    assert AccountLater(At(h, i + 1).accounts[x], At(h, j).accounts[x]);
    NewSubjectAndName(At(h, j), h[j].action.op, x);
  }

  function Changes(h: seq<Entry>, x: string): nat {
    if h == [] then 0
    else Changes(h[..|h| - 1], x) + if Effective(h[|h| - 1]) && h[|h| - 1].action.op.account == x then 1 else 0
  }

  lemma IneffectiveKeepsAccounts(db: Db, op: Op)
    requires !(Alone(db, op).1.Changed? && Alone(db, op).1.changed)
    ensures Alone(db, op).0.accounts == db.accounts
  {
  }

  function RevisionOf(db: Db, x: string): int {
    if x in db.accounts then db.accounts[x].revision else 0
  }

  lemma ActionKeepsAccounts(db: Db, a: Action)
    requires var r := Perform(db, a).1; !(a.Transact? && r.Transacted? && r.outcome.Changed? && r.outcome.changed)
    ensures Perform(db, a).0.accounts == db.accounts
  {
    if a.Transact? {
      StatementsCompose(db, a.op);
      IneffectiveKeepsAccounts(db, a.op);
    }
  }

  lemma RevisionStep(cfg: Limits, h: seq<Entry>, i: nat, x: string)
    requires Possible(cfg, h) && i < |h|
    ensures RevisionOf(At(h, i + 1), x)
      == RevisionOf(At(h, i), x) + if Effective(h[i]) && h[i].action.op.account == x then 1 else 0
  {
    if Effective(h[i]) {
      EffectiveIs(cfg, h, i);
    } else {
      assert h[..|h|] == h;
      ResultAt(h, |h|, i);
      ActionKeepsAccounts(At(h, i), h[i].action);
    }
  }

  /** An account's revision is the number of effective changes since, and
      including, its creation. */
  lemma {:induction false} RevisionCountsChanges(cfg: Limits, h: seq<Entry>, n: nat, x: string)
    requires Possible(cfg, h) && n <= |h|
    ensures Changes(h[..n], x) == RevisionOf(At(h, n), x)
    decreases n
  {
    if n > 0 {
      RevisionCountsChanges(cfg, h, n - 1, x);
      RevisionStep(cfg, h, n - 1, x);
      assert h[..n][..n - 1] == h[..n - 1];
    }
  }

  // Admissions

  predicate IsAdmission(e: Entry) {
    e.action.Transact? && e.action.op.Admit? && e.result.Transacted? && e.result.outcome.Admitted?
  }

  lemma AdmissionIs(cfg: Limits, h: seq<Entry>, i: nat)
    requires Possible(cfg, h) && i < |h| && IsAdmission(h[i])
    ensures var op, db := h[i].action.op, At(h, i);
            Admissible(db, op) && h[i].result.outcome.credential
              == JoinCredential(op.credential, db.credentials[op.credential], db.accounts[op.account])
  {
    EntryAt(cfg, h, i);
    StatementsCompose(At(h, i), h[i].action.op);
    AdmitOutcome(At(h, i), h[i].action.op);
  }

  /** Once a revocation of the account has committed, nothing is admitted. */
  lemma NoAdmissionAfterRevocation(cfg: Limits, h: seq<Entry>, i: nat, j: nat)
    requires Possible(cfg, h) && i < j < |h| && Effective(h[i]) && h[i].action.op.Revoke? && IsAdmission(h[j])
    ensures h[j].action.op.account != h[i].action.op.account
  {
    EffectiveIs(cfg, h, i);
    HistoryMovesForward(cfg, h, i + 1, j);
    AdmissionIs(cfg, h, j);
    var x := h[i].action.op.account;
    assert AccountLater(At(h, i + 1).accounts[x], At(h, j).accounts[x]);
  }

  /** An admitted credential is inside its validity, which is no longer than the
      credential lifetime, and no later than the overlap after any rotation that
      committed after the credential existed and before the admission. */
  lemma AdmissionWithinValidity(cfg: Limits, h: seq<Entry>, j: nat)
    requires Possible(cfg, h) && j < |h| && IsAdmission(h[j])
    ensures var row := h[j].result.outcome.credential;
            && row.validFrom <= h[j].action.op.now < row.validUntil <= row.validFrom + cfg.credentialTtl
            && row.id in At(h, j).credentials
            && (At(h, j).credentials[row.id].supersededAt.Some? ==>
                  row.validUntil <= At(h, j).credentials[row.id].supersededAt.value + cfg.rotationOverlap)
  {
    AdmissionIs(cfg, h, j);
    TablesAt(cfg, h, j);
    var op := h[j].action.op;
    assert AccountRowsInv(cfg, At(h, j), op.account);
    assert op.credential in CredentialsOf(At(h, j), op.account);
    assert CredentialBounds(cfg, CredentialsOf(At(h, j), op.account)[op.credential]);
  }

  lemma AdmissionWithinOverlap(cfg: Limits, h: seq<Entry>, i: nat, j: nat)
    requires Possible(cfg, h) && i < j < |h| && IsAdmission(h[j])
    requires Effective(h[i]) && h[i].action.op.Rotate? && h[i].action.op.account == h[j].action.op.account
    requires h[j].action.op.credential in At(h, i).credentials
    ensures h[j].result.outcome.credential.validUntil <= h[i].action.op.validFrom + cfg.rotationOverlap
  {
    EffectiveIs(cfg, h, i);
    HistoryMovesForward(cfg, h, i, i + 1);
    HistoryMovesForward(cfg, h, i + 1, j);
    AdmissionIs(cfg, h, j);
    var c, r := h[j].action.op.credential, h[i].action.op;
    assert CredentialLater(At(h, i).credentials[c], At(h, i + 1).credentials[c]);
    assert CredentialLater(At(h, i + 1).credentials[c], At(h, j).credentials[c]);
    RotationCaps(cfg, At(h, i), r, At(h, i + 1), c);
  }

  lemma RotationCaps(cfg: Limits, db: Db, op: Op, t: Db, c: string)
    requires cfg.Valid() && op.Rotate? && Configured(cfg, op) && Rotates(db, op) && SameRows(t, RotatedTables(db, op))
    requires c in db.credentials && db.credentials[c].account == op.account
    ensures c in t.credentials && PhasedOut(cfg, t.credentials[c], op.validFrom)
  {
  }

  /** Every credential an account had when a rotation took effect is, ever after,
      revoked or out of use once the overlap has passed: only credentials inserted by
      that rotation or a later one can outlive it. */
  lemma RotationOutlasts(cfg: Limits, h: seq<Entry>, i: nat, j: nat, c: string)
    requires Possible(cfg, h) && i < j <= |h| && Effective(h[i]) && h[i].action.op.Rotate?
    requires c in At(h, i).credentials && At(h, i).credentials[c].account == h[i].action.op.account
    ensures c in At(h, j).credentials && PhasedOut(cfg, At(h, j).credentials[c], h[i].action.op.validFrom)
  {
    EffectiveIs(cfg, h, i);
    RotationCaps(cfg, At(h, i), h[i].action.op, At(h, i + 1), c);
    HistoryMovesForward(cfg, h, i + 1, j);
    assert CredentialLater(At(h, i + 1).credentials[c], At(h, j).credentials[c]);
  }

  /** `revoke_account` has no branch for an account that is already revoked: with
      the current revision it answers, unchanged; otherwise it is a conflict. */
  lemma RevokeNeverReportsRevoked(db: Db, op: Op)
    requires op.Revoke?
    ensures Serial(db, op).1 != AlreadyRevoked
    ensures op.account in db.accounts && db.accounts[op.account].organization == op.organization
            && db.accounts[op.account].status == AccountStatus.Revoked ==>
              SameRows(Serial(db, op).0, db)
              && (Serial(db, op).1 == RevisionConflict <==> db.accounts[op.account].revision != op.expectedRevision)
  {
    StatementsCompose(db, op);
  }

  /** A live credential that starts only after the overlap of this rotation. */
  predicate StartsTooLate(db: Db, op: Op, c: string)
    requires op.Rotate?
  {
    && c in db.credentials && db.credentials[c].account == op.account
    && Live(db.credentials[c], op.validFrom) && op.overlapUntil < db.credentials[c].validFrom
  }

  /** A rotation that reaches its UPDATE with a clock reading so far behind that a
      live credential starts after the overlap is aborted by the CHECK; and with a
      well-formed new credential nothing else makes it abort so. */
  lemma RotationBehindAborts(db: Db, op: Op)
    requires op.Rotate? && CredentialsInv(db) && CredentialCheck(op.credential, NewCredential(op))
    requires op.account in db.accounts && db.accounts[op.account].organization == op.organization
    requires db.accounts[op.account].status == Active && db.accounts[op.account].revision == op.expectedRevision
    ensures Serial(db, op).1 == CheckViolation <==> exists c :: StartsTooLate(db, op, c)
    ensures Serial(db, op).1 == CheckViolation ==> Serial(db, op).0 == db
  {
    StatementsCompose(db, op);
    var bounded := BoundRows(db, op);
    if c :| StartsTooLate(db, op, c) {
      assert c in bounded && !CredentialCheck(c, bounded[c]);
    }
    if c :| c in bounded && !CredentialCheck(c, bounded[c]) {
      assert CredentialInv(db, c);
      assert StartsTooLate(db, op, c);
    }
  }
}
