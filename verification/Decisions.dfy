/** What every step of a worker decides, told from the request, the tables and the
    earlier entries: exactly when each error is due, when a change succeeds, and what a
    session is made of. */
module Decisions {
  import opened Text
  import opened Tables
  import opened Tokens
  import opened Secrets
  import opened Transactions
  import opened Atomic
  import opened Interleaving
  import opened RateLimiter
  import opened Guarantees
  import opened Histories
  import opened Protocol
  import W = Workers
  import I = Issuance

  // The tables as a request meets them

  predicate Present(db: Db, organization: string, account: string) {
    account in db.accounts && db.accounts[account].organization == organization
  }

  predicate Full(cfg: Limits, db: Db, organization: string) {
    |set x | x in db.accounts && db.accounts[x].organization == organization| >= cfg.maxAccounts
  }

  predicate SubjectTaken(db: Db, subject: string) {
    exists x :: x in db.accounts && db.accounts[x].subject == subject
  }

  predicate NameTaken(db: Db, organization: string, name: string) {
    exists x :: x in db.accounts && db.accounts[x].organization == organization && SameIgnoringCase(db.accounts[x].name, name)
  }

  /** A live credential of the account that begins only after the overlap. */
  predicate BeginsTooLate(cfg: Limits, db: Db, account: string, now: Time, c: string) {
    && c in db.credentials && db.credentials[c].account == account
    && db.credentials[c].revokedAt.None? && now < db.credentials[c].validUntil
    && now + cfg.rotationOverlap < db.credentials[c].validFrom
  }

  // What the transactions answer

  lemma Conflicts(db: Db, op: Op)
    requires op.Create?
    ensures AccountsOf(db, op.organization) == set x | x in db.accounts && db.accounts[x].organization == op.organization
    ensures AccountsWithSubject(db, op.subject) != {} <==> SubjectTaken(db, op.subject)
  {
    if SubjectTaken(db, op.subject) {
      var x :| x in db.accounts && db.accounts[x].subject == op.subject;
      assert x in AccountsWithSubject(db, op.subject);
    }
    if x :| x in AccountsWithSubject(db, op.subject) {
      assert x in db.accounts && db.accounts[x].subject == op.subject;
    }
  }

  lemma NameConflicts(cfg: Limits, db: Db, organization: string, name: string)
    requires TablesInv(cfg, db)
    ensures AccountsNamed(db, organization, Lower(name)) != {} <==> NameTaken(db, organization, name)
  {
    forall x | x in db.accounts
      ensures db.accounts[x].nameKey == Lower(name) <==> SameIgnoringCase(db.accounts[x].name, name) {
      assert AccountRowsInv(cfg, db, x);
      LowerIgnoresCase(db.accounts[x].name, name);
    }
    if x :| x in db.accounts && db.accounts[x].organization == organization && SameIgnoringCase(db.accounts[x].name, name) {
      assert x in AccountsNamed(db, organization, Lower(name));
    }
    if x :| x in AccountsNamed(db, organization, Lower(name)) {
      assert SameIgnoringCase(db.accounts[x].name, name);
    }
  }

  lemma CreateAnswers(cfg: Limits, db: Db, op: Op)
    requires op.Create? && Configured(cfg, op) && TablesInv(cfg, db) && OpenCommand(db, op.command)
    requires op.nameKey == Lower(op.name) && AccountCheck(op.account, NewAccount(op)) && CredentialCheck(op.credential, NewCredential(op))
    ensures var r := Alone(db, op).1;
            if Full(cfg, db, op.organization) then r == LimitReached
            else if op.account in db.accounts then r == UniqueViolation(AccountKey)
            else if SubjectTaken(db, op.subject) then r == UniqueViolation(SubjectUnique)
            else if NameTaken(db, op.organization, op.name) then r == UniqueViolation(NameUnique)
            else if op.credential in db.credentials then r == UniqueViolation(CredentialKey)
            else r.Changed? && r.changed
  {
    Conflicts(db, op);
    NameConflicts(cfg, db, op.organization, op.name);
  }

  lemma CutsAreTooLate(cfg: Limits, db: Db, op: Op)
    requires op.Rotate? && Configured(cfg, op) && CredentialsInv(db)
    ensures (exists c :: c in BoundRows(db, op) && !CredentialCheck(c, BoundRows(db, op)[c]))
              <==> (exists c :: BeginsTooLate(cfg, db, op.account, op.validFrom, c))
  {
    var rows := BoundRows(db, op);
    if c :| c in rows && !CredentialCheck(c, rows[c]) {
      assert CredentialInv(db, c);
      assert BeginsTooLate(cfg, db, op.account, op.validFrom, c);
    }
    if c :| BeginsTooLate(cfg, db, op.account, op.validFrom, c) {
      assert c in rows && !CredentialCheck(c, rows[c]);
    }
  }

  lemma RotateAnswers(cfg: Limits, db: Db, op: Op)
    requires op.Rotate? && Configured(cfg, op) && TablesInv(cfg, db) && OpenCommand(db, op.command)
    requires CredentialCheck(op.credential, NewCredential(op))
    ensures var r := Alone(db, op).1;
            if !Present(db, op.organization, op.account) then r == NotFound
            else if db.accounts[op.account].status == AccountStatus.Revoked then r == AlreadyRevoked
            else if db.accounts[op.account].revision != op.expectedRevision then r == RevisionConflict
            else if exists c :: BeginsTooLate(cfg, db, op.account, op.validFrom, c) then r == CheckViolation
            else if op.credential in db.credentials then r == UniqueViolation(CredentialKey)
            else if op.expectedRevision == MAX_BIGINT then r == OutOfRange
            else r.Changed? && r.changed
  {
    CutsAreTooLate(cfg, db, op);
    if Present(db, op.organization, op.account) { assert AccountRowsInv(cfg, db, op.account); }
  }

  lemma RevokeAnswers(cfg: Limits, db: Db, op: Op)
    requires op.Revoke? && TablesInv(cfg, db) && OpenCommand(db, op.command)
    ensures var r := Alone(db, op).1;
            if !Present(db, op.organization, op.account) then r == NotFound
            else if db.accounts[op.account].revision != op.expectedRevision then r == RevisionConflict
            else if db.accounts[op.account].status == Active && op.expectedRevision == MAX_BIGINT then r == OutOfRange
            else r.Changed? && (r.changed <==> db.accounts[op.account].status == Active)
  {
    if Present(db, op.organization, op.account) { assert AccountRowsInv(cfg, db, op.account); }
  }

  // From a request to its transaction

  /** What the transaction has of its request. */
  predicate Carries(cfg: Limits, intent: Intent, op: Op) {
    && Configured(cfg, op)
    && match intent
       case CreateIntent(_, organization, name) =>
         && op.Create? && op.organization == organization && op.name == Trim(name) && op.nameKey == Lower(op.name)
         && AccountCheck(op.account, NewAccount(op)) && CredentialCheck(op.credential, NewCredential(op))
       case RotateIntent(_, organization, account, revision) =>
         && op.Rotate? && op.organization == organization && op.account == account
         && ParseRevision(revision) == Some(op.expectedRevision) && CredentialCheck(op.credential, NewCredential(op))
       case RevokeIntent(_, organization, account, revision) =>
         && op.Revoke? && op.organization == organization && op.account == account
         && ParseRevision(revision) == Some(op.expectedRevision)
       case ExchangeIntent(_) => false
  }

  lemma VerifierFits(secret: string, id: string)
    requires CredentialId(secret) == Some(id)
    ensures 1 <= |id| <= 128 && 32 <= |VerifierOf(secret)| <= 1024
  {
    var material := AcceptedParts(secret);
    AcceptedSecrets(secret, id);
  }

  /** Everything generated for a new account or credential passes the CHECKs. */
  lemma RequestsCarry(cfg: Limits, key: CommandKey, intent: Intent, op: Op, secret: string)
    requires cfg.Valid() && Fits(key, intent) && OpFor(cfg, key, intent, op, secret)
    ensures Carries(cfg, intent, op) && op.command == key
  {
    if op.Create? || op.Rotate? { VerifierFits(secret, op.credential); }
    if op.Create? {
      ValidRequestsMeetTheChecks(op.account, op.organization, op.subject, intent.name, op.startedAt);
    }
  }

  /** Where a worker goes whose transaction meets these tables. */
  function StageAfter(db: Db, op: Op, secret: string): Stage {
    AfterMutation(op, Alone(db, op).1, secret)
  }

  predicate IsAnswer(stage: Stage, r: Outcome, changed: bool, secret: Option<string>) {
    r.Changed? && stage == Replying(Success(ChangeBody(r.row, changed, secret)))
  }

  /** When a create is answered what: full organization, taken subject, taken name, or
      the new account with its secret. */
  predicate CreateAnswered(cfg: Limits, db: Db, intent: Intent, op: Op, secret: string, r: Outcome, stage: Stage)
    requires intent.CreateIntent? && op.Create?
  {
    if Full(cfg, db, intent.organization) then stage == Recording("too_many_service_accounts")
    else if op.account in db.accounts then stage == Replying(RuntimeFailure)
    else if SubjectTaken(db, op.subject) then stage == Recording("directory_rejected")
    else if NameTaken(db, intent.organization, Trim(intent.name)) then stage == Recording("name_conflict")
    else if op.credential in db.credentials then stage == Replying(RuntimeFailure)
    else IsAnswer(stage, r, true, Some(secret))
  }

  /** When a rotation is answered what. */
  ghost predicate RotateAnswered(cfg: Limits, db: Db, intent: Intent, op: Op, secret: string, r: Outcome, stage: Stage)
    requires intent.RotateIntent? && op.Rotate? && ParseRevision(intent.revision).Some?
  {
    if !Present(db, intent.organization, intent.account) then stage == Recording("not_found")
    else if db.accounts[intent.account].status == AccountStatus.Revoked then stage == Recording("revoked")
    else if db.accounts[intent.account].revision != ParseRevision(intent.revision).value then stage == Recording("revision_conflict")
    else if (exists c :: BeginsTooLate(cfg, db, intent.account, op.validFrom, c)) || op.credential in db.credentials
            || ParseRevision(intent.revision).value == MAX_BIGINT
    then stage == Replying(RuntimeFailure)
    else IsAnswer(stage, r, true, Some(secret))
  }

  /** When a revocation is answered what; a repeated one with the current revision is
      answered unchanged. */
  predicate RevokeAnswered(db: Db, intent: Intent, r: Outcome, stage: Stage)
    requires intent.RevokeIntent? && ParseRevision(intent.revision).Some?
  {
    if !Present(db, intent.organization, intent.account) then stage == Recording("not_found")
    else if db.accounts[intent.account].revision != ParseRevision(intent.revision).value then stage == Recording("revision_conflict")
    else if db.accounts[intent.account].status == Active && ParseRevision(intent.revision).value == MAX_BIGINT
    then stage == Replying(RuntimeFailure)
    else IsAnswer(stage, r, db.accounts[intent.account].status == Active, None)
  }

  lemma CreateDecides(cfg: Limits, db: Db, intent: Intent, op: Op, secret: string)
    requires intent.CreateIntent? && Carries(cfg, intent, op) && TablesInv(cfg, db) && OpenCommand(db, op.command)
    ensures CreateAnswered(cfg, db, intent, op, secret, Alone(db, op).1, StageAfter(db, op, secret))
  {
    CreateAnswers(cfg, db, op);
    CreateStage(cfg, db, intent, op, secret, Alone(db, op).1);
  }

  lemma CreateStage(cfg: Limits, db: Db, intent: Intent, op: Op, secret: string, r: Outcome)
    requires intent.CreateIntent? && op.Create? && op.organization == intent.organization && op.name == Trim(intent.name)
    requires if Full(cfg, db, op.organization) then r == LimitReached
             else if op.account in db.accounts then r == UniqueViolation(AccountKey)
             else if SubjectTaken(db, op.subject) then r == UniqueViolation(SubjectUnique)
             else if NameTaken(db, op.organization, op.name) then r == UniqueViolation(NameUnique)
             else if op.credential in db.credentials then r == UniqueViolation(CredentialKey)
             else r.Changed? && r.changed
    ensures CreateAnswered(cfg, db, intent, op, secret, r, AfterMutation(op, r, secret))
  {
  }

  lemma RotateDecides(cfg: Limits, db: Db, intent: Intent, op: Op, secret: string)
    requires intent.RotateIntent? && Carries(cfg, intent, op) && TablesInv(cfg, db) && OpenCommand(db, op.command)
    ensures RotateAnswered(cfg, db, intent, op, secret, Alone(db, op).1, StageAfter(db, op, secret))
  {
    RotateAnswers(cfg, db, op);
    RotateStage(cfg, db, intent, op, secret, Alone(db, op).1);
  }

  lemma RotateStage(cfg: Limits, db: Db, intent: Intent, op: Op, secret: string, r: Outcome)
    requires intent.RotateIntent? && op.Rotate? && op.organization == intent.organization && op.account == intent.account
    requires ParseRevision(intent.revision) == Some(op.expectedRevision)
    requires if !Present(db, op.organization, op.account) then r == NotFound
             else if db.accounts[op.account].status == AccountStatus.Revoked then r == AlreadyRevoked
             else if db.accounts[op.account].revision != op.expectedRevision then r == RevisionConflict
             else if exists c :: BeginsTooLate(cfg, db, op.account, op.validFrom, c) then r == CheckViolation
             else if op.credential in db.credentials then r == UniqueViolation(CredentialKey)
             else if op.expectedRevision == MAX_BIGINT then r == OutOfRange
             else r.Changed? && r.changed
    ensures RotateAnswered(cfg, db, intent, op, secret, r, AfterMutation(op, r, secret))
  {
  }

  lemma RevokeDecides(cfg: Limits, db: Db, intent: Intent, op: Op, secret: string)
    requires intent.RevokeIntent? && Carries(cfg, intent, op) && TablesInv(cfg, db) && OpenCommand(db, op.command)
    ensures RevokeAnswered(db, intent, Alone(db, op).1, StageAfter(db, op, secret))
  {
    RevokeAnswers(cfg, db, op);
    RevokeStage(db, intent, op, secret, Alone(db, op).1);
  }

  lemma RevokeStage(db: Db, intent: Intent, op: Op, secret: string, r: Outcome)
    requires intent.RevokeIntent? && op.Revoke? && op.organization == intent.organization && op.account == intent.account
    requires ParseRevision(intent.revision) == Some(op.expectedRevision)
    requires if !Present(db, op.organization, op.account) then r == NotFound
             else if db.accounts[op.account].revision != op.expectedRevision then r == RevisionConflict
             else if db.accounts[op.account].status == Active && op.expectedRevision == MAX_BIGINT then r == OutOfRange
             else r.Changed? && (r.changed <==> db.accounts[op.account].status == Active)
    ensures RevokeAnswered(db, intent, r, AfterMutation(op, r, secret))
  {
  }

  /** A worker that has claimed its command meets sound tables, an open command, and a
      request that passed the validators. */
  ghost predicate Ready(cfg: Limits, s: State, w: nat) {
    && w in s.workers && cfg.Valid() && TablesInv(cfg, s.db)
    && OpenCommand(s.db, s.workers[w].key) && Fits(s.workers[w].key, s.workers[w].intent)
  }

  lemma BusyIsReady(cfg: Limits, s: State, w: nat)
    requires W.Inv(cfg, s) && w in s.workers && W.Busy(s.workers[w].stage)
    ensures Ready(cfg, s, w)
  {
    assert W.WorkerInv(s, w);
    assert s.h[..|s.h|] == s.h;
    TablesAt(cfg, s.h, |s.h|);
  }

  lemma ReadyCarries(cfg: Limits, s: State, w: nat, op: Op, secret: string)
    requires Ready(cfg, s, w) && CanTake(cfg, s, Mutate(w, op, secret))
    ensures Carries(cfg, s.workers[w].intent, op) && op.command == s.workers[w].key
  {
    RequestsCarry(cfg, s.workers[w].key, s.workers[w].intent, op, secret);
  }

  lemma MutatedStage(cfg: Limits, s: State, w: nat, op: Op, secret: string)
    requires CanTake(cfg, s, Mutate(w, op, secret))
    ensures w in NextMutate(s, w, op, secret).workers
    ensures NextMutate(s, w, op, secret).workers[w].stage == StageAfter(s.db, op, secret)
  {
    StatementsCompose(s.db, op);
  }

  // The exchange, step by step

  function PolicyOf(cfg: Limits): Policy { Policy(cfg.exchangeWindow, cfg.maxExchanges, cfg.exchangeLockout) }

  /** Told from the caller's earlier calls: a lockout is running, or the window is not
      over and used up. */
  predicate OverLimit(cfg: Limits, h: seq<Entry>, caller: string, now: Time) {
    var p, readings := PolicyOf(cfg), I.Readings(h, caller);
    || (LockedAt(p, readings).Some? && now < LockedAt(p, readings).value + cfg.exchangeLockout)
    || (Opener(p, readings).Some? && now < readings[Opener(p, readings).value] + cfg.exchangeWindow
        && Used(p, readings) >= cfg.maxExchanges)
  }

  lemma SlotDecides(cfg: Limits, s: State, w: nat, now: Time)
    requires W.HistoryInv(cfg, s) && CanTake(cfg, s, TakeRateSlot(w, now))
    ensures w in NextSlot(cfg, s, w, now).workers
    ensures NextSlot(cfg, s, w, now).workers[w].stage
              == if OverLimit(cfg, s.h, s.workers[w].key.caller, now) then Recording("rate_limited") else Slotted(|s.h|, now)
  {
    var caller := s.workers[w].key.caller;
    var readings := I.Readings(s.h, caller);
    assert s.h[..|s.h|] == s.h;
    I.LimiterRow(cfg, s.h, |s.h|, caller);
    I.SlotDecides(cfg, s.db, SlotAction(cfg, caller, now), readings);
    AdmittedIff(PolicyOf(cfg), readings, now);
  }

  /** The secret is that of a credential in force, of an active account. */
  predicate Authentic(db: Db, secret: string, now: Time, c: string) {
    && CredentialId(secret) == Some(c) && c in db.credentials
    && var row := db.credentials[c];
       && row.verifier == VerifierOf(secret) && row.revokedAt.None? && row.validFrom <= now < row.validUntil
       && row.account in db.accounts && db.accounts[row.account].status == Active
  }

  /** A credential joined with its account, field by field. */
  predicate Joined(db: Db, row: CredentialRow) {
    && row.id in db.credentials && row.account in db.accounts
    && var c, a := db.credentials[row.id], db.accounts[row.account];
       && row.account == c.account && row.verifier == c.verifier && row.validFrom == c.validFrom
       && row.validUntil == c.validUntil && row.revokedAt == c.revokedAt
       && row.organization == a.organization && row.subject == a.subject && row.status == a.status
  }

  lemma VerifyDecides(cfg: Limits, s: State, w: nat)
    requires CanTake(cfg, s, Verify(w))
    ensures var stage, was := Take(cfg, s, Verify(w)).workers[w].stage, s.workers[w].stage;
            var secret := s.workers[w].intent.secret;
            if exists c :: Authentic(s.db, secret, was.at, c) then
              && stage.Checked? && stage.slot == was.slot && Joined(s.db, stage.credential)
              && Authentic(s.db, secret, was.at, stage.credential.id)
            else stage == Recording("invalid_credentials")
  {
    var secret, at := s.workers[w].intent.secret, s.workers[w].stage.at;
    var found := Lookup(s.db, secret, at);
    if c :| Authentic(s.db, secret, at, c) { assert found.Some? && found.value.id == c; }
    if found.Some? { assert Authentic(s.db, secret, at, found.value.id) && Joined(s.db, found.value); }
  }

  /** Only a directory that says active lets the exchange go on. */
  lemma AskDecides(cfg: Limits, s: State, w: nat, answer: DirectoryAnswer)
    requires CanTake(cfg, s, AskDirectory(w, answer))
    ensures var stage, was := Take(cfg, s, AskDirectory(w, answer)).workers[w].stage, s.workers[w].stage;
            match answer
            case SubjectActive => stage == Eligible(was.slot, was.credential)
            case SubjectDisabled => stage == Recording("disabled")
            case DirectoryUnclear => stage == Replying(RuntimeFailure)
  {
  }

  /** The account is active and the credential still in force. */
  predicate InForce(db: Db, account: string, credential: string, now: Time) {
    && account in db.accounts && db.accounts[account].status == Active
    && credential in db.credentials
    && var c := db.credentials[credential];
       c.account == account && c.revokedAt.None? && c.validFrom <= now < c.validUntil
  }

  lemma MarkDecides(cfg: Limits, s: State, w: nat, now: Time)
    requires CanTake(cfg, s, MarkIssuing(w, now)) && W.WorkerInv(s, w)
    ensures w in NextMark(s, w, now).workers
    ensures var stage, was := NextMark(s, w, now).workers[w].stage, s.workers[w].stage;
            if InForce(s.db, was.credential.account, was.credential.id, now) then
              && stage == Granted(was.slot, |s.h|) && |NextMark(s, w, now).h| > |s.h| && IsAdmission(NextMark(s, w, now).h[|s.h|])
              && var row := Admission(NextMark(s, w, now), |s.h|);
                 row.id == was.credential.id && row.account == was.credential.account && Joined(s.db, row)
            else stage == Recording("invalid_credentials")
  {
    var op := AdmitOp(s.workers[w], now);
    StatementsCompose(s.db, op);
    assert CommandOf(op) == s.workers[w].key;
  }

  /** The call asks for the token lifetime, cut at the credential's end, and is made
      unless that has passed. */
  lemma CallDecides(cfg: Limits, s: State, w: nat, now: Time)
    requires CanTake(cfg, s, CallIssuer(w, now)) && cfg.Valid()
    ensures w in NextCall(cfg, s, w, now).workers
    ensures var t, was := NextCall(cfg, s, w, now), s.workers[w].stage;
            var until := Admission(s, was.admission).validUntil;
            if until <= now then t.workers[w].stage == Recording("invalid_credentials") && t.calls == s.calls
            else
              && t.workers[w].stage == Awaiting(|s.calls|)
              && t.calls == s.calls + [Call(s.workers[w].claim, was.slot, was.admission, now,
                                            if until < now + cfg.tokenTtl then until else now + cfg.tokenTtl)]
  {
  }

  /** The answer of the issuer is a session within the bounds of the call. */
  predicate Acceptable(answer: IssuerAnswer, now: Time, expiresAt: Time) {
    && answer.Session? && answer.id != "" && Utf8Length(answer.id) <= 256
    && answer.token != "" && Utf8Length(answer.token) <= 65_536
    && now < answer.expiresAt && answer.expiresAt <= expiresAt
  }

  lemma HearDecides(cfg: Limits, s: State, w: nat, answer: IssuerAnswer, now: Time)
    requires CanTake(cfg, s, HearIssuer(w, answer, now))
    ensures w in NextHear(s, w, answer, now).workers
    ensures var stage, i := NextHear(s, w, answer, now).workers[w].stage, s.workers[w].stage.call;
            if answer.SubjectRefused? then stage == Recording("disabled")
            else if Acceptable(answer, now, s.calls[i].expiresAt) then
              && stage.Accepted? && stage.call == i
              && var r, row := stage.response, Admission(s, s.calls[i].admission);
                 && r.account == row.account && r.organization == row.organization && r.subject == row.subject
                 && r.session == answer.id && r.token == answer.token && r.expiresAt == answer.expiresAt
            else stage == Replying(RuntimeFailure)
  {
  }

  // Every error, in one place

  /** The step decides on this error. */
  ghost predicate ErrorDue(cfg: Limits, s: State, e: Step, code: string)
    requires CanTake(cfg, s, e)
  {
    match e
    case DirectoryDeclines(_, definite) => code == "directory_rejected" && definite
    case Mutate(w, op, _) => ChangeErrorDue(cfg, s.db, s.workers[w].intent, op, code)
    case TakeRateSlot(w, now) => code == "rate_limited" && OverLimit(cfg, s.h, s.workers[w].key.caller, now)
    case Verify(w) =>
      code == "invalid_credentials" && !exists c :: Authentic(s.db, s.workers[w].intent.secret, s.workers[w].stage.at, c)
    case AskDirectory(_, answer) => code == "disabled" && answer.SubjectDisabled?
    case MarkIssuing(w, now) =>
      var c := s.workers[w].stage.credential;
      code == "invalid_credentials" && !InForce(s.db, c.account, c.id, now)
    case CallIssuer(w, now) => code == "invalid_credentials" && Admission(s, s.workers[w].stage.admission).validUntil <= now
    case HearIssuer(_, answer, _) => code == "disabled" && answer.SubjectRefused?
    case _ => false
  }

  /** The tables at the transaction refuse the change. */
  predicate ChangeErrorDue(cfg: Limits, db: Db, intent: Intent, op: Op, code: string) {
    match intent
    case CreateIntent(_, organization, name) =>
      && op.Create?
      && (|| (code == "too_many_service_accounts" && Full(cfg, db, organization))
          || (code == "directory_rejected" && !Full(cfg, db, organization) && op.account !in db.accounts && SubjectTaken(db, op.subject))
          || (code == "name_conflict" && !Full(cfg, db, organization) && op.account !in db.accounts
              && !SubjectTaken(db, op.subject) && NameTaken(db, organization, Trim(name))))
    case RotateIntent(_, organization, account, revision) =>
      || (code == "not_found" && !Present(db, organization, account))
      || (code == "revoked" && Present(db, organization, account) && db.accounts[account].status == AccountStatus.Revoked)
      || (code == "revision_conflict" && Present(db, organization, account) && db.accounts[account].status == Active
          && Some(db.accounts[account].revision) != ParseRevision(revision))
    case RevokeIntent(_, organization, account, revision) =>
      || (code == "not_found" && !Present(db, organization, account))
      || (code == "revision_conflict" && Present(db, organization, account)
          && Some(db.accounts[account].revision) != ParseRevision(revision))
    case ExchangeIntent(_) => false
  }

  lemma MutateErrs(cfg: Limits, db: Db, intent: Intent, op: Op, secret: string, code: string)
    requires Carries(cfg, intent, op) && TablesInv(cfg, db) && OpenCommand(db, op.command)
    ensures StageAfter(db, op, secret) == Recording(code) <==> ChangeErrorDue(cfg, db, intent, op, code)
  {
    match intent
    case CreateIntent(_, _, _) => CreateDecides(cfg, db, intent, op, secret);
    case RotateIntent(_, _, _, _) => RotateErrs(cfg, db, intent, op, secret, code);
    case RevokeIntent(_, _, _, _) => RevokeErrs(cfg, db, intent, op, secret, code);
  }

  lemma RotateErrs(cfg: Limits, db: Db, intent: Intent, op: Op, secret: string, code: string)
    requires intent.RotateIntent? && Carries(cfg, intent, op) && TablesInv(cfg, db) && OpenCommand(db, op.command)
    ensures StageAfter(db, op, secret) == Recording(code) <==> ChangeErrorDue(cfg, db, intent, op, code)
  {
    RotateDecides(cfg, db, intent, op, secret);
  }

  lemma RevokeErrs(cfg: Limits, db: Db, intent: Intent, op: Op, secret: string, code: string)
    requires intent.RevokeIntent? && Carries(cfg, intent, op) && TablesInv(cfg, db) && OpenCommand(db, op.command)
    ensures StageAfter(db, op, secret) == Recording(code) <==> ChangeErrorDue(cfg, db, intent, op, code)
  {
    RevokeDecides(cfg, db, intent, op, secret);
  }

  lemma MutationErrs(cfg: Limits, s: State, w: nat, op: Op, secret: string, code: string)
    requires W.Inv(cfg, s) && CanTake(cfg, s, Mutate(w, op, secret))
    ensures w in NextMutate(s, w, op, secret).workers
    ensures NextMutate(s, w, op, secret).workers[w].stage == Recording(code) <==>
              ChangeErrorDue(cfg, s.db, s.workers[w].intent, op, code)
  {
    BusyIsReady(cfg, s, w);
    ReadyCarries(cfg, s, w, op, secret);
    MutatedStage(cfg, s, w, op, secret);
    MutateErrs(cfg, s.db, s.workers[w].intent, op, secret, code);
  }

  lemma MarkingErrs(cfg: Limits, s: State, w: nat, now: Time, code: string)
    requires W.Inv(cfg, s) && CanTake(cfg, s, MarkIssuing(w, now))
    ensures w in NextMark(s, w, now).workers
    ensures NextMark(s, w, now).workers[w].stage == Recording(code) <==> ErrorDue(cfg, s, MarkIssuing(w, now), code)
  {
    assert W.WorkerInv(s, w);
    MarkDecides(cfg, s, w, now);
  }

  lemma ExchangeErrs(cfg: Limits, s: State, e: Step, code: string)
    requires W.Inv(cfg, s) && CanTake(cfg, s, e) && (e.TakeRateSlot? || e.Verify? || e.CallIssuer? || e.HearIssuer?)
    ensures e.w in Take(cfg, s, e).workers
    ensures Take(cfg, s, e).workers[e.w].stage == Recording(code) <==> ErrorDue(cfg, s, e, code)
  {
    match e
    case TakeRateSlot(w, now) => SlotDecides(cfg, s, w, now);
    case Verify(w) => VerifyDecides(cfg, s, w);
    case CallIssuer(w, now) => CallDecides(cfg, s, w, now);
    case HearIssuer(w, answer, now) => HearDecides(cfg, s, w, answer, now);
  }

  /** A worker goes on to record an error exactly when the step it takes makes that
      error due: nothing else is ever recorded, and nothing due is passed over. */
  lemma ErrorIffDue(cfg: Limits, s: State, e: Step, code: string)
    requires W.Inv(cfg, s) && CanTake(cfg, s, e) && !e.Expire? && !e.Arrive?
    ensures e.w in Take(cfg, s, e).workers
    ensures Take(cfg, s, e).workers[e.w].stage == Recording(code) <==> ErrorDue(cfg, s, e, code)
  {
    if e.Mutate? {
      MutationErrs(cfg, s, e.w, e.op, e.secret, code);
    } else if e.MarkIssuing? {
      MarkingErrs(cfg, s, e.w, e.now, code);
    } else if e.TakeRateSlot? || e.Verify? || e.CallIssuer? || e.HearIssuer? {
      ExchangeErrs(cfg, s, e, code);
    } else {
      OtherStepsRecordNothing(cfg, s, e, code);
    }
  }

  lemma OtherStepsRecordNothing(cfg: Limits, s: State, e: Step, code: string)
    requires CanTake(cfg, s, e) && !e.Expire? && !e.Arrive?
    requires e.LoadClaim? || e.DirectoryDeclines? || e.Record? || e.AskDirectory? || e.CompleteExchange? || e.Send? || e.GiveUp? || e.Crash?
    ensures e.w in Take(cfg, s, e).workers
    ensures Take(cfg, s, e).workers[e.w].stage == Recording(code) <==> ErrorDue(cfg, s, e, code)
  {
  }

  // What a completed command holds

  /** Recording an error completes the command with that error, at that time, and
      answers it. */
  lemma RecordIs(s: State, w: nat, at: Time)
    requires w in s.workers && W.WorkerInv(s, w) && s.workers[w].stage.Recording?
    ensures var t, key, code := NextRecord(s, w, at), s.workers[w].key, s.workers[w].stage.code;
            && t.db == s.db.(commands := s.db.commands[key := Command(s.workers[w].intent, CompletedError(code, at))])
            && w in t.workers && t.workers[w].stage == Replying(DomainError(code))
  {
  }

  /** An accepted session completes the command with its receipt, at that time, and is
      answered. */
  lemma SessionIs(s: State, w: nat, at: Time)
    requires w in s.workers && W.WorkerInv(s, w) && s.workers[w].stage.Accepted?
    ensures var t, key, stage := NextComplete(s, w, at), s.workers[w].key, s.workers[w].stage;
            && t.db == s.db.(commands := s.db.commands[key := Command(s.workers[w].intent,
                 CompletedSuccess(Sealed(ReceiptAad(key), ExchangeBody(stage.response)), at))])
            && t.accepted == s.accepted + [Acceptance(stage.call, stage.response)]
            && w in t.workers && t.workers[w].stage == Replying(Success(ExchangeBody(stage.response)))
  {
  }

  /** A committed change completes the command with a receipt of the very row and flag
      answered, without the secret, at the transaction's time. */
  lemma ChangeCompletes(cfg: Limits, s: State, w: nat, op: Op, secret: string)
    requires CanTake(cfg, s, Mutate(w, op, secret)) && W.WorkerInv(s, w) && Alone(s.db, op).1.Changed?
    ensures var key, row, changed := s.workers[w].key, Alone(s.db, op).1.row, Alone(s.db, op).1.changed;
            NextMutate(s, w, op, secret).db.commands == s.db.commands[key := Command(s.workers[w].intent,
              CompletedSuccess(Sealed(ReceiptAad(key), ChangeBody(row, changed, None)), op.startedAt))]
  {
    W.OpForFacts(cfg, s.workers[w].key, s.workers[w].intent, op, secret);
    StatementsCompose(s.db, op);
    W.AloneCommands(s.db, op);
  }

  /** A prune removes exactly the commands completed before its cutoff, with success or
      with an error; open commands it never removes. */
  lemma PruneRemoves(cfg: Limits, s: State, before: Time, key: CommandKey)
    requires key in s.db.commands
    ensures var t, c := Take(cfg, s, Expire(before)), s.db.commands[key];
            && t.db.accounts == s.db.accounts && t.db.credentials == s.db.credentials
            && (key in t.db.commands ==> t.db.commands[key] == c)
            && (key !in t.db.commands <==>
                  match c.state
                  case CompletedSuccess(_, at) => at < before
                  case CompletedError(_, at) => at < before
                  case _ => false)
  {
  }
}
