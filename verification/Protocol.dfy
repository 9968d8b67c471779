/** The workers that serve requests: claim a command, act on the tables and on
    services outside, complete the command, answer. Workers interleave freely, may
    crash between any two steps, and read clocks that need not agree. Every step on
    the tables is one serializable action, recorded in the history. */
module Protocol {
  import opened Text
  import opened Tables
  import opened Tokens
  import opened Secrets
  import opened Transactions
  import opened Interleaving
  import opened Guarantees
  import opened Histories

  // Requests and answers

  predicate ValidSecret(secret: string) {
    secret != "" && Utf8Length(secret) <= 512
  }

  function OperationOf(intent: Intent): Operation {
    match intent
    case CreateIntent(_, _, _) => CreateAccount
    case RotateIntent(_, _, _, _) => RotateSecret
    case RevokeIntent(_, _, _, _) => RevokeAccount
    case ExchangeIntent(_) => ExchangeSecret
  }

  /** A request from a configured caller that passed the validators. */
  predicate Fits(key: CommandKey, intent: Intent) {
    && ValidCaller(key.caller) && ValidKey(key.key) && key.operation == OperationOf(intent)
    && match intent
       case CreateIntent(_, organization, name) => ValidToken(organization, 256) && ValidName(name)
       case RotateIntent(_, organization, account, revision) =>
         ValidToken(organization, 256) && ValidToken(account, 128) && ParseRevision(revision).Some?
       case RevokeIntent(_, organization, account, revision) =>
         ValidToken(organization, 256) && ValidToken(account, 128) && ParseRevision(revision).Some?
       case ExchangeIntent(secret) => ValidSecret(secret)
  }

  datatype Reply =
    | Success(body: Body)
    | DomainError(code: string)
    | IdempotencyConflict
    | OperationInProgress
    | RuntimeFailure

  /** The decoders `create_error`, `rotate_error`, `revoke_error`, `exchange_error`
      accept these codes and no others. */
  predicate Decodes(operation: Operation, code: string) {
    match operation
    case CreateAccount => code == "name_conflict" || code == "directory_rejected" || code == "too_many_service_accounts"
    case RotateSecret => code == "not_found" || code == "revoked" || code == "revision_conflict"
    case RevokeAccount => code == "not_found" || code == "revision_conflict"
    case ExchangeSecret => code == "invalid_credentials" || code == "rate_limited" || code == "disabled"
  }

  /** The error code a worker records for the outcome of its transaction; any other
      outcome is a runtime failure and leaves the command open. */
  function CodeOf(op: Op, outcome: Outcome): Option<string> {
    match outcome
    case LimitReached => if op.Create? then Some("too_many_service_accounts") else None
    case UniqueViolation(NameUnique) => if op.Create? then Some("name_conflict") else None
    case UniqueViolation(SubjectUnique) => if op.Create? then Some("directory_rejected") else None
    case NotFound => if op.Rotate? || op.Revoke? then Some("not_found") else None
    case AlreadyRevoked => if op.Rotate? then Some("revoked") else None
    case RevisionConflict => if op.Rotate? || op.Revoke? then Some("revision_conflict") else None
    case _ => None
  }

  /** The verifier stored for a secret; ideal, so it matches that secret alone. */
  function VerifierOf(secret: string): string { "$argon2id$" + secret }

  /** The transaction a worker runs for the request it claimed. */
  predicate OpFor(cfg: Limits, key: CommandKey, intent: Intent, op: Op, secret: string) {
    match intent
    case CreateIntent(_, organization, name) =>
      && op.Create? && op.command == key && op.aad == ReceiptAad(key) && Configured(cfg, op)
      && op.organization == organization && op.name == Trim(name) && op.nameKey == Lower(op.name)
      && ValidToken(op.account, 128) && ValidToken(op.subject, 256)
      && CredentialId(secret) == Some(op.credential) && op.verifier == VerifierOf(secret)
    case RotateIntent(_, organization, account, revision) =>
      && op.Rotate? && op.command == key && op.aad == ReceiptAad(key) && Configured(cfg, op)
      && op.organization == organization && op.account == account && ParseRevision(revision) == Some(op.expectedRevision)
      && CredentialId(secret) == Some(op.credential) && op.verifier == VerifierOf(secret)
    case RevokeIntent(_, organization, account, revision) =>
      && op.Revoke? && op.command == key && op.aad == ReceiptAad(key)
      && op.organization == organization && op.account == account && ParseRevision(revision) == Some(op.expectedRevision)
    case ExchangeIntent(_) => false
  }

  // Workers

  datatype Stage =
    | Losing                                               // another request holds the key
    | Claimed
    | Slotted(slot: nat, at: Time)                         // exchange: admitted by the limiter
    | Checked(slot: nat, credential: CredentialRow)        // the secret matched a live credential
    | Eligible(slot: nat, credential: CredentialRow)       // the directory says active
    | Granted(slot: nat, admission: nat)                   // the command is durably `issuing`
    | Awaiting(call: nat)                                  // the issuer has been called
    | Accepted(call: nat, response: ExchangeResponse)      // its answer is within bounds
    | Recording(code: string)                              // about to complete with an error
    | Replying(reply: Reply)
    | Done

  datatype Worker = Worker(key: CommandKey, intent: Intent, claim: nat, stage: Stage)

  datatype Call = Call(claim: nat, slot: nat, admission: nat, at: Time, expiresAt: Time)

  datatype Acceptance = Acceptance(call: nat, response: ExchangeResponse)

  datatype Sent = Sent(worker: nat, key: CommandKey, reply: Reply)

  /** Beside tables and workers: the history of actions; for each command row the
      history index of the claim that inserted it; for each claim the index of the
      rate slot it consumed; all issuer calls, accepted sessions and answers. */
  datatype State = State(
    h: seq<Entry>,
    db: Db,
    workers: map<nat, Worker>,
    claims: map<CommandKey, nat>,
    slots: map<nat, nat>,
    calls: seq<Call>,
    accepted: seq<Acceptance>,
    sent: seq<Sent>,
    secrets: set<string>)

  const Start := State([], EmptyDb, map[], map[], map[], [], [], [], {})

  datatype DirectoryAnswer = SubjectActive | SubjectDisabled | DirectoryUnclear
  datatype IssuerAnswer = Session(id: string, token: string, expiresAt: Time) | SubjectRefused | IssuerUnclear

  datatype Step =
    | Expire(before: Time)                                 // prune
    | Arrive(w: nat, key: CommandKey, intent: Intent)      // claim_command's INSERT
    | LoadClaim(w: nat)                                    // claim_command's SELECT, when the INSERT lost
    | DirectoryDeclines(w: nat, definite: bool)            // create: ensure_identity rejects, or fails
    | Mutate(w: nat, op: Op, secret: string)
    | Record(w: nat, at: Time)                             // complete_error
    | TakeRateSlot(w: nat, now: Time)
    | Verify(w: nat)
    | AskDirectory(w: nat, directory: DirectoryAnswer)
    | MarkIssuing(w: nat, now: Time)
    | CallIssuer(w: nat, now: Time)
    | HearIssuer(w: nat, issuer: IssuerAnswer, now: Time)
    | CompleteExchange(w: nat, at: Time)                   // complete_success_owned
    | Send(w: nat)
    | GiveUp(w: nat)                                       // a failed call: answer a runtime failure, record nothing
    | Crash(w: nat)

  function Act(s: State, a: Action): State {
    s.(db := Perform(s.db, a).0, h := s.h + [Entry(a, Perform(s.db, a).1)])
  }

  function Move(s: State, w: nat, stage: Stage): State
    requires w in s.workers
  {
    s.(workers := s.workers[w := s.workers[w].(stage := stage)])
  }

  function SlotAction(cfg: Limits, caller: string, now: Time): Action {
    TakeSlot(caller, now, cfg.exchangeWindow, cfg.maxExchanges, cfg.exchangeLockout)
  }

  /** The live credential the presented secret belongs to, if any. */
  function Lookup(db: Db, secret: string, now: Time): Option<CredentialRow> {
    var id := CredentialId(secret);
    if id.None? || id.value !in db.credentials then None
    else
      var c := db.credentials[id.value];
      if c.account !in db.accounts then None
      else
        var a := db.accounts[c.account];
        if c.verifier == VerifierOf(secret) && a.status == Active && c.revokedAt.None? && c.validFrom <= now < c.validUntil
        then Some(JoinCredential(id.value, c, a)) else None
  }

  function Answered(key: CommandKey, intent: Intent, db: Db): Reply {
    if key !in db.commands then RuntimeFailure
    else if db.commands[key].intent != intent then IdempotencyConflict
    else
      match db.commands[key].state
      case CompletedSuccess(receipt, _) =>
        (match Open(receipt, ReceiptAad(key))
         case None => RuntimeFailure
         case Some(ChangeBody(row, _, _)) =>
           if key.operation == ExchangeSecret then RuntimeFailure else Success(ChangeBody(row, false, None))
         case Some(ExchangeBody(response)) =>
           if key.operation == ExchangeSecret then Success(ExchangeBody(response)) else RuntimeFailure)
      case CompletedError(code, _) => if Decodes(key.operation, code) then DomainError(code) else RuntimeFailure
      case _ => OperationInProgress
  }

  predicate CanTake(cfg: Limits, s: State, e: Step) {
    match e
    case Expire(_) => true
    case Arrive(w, key, intent) => w !in s.workers && Fits(key, intent)
    case LoadClaim(w) => w in s.workers && s.workers[w].stage.Losing?
    case DirectoryDeclines(w, _) => w in s.workers && s.workers[w].stage.Claimed? && s.workers[w].intent.CreateIntent?
    case Mutate(w, op, secret) =>
      && w in s.workers && s.workers[w].stage.Claimed? && (op.Revoke? || secret !in s.secrets)
      && OpFor(cfg, s.workers[w].key, s.workers[w].intent, op, secret)
    case Record(w, _) => w in s.workers && s.workers[w].stage.Recording?
    case TakeRateSlot(w, _) => w in s.workers && s.workers[w].stage.Claimed? && s.workers[w].intent.ExchangeIntent?
    case Verify(w) => w in s.workers && s.workers[w].stage.Slotted? && s.workers[w].intent.ExchangeIntent?
    case AskDirectory(w, _) => w in s.workers && s.workers[w].stage.Checked?
    case MarkIssuing(w, _) => w in s.workers && s.workers[w].stage.Eligible?
    case CallIssuer(w, _) =>
      && w in s.workers && s.workers[w].stage.Granted? && s.workers[w].stage.admission < |s.h|
      && IsAdmission(s.h[s.workers[w].stage.admission])
    case HearIssuer(w, _, _) => w in s.workers && s.workers[w].stage.Awaiting? && CallKnown(s, s.workers[w].stage.call)
    case CompleteExchange(w, _) => w in s.workers && s.workers[w].stage.Accepted?
    case Send(w) => w in s.workers && s.workers[w].stage.Replying?
    case GiveUp(w) => w in s.workers && !s.workers[w].stage.Done?
    case Crash(w) => w in s.workers
  }

  predicate CallKnown(s: State, i: nat) {
    i < |s.calls| && s.calls[i].admission < |s.h| && IsAdmission(s.h[s.calls[i].admission])
  }

  function Admission(s: State, i: nat): CredentialRow
    requires i < |s.h| && IsAdmission(s.h[i])
  {
    s.h[i].result.outcome.credential
  }

  /** The one action on the tables a step runs, if any. */
  function ActionOf(cfg: Limits, s: State, e: Step): Option<Action>
    requires CanTake(cfg, s, e)
  {
    match e
    case Expire(before) => Some(Prune(before))
    case Arrive(_, key, intent) => Some(Reserve(key, intent))
    case Mutate(_, op, _) => Some(Transact(op))
    case Record(w, at) => Some(Fail(s.workers[w].key, s.workers[w].stage.code, at))
    case TakeRateSlot(w, now) => Some(SlotAction(cfg, s.workers[w].key.caller, now))
    case MarkIssuing(w, now) => Some(Transact(AdmitOp(s.workers[w], now)))
    case CompleteExchange(w, at) =>
      var worker := s.workers[w];
      Some(Finish(worker.key, Sealed(ReceiptAad(worker.key), ExchangeBody(worker.stage.response)), at))
    case _ => None
  }

  function Take(cfg: Limits, s: State, e: Step): State
    requires CanTake(cfg, s, e)
  {
    match e
    case Expire(before) => Act(s, Prune(before))
    case Arrive(w, key, intent) => NextArrive(s, w, key, intent)
    case LoadClaim(w) => Move(s, w, Replying(Answered(s.workers[w].key, s.workers[w].intent, s.db)))
    case DirectoryDeclines(w, definite) =>
      Move(s, w, if definite then Recording("directory_rejected") else Replying(RuntimeFailure))
    case Mutate(w, op, secret) => NextMutate(s, w, op, secret)
    case Record(w, at) => NextRecord(s, w, at)
    case TakeRateSlot(w, now) => NextSlot(cfg, s, w, now)
    case Verify(w) =>
      var found := Lookup(s.db, s.workers[w].intent.secret, s.workers[w].stage.at);
      Move(s, w, if found.Some? then Checked(s.workers[w].stage.slot, found.value) else Recording("invalid_credentials"))
    case AskDirectory(w, answer) =>
      Move(s, w,
        match answer
        case SubjectActive => Eligible(s.workers[w].stage.slot, s.workers[w].stage.credential)
        case SubjectDisabled => Recording("disabled")
        case DirectoryUnclear => Replying(RuntimeFailure))
    case MarkIssuing(w, now) => NextMark(s, w, now)
    case CallIssuer(w, now) => NextCall(cfg, s, w, now)
    case HearIssuer(w, answer, now) => NextHear(s, w, answer, now)
    case CompleteExchange(w, at) => NextComplete(s, w, at)
    case Send(w) =>
      Move(s, w, Done).(sent := s.sent + [Sent(w, s.workers[w].key, s.workers[w].stage.reply)])
    case GiveUp(w) => Move(s, w, Replying(RuntimeFailure))
    case Crash(w) => Move(s, w, Done)
  }

  function NextArrive(s: State, w: nat, key: CommandKey, intent: Intent): State {
    var t := Act(s, Reserve(key, intent));
    if Perform(s.db, Reserve(key, intent)).1 == Affected(true) then
      t.(workers := s.workers[w := Worker(key, intent, |s.h|, Claimed)], claims := s.claims[key := |s.h|])
    else
      t.(workers := s.workers[w := Worker(key, intent, |s.h|, Losing)])
  }

  function AfterMutation(op: Op, outcome: Outcome, secret: string): Stage {
    if outcome.Changed? then
      Replying(Success(ChangeBody(outcome.row, outcome.changed, if op.Revoke? then None else Some(secret))))
    else if CodeOf(op, outcome).Some? then Recording(CodeOf(op, outcome).value)
    else Replying(RuntimeFailure)
  }

  function NextMutate(s: State, w: nat, op: Op, secret: string): State
    requires w in s.workers
  {
    var t := Act(s, Transact(op));
    Move(t, w, AfterMutation(op, Perform(s.db, Transact(op)).1.outcome, secret)).(secrets := if op.Revoke? then s.secrets else s.secrets + {secret})
  }

  function NextRecord(s: State, w: nat, at: Time): State
    requires w in s.workers && s.workers[w].stage.Recording?
  {
    var code := s.workers[w].stage.code;
    var a := Fail(s.workers[w].key, code, at);
    Move(Act(s, a), w, Replying(if Perform(s.db, a).1 == Affected(true) then DomainError(code) else RuntimeFailure))
  }

  function NextSlot(cfg: Limits, s: State, w: nat, now: Time): State
    requires w in s.workers
  {
    var a := SlotAction(cfg, s.workers[w].key.caller, now);
    var t := Act(s, a);
    if Perform(s.db, a).1 == Affected(true) then
      Move(t, w, Slotted(|s.h|, now)).(slots := s.slots[s.workers[w].claim := |s.h|])
    else Move(t, w, Recording("rate_limited"))
  }

  function AdmitOp(worker: Worker, now: Time): Op
    requires worker.stage.Eligible?
  {
    Admit(worker.key.caller, worker.key.key, worker.stage.credential.account, worker.stage.credential.id, now)
  }

  function NextMark(s: State, w: nat, now: Time): State
    requires w in s.workers && s.workers[w].stage.Eligible?
  {
    var a := Transact(AdmitOp(s.workers[w], now));
    Move(Act(s, a), w,
      if Perform(s.db, a).1.outcome.Admitted? then Granted(s.workers[w].stage.slot, |s.h|) else Recording("invalid_credentials"))
  }

  function NextCall(cfg: Limits, s: State, w: nat, now: Time): State
    requires w in s.workers && s.workers[w].stage.Granted? && s.workers[w].stage.admission < |s.h|
    requires IsAdmission(s.h[s.workers[w].stage.admission])
  {
    var stage := s.workers[w].stage;
    var expiresAt := Min(now + cfg.tokenTtl, Admission(s, stage.admission).validUntil);
    if expiresAt <= now then Move(s, w, Recording("invalid_credentials"))
    else
      Move(s, w, Awaiting(|s.calls|)).(calls := s.calls + [Call(s.workers[w].claim, stage.slot, stage.admission, now, expiresAt)])
  }

  predicate WithinBounds(answer: IssuerAnswer, now: Time, expiresAt: Time) {
    && answer.Session?
    && answer.id != "" && Utf8Length(answer.id) <= 256 && answer.token != "" && Utf8Length(answer.token) <= 65_536
    && now < answer.expiresAt <= expiresAt
  }

  function NextHear(s: State, w: nat, answer: IssuerAnswer, now: Time): State
    requires w in s.workers && s.workers[w].stage.Awaiting? && CallKnown(s, s.workers[w].stage.call)
  {
    var i := s.workers[w].stage.call;
    var row := Admission(s, s.calls[i].admission);
    Move(s, w,
      if answer.SubjectRefused? then Recording("disabled")
      else if WithinBounds(answer, now, s.calls[i].expiresAt) then
        Accepted(i, ExchangeResponse(row.account, row.organization, row.subject, answer.id, answer.token, answer.expiresAt))
      else Replying(RuntimeFailure))   // ambiguous: the command stays `issuing`
  }

  function NextComplete(s: State, w: nat, at: Time): State
    requires w in s.workers && s.workers[w].stage.Accepted?
  {
    var key, stage := s.workers[w].key, s.workers[w].stage;
    var a := Finish(key, Sealed(ReceiptAad(key), ExchangeBody(stage.response)), at);
    if Perform(s.db, a).1 == Affected(true) then
      Move(Act(s, a), w, Replying(Success(ExchangeBody(stage.response))))
        .(accepted := s.accepted + [Acceptance(stage.call, stage.response)])
    else Move(Act(s, a), w, Replying(RuntimeFailure))
  }

  predicate LegalRun(cfg: Limits, s: State, es: seq<Step>)
    decreases |es|
  {
    es == [] || (CanTake(cfg, s, es[0]) && LegalRun(cfg, Take(cfg, s, es[0]), es[1..]))
  }

  function FinalState(cfg: Limits, s: State, es: seq<Step>): State
    requires LegalRun(cfg, s, es)
    decreases |es|
  {
    if es == [] then s else FinalState(cfg, Take(cfg, s, es[0]), es[1..])
  }

  // What a step leaves alone

  /** Histories only grow, and only the step's own worker moves. */
  predicate Leaves(s: State, e: Step, t: State) {
    && s.h <= t.h && s.calls <= t.calls && s.accepted <= t.accepted
    && (e.Expire? ==> t.workers == s.workers && t.claims == s.claims)
    && (e.Arrive? ==> e.w !in s.workers && e.w in t.workers && t.workers == s.workers[e.w := t.workers[e.w]]
                      && !t.workers[e.w].stage.Replying?)
    && (!e.Expire? && !e.Arrive? ==>
          && e.w in s.workers && e.w in t.workers && t.claims == s.claims
          && t.workers == s.workers[e.w := s.workers[e.w].(stage := t.workers[e.w].stage)])
    && (t.slots == s.slots
        || (e.TakeRateSlot? && e.w in s.workers && t.slots == s.slots[s.workers[e.w].claim := |s.h|]))
    && (if e.Send? then e.w in s.workers && s.workers[e.w].stage.Replying?
                        && t.sent == s.sent + [Sent(e.w, s.workers[e.w].key, s.workers[e.w].stage.reply)]
        else t.sent == s.sent)
    && t.secrets == (if e.Mutate? && !e.op.Revoke? then s.secrets + {e.secret} else s.secrets)
  }

  /** The steps that act on the tables or call the issuer. */
  predicate Acts(e: Step) {
    e.Expire? || e.Arrive? || Rewrites(e) || e.TakeRateSlot? || e.CallIssuer? || e.CompleteExchange?
  }

  /** Those that act on a command row of the worker's own. */
  predicate Rewrites(e: Step) { e.Mutate? || e.Record? || e.MarkIssuing? }

  lemma ChangingLeaves(cfg: Limits, s: State, e: Step)
    requires CanTake(cfg, s, e) && Rewrites(e)
    ensures Leaves(s, e, Take(cfg, s, e))
  {
  }

  lemma ClaimingLeaves(cfg: Limits, s: State, e: Step)
    requires CanTake(cfg, s, e) && (e.Expire? || e.Arrive?)
    ensures Leaves(s, e, Take(cfg, s, e))
  {
  }

  lemma SlotLeaves(cfg: Limits, s: State, w: nat, now: Time)
    requires CanTake(cfg, s, TakeRateSlot(w, now))
    ensures Leaves(s, TakeRateSlot(w, now), NextSlot(cfg, s, w, now))
  {
  }

  lemma CallLeaves(cfg: Limits, s: State, w: nat, now: Time)
    requires CanTake(cfg, s, CallIssuer(w, now))
    ensures Leaves(s, CallIssuer(w, now), NextCall(cfg, s, w, now))
  {
  }

  lemma CompletionLeaves(cfg: Limits, s: State, w: nat, at: Time)
    requires CanTake(cfg, s, CompleteExchange(w, at))
    ensures Leaves(s, CompleteExchange(w, at), NextComplete(s, w, at))
  {
  }

  lemma MovingLeaves(cfg: Limits, s: State, e: Step)
    requires CanTake(cfg, s, e) && !Acts(e)
    ensures Leaves(s, e, Take(cfg, s, e))
  {
  }

  lemma StepLeaves(cfg: Limits, s: State, e: Step)
    requires CanTake(cfg, s, e)
    ensures Leaves(s, e, Take(cfg, s, e))
  {
    if Rewrites(e) {
      ChangingLeaves(cfg, s, e);
    } else if e.Expire? || e.Arrive? {
      ClaimingLeaves(cfg, s, e);
    } else if e.TakeRateSlot? {
      SlotLeaves(cfg, s, e.w, e.now);
    } else if e.CallIssuer? {
      CallLeaves(cfg, s, e.w, e.now);
    } else if e.CompleteExchange? {
      CompletionLeaves(cfg, s, e.w, e.at);
    } else {
      MovingLeaves(cfg, s, e);
    }
  }
}
