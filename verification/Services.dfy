/** The workers as the plugin writes them: each request runs its steps on the store
    in program order and answers. Every step is shown to be one of the protocol's,
    so whatever holds of all the protocol's runs holds of these. */
module Services {
  import opened Text
  import opened Tables
  import opened Tokens
  import opened Secrets
  import opened Transactions
  import opened Atomic
  import opened Guarantees
  import opened Interleaving
  import opened Histories
  import opened Protocol
  import opened Pagination
  import opened Stores
  import W = Workers
  import R = Receipts
  import E = Effects
  import D = Decisions

  /** What `authorize_management` decides, or that it could not. */
  datatype Authorization = Permitted | Forbidden | OrganizationNotFound | MembershipRequired | AccessDenied | AuthorizationFailed

  datatype Answer = InvalidRequest | Declined(why: Authorization) | Replied(reply: Reply)

  /** What an exchange reads from outside: clocks, directory, issuer. */
  datatype ExchangeWorld = ExchangeWorld(
    cutoff: Time, now: Time, directory: DirectoryAnswer, admittedAt: Time,
    issuedAt: Time, issuer: IssuerAnswer, heardAt: Time, completedAt: Time)

  datatype IdentityAnswer = Identity(subject: string) | IdentityRefused | IdentityFailed

  /** What a management request reads from outside: the authorization decision,
      clocks, fresh identifiers and a fresh secret, and the directory. */
  datatype ManagementWorld = ManagementWorld(
    authorization: Authorization, actor: string, cutoff: Time, account: string, identity: IdentityAnswer, secret: string,
    now: Time, startedAt: Time, completedAt: Time)

  lemma {:induction false} StepOn(cfg: Limits, s: State, es: seq<Step>, e: Step)
    requires LegalRun(cfg, s, es) && CanTake(cfg, FinalState(cfg, s, es), e)
    ensures LegalRun(cfg, s, es + [e]) && FinalState(cfg, s, es + [e]) == Take(cfg, FinalState(cfg, s, es), e)
    decreases |es|
  {
    if es == [] {
      assert (es + [e])[1..] == [];
    } else {
      StepOn(cfg, Take(cfg, s, es[0]), es[1..], e);
      assert (es + [e])[1..] == es[1..] + [e];
    }
  }

  datatype Listing = InvalidListing | ListingDeclined(why: Authorization) | Listed(page: Page)

  /** What drives a request: its worker and everything it will hear from outside. */
  datatype Script =
    | Exchanging(w: nat, exchange: ExchangeWorld)
    | Managing(w: nat, cfg: Limits, key: CommandKey, intent: Intent, management: ManagementWorld)

  predicate Identified(world: ManagementWorld) {
    world.identity.Identity? && ValidToken(world.identity.subject, 256)
  }

  /** The transaction of a management request. */
  function OpOf(cfg: Limits, key: CommandKey, intent: Intent, world: ManagementWorld): Option<Op> {
    var id := CredentialId(world.secret);
    match intent
    case CreateIntent(_, organization, name) =>
      if !Identified(world) || id.None? then None
      else Some(Op.Create(key, cfg.maxAccounts, world.account, organization, world.identity.subject, Trim(name),
                          Lower(Trim(name)), id.value, VerifierOf(world.secret), world.now,
                          world.now + cfg.credentialTtl, world.startedAt, ReceiptAad(key)))
    case RotateIntent(_, organization, account, revision) =>
      if ParseRevision(revision).None? || id.None? then None
      else Some(Op.Rotate(key, account, organization, ParseRevision(revision).value, id.value, VerifierOf(world.secret),
                          world.now, world.now + cfg.rotationOverlap, world.now + cfg.credentialTtl, world.startedAt,
                          ReceiptAad(key)))
    case RevokeIntent(_, organization, account, revision) =>
      if ParseRevision(revision).None? then None
      else Some(Op.Revoke(key, account, organization, ParseRevision(revision).value, world.now, world.startedAt, ReceiptAad(key)))
    case ExchangeIntent(_) => None
  }

  /** The steps a request may take: its own, on what it hears. It never gives up. */
  predicate OnScript(script: Script, e: Step) {
    match script
    case Exchanging(w, world) =>
      || e == LoadClaim(w) || e == TakeRateSlot(w, world.now) || e == Verify(w) || e == AskDirectory(w, world.directory)
      || e == MarkIssuing(w, world.admittedAt) || e == CallIssuer(w, world.issuedAt)
      || e == HearIssuer(w, world.issuer, world.heardAt) || e == CompleteExchange(w, world.completedAt)
      || e == Record(w, world.completedAt) || e == Send(w)
    case Managing(w, cfg, key, intent, world) =>
      || e == LoadClaim(w) || e == Record(w, world.completedAt) || e == Send(w)
      || (intent.CreateIntent? && !Identified(world) && e == DirectoryDeclines(w, !world.identity.IdentityFailed?))
      || (OpOf(cfg, key, intent, world).Some? && e == Mutate(w, OpOf(cfg, key, intent, world).value, world.secret))
  }

  predicate AllOnScript(script: Script, es: seq<Step>) {
    forall i :: 0 <= i < |es| ==> OnScript(script, es[i])
  }

  /** A request continued from `before` to `after` by steps of its own. */
  predicate Continues(before: seq<Step>, after: seq<Step>, script: Script) {
    before <= after && forall i :: |before| <= i < |after| ==> OnScript(script, after[i])
  }

  /** A request served: prune, claim, then its own steps to the end. */
  predicate Served(before: seq<Step>, after: seq<Step>, script: Script, key: CommandKey, intent: Intent, cutoff: Time) {
    Continues(before + [Expire(cutoff), Arrive(script.w, key, intent)], after, script)
  }

  /** At most one step of a request is possible at any time. */
  lemma OneWayOn(cfg: Limits, s: State, script: Script, e: Step, e': Step)
    requires CanTake(cfg, s, e) && CanTake(cfg, s, e') && OnScript(script, e) && OnScript(script, e')
    requires script.Managing? ==> script.w in s.workers && s.workers[script.w].intent == script.intent
    ensures e == e'
  {
    if script.Managing? { OneWayOnManaging(cfg, s, script, e, e'); }
  }

  lemma OneWayOnManaging(cfg: Limits, s: State, script: Script, e: Step, e': Step)
    requires CanTake(cfg, s, e) && CanTake(cfg, s, e') && OnScript(script, e) && OnScript(script, e') && script.Managing?
    requires script.w in s.workers && s.workers[script.w].intent == script.intent
    ensures e == e'
  {
  }

  lemma OnScriptKeepsIntent(cfg: Limits, s: State, script: Script, e: Step)
    requires CanTake(cfg, s, e) && OnScript(script, e)
    ensures script.w in s.workers && script.w in Take(cfg, s, e).workers
    ensures Take(cfg, s, e).workers[script.w].intent == s.workers[script.w].intent && !s.workers[script.w].stage.Done?
  {
    StepLeaves(cfg, s, e);
  }

  /** What a request does is determined: two ways of serving it from the same state
      to the end are the same, step by step. So a served request answers what the
      protocol has it answer, and nothing else. */
  lemma {:induction false} ServingIsDetermined(cfg: Limits, s: State, script: Script, es: seq<Step>, fs: seq<Step>)
    requires LegalRun(cfg, s, es) && LegalRun(cfg, s, fs) && AllOnScript(script, es) && AllOnScript(script, fs)
    requires script.w in s.workers && (script.Managing? ==> s.workers[script.w].intent == script.intent)
    requires Finished(FinalState(cfg, s, es), script.w) && Finished(FinalState(cfg, s, fs), script.w)
    ensures es == fs
    decreases |es|
  {
    if es != [] { OnScriptKeepsIntent(cfg, s, script, es[0]); }
    if fs != [] { OnScriptKeepsIntent(cfg, s, script, fs[0]); }
    if es != [] && fs != [] {
      OneWayOn(cfg, s, script, es[0], fs[0]);
      assert forall i :: 0 <= i < |es[1..]| ==> es[1..][i] == es[i + 1];
      assert forall i :: 0 <= i < |fs[1..]| ==> fs[1..][i] == fs[i + 1];
      ServingIsDetermined(cfg, Take(cfg, s, es[0]), script, es[1..], fs[1..]);
    }
  }

  predicate Finished(s: State, w: nat) {
    w in s.workers && s.workers[w].stage.Done?
  }

  class Service {
    const cfg: Limits
    const callers: set<string>
    const store: Store
    ghost var state: State
    ghost var steps: seq<Step>
    ghost var next: nat

    ghost predicate Valid()
      reads this, store
    {
      && Traced()
      && store.Snapshot() == state.db
    }

    /** The state is the one the protocol reaches by the steps taken so far. */
    ghost predicate Traced()
      reads this
    {
      && cfg.Valid() && (forall c :: c in callers ==> ValidCaller(c))
      && LegalRun(cfg, Start, steps) && FinalState(cfg, Start, steps) == state
      && (forall w :: w in state.workers ==> w < next)
    }

    ghost predicate Working(w: nat, key: CommandKey, intent: Intent, stage: Stage)
      reads this
    {
      w in state.workers && state.workers[w].key == key && state.workers[w].intent == intent && state.workers[w].stage == stage
    }

    constructor (cfg: Limits, callers: set<string>)
      requires cfg.Valid() && forall c :: c in callers ==> ValidCaller(c)
      ensures Valid() && state == Start && next == 0 && fresh(store)
    {
      this.cfg, this.callers := cfg, callers;
      store := new Store();
      state, steps, next := Start, [], 0;
    }

    ghost method Step(e: Step)
      requires Traced() && CanTake(cfg, state, e) && (e.Arrive? ==> e.w == next)
      modifies this`state, this`steps, this`next
      ensures Traced() && state == Take(cfg, old(state), e) && steps == old(steps) + [e]
      ensures next == old(next) + if e.Arrive? then 1 else 0
    {
      StepOn(cfg, Start, steps, e);
      steps := steps + [e];
      if e.Arrive? { next := next + 1; }
      WorkersStay(cfg, state, e);
      state := Take(cfg, state, e);
    }

    // Steps every request takes

    /** Prune, then claim the key; when it is taken, the answer is already known. */
    method Claim(key: CommandKey, intent: Intent, cutoff: Time) returns (answer: Option<Reply>)
      requires Valid() && Fits(key, intent)
      modifies this, store
      ensures Valid() && state.sent == old(state.sent) && next == old(next) + 1
      ensures steps == old(steps) + [Expire(cutoff), Arrive(old(next), key, intent)]
                       + if answer.Some? then [LoadClaim(old(next))] else []
      ensures state.secrets == old(state.secrets)
      ensures Working(old(next), key, intent, if answer.Some? then Replying(answer.value) else Claimed)
      ensures answer.Some? && answer.value.Success? && answer.value.body.ChangeBody? ==>
                !answer.value.body.changed && answer.value.body.secret.None?
    {
      PruneReceipts(cutoff);
      ghost var w := next;
      var claim := Insert(key, intent);
      if claim.Fresh? { return None; }
      var reply := Recall(w, key, intent, claim);
      answer := Some(reply);
    }

    method PruneReceipts(cutoff: Time)
      requires Valid()
      modifies this, store
      ensures Valid() && steps == old(steps) + [Expire(cutoff)] && state.sent == old(state.sent) && next == old(next)
      ensures state.secrets == old(state.secrets)
    {
      store.Prune(cutoff);
      Step(Expire(cutoff));
    }

    method Insert(key: CommandKey, intent: Intent) returns (claim: Claim)
      requires Valid() && Fits(key, intent)
      modifies this, store
      ensures Valid() && steps == old(steps) + [Arrive(old(next), key, intent)] && state.sent == old(state.sent)
      ensures state.secrets == old(state.secrets) && next == old(next) + 1
      ensures Working(old(next), key, intent, if claim.Fresh? then Claimed else Losing)
      ensures !claim.Fresh? ==> key in state.db.commands && Claims(state.db, key, intent, claim)
    {
      claim := store.ClaimCommand(key, intent);
      Step(Arrive(next, key, intent));
    }

    /** Answer from what the taken key holds. */
    method Recall(ghost w: nat, key: CommandKey, ghost intent: Intent, claim: Claim) returns (reply: Reply)
      requires Valid() && Working(w, key, intent, Losing) && key in state.db.commands && Claims(state.db, key, intent, claim)
      modifies this`state, this`steps, this`next
      ensures Valid() && steps == old(steps) + [LoadClaim(w)] && state.sent == old(state.sent) && next == old(next)
      ensures state.secrets == old(state.secrets) && Working(w, key, intent, Replying(reply))
      ensures reply.Success? && reply.body.ChangeBody? ==> !reply.body.changed && reply.body.secret.None?
    {
      reply := ReadClaim(key, claim);
      DecodesAsAnswered(state.db, key, intent, claim);
      Step(LoadClaim(w));
    }

    method RecordError(ghost w: nat, key: CommandKey, ghost intent: Intent, code: string, at: Time) returns (reply: Reply)
      requires Valid() && Working(w, key, intent, Recording(code))
      modifies this, store
      ensures Valid() && steps == old(steps) + [Record(w, at)] && state.sent == old(state.sent) && next == old(next)
      ensures Working(w, key, intent, Replying(reply)) && reply == DomainError(code)
    {
      W.EveryRun(cfg, steps);
      D.RecordIs(state, w, at);
      var ok := store.CompleteError(key, code, at);
      Step(Record(w, at));
      reply := if ok then DomainError(code) else RuntimeFailure;
    }

    ghost method Answer(w: nat, key: CommandKey, intent: Intent, reply: Reply)
      requires Traced() && Working(w, key, intent, Replying(reply))
      modifies this`state, this`steps, this`next
      ensures Traced() && state.db == old(state.db) && steps == old(steps) + [Send(w)] && next == old(next)
      ensures state.sent == old(state.sent) + [Sent(w, key, reply)] && Finished(state, w)
    {
      Step(Send(w));
    }

    // exchange_secret

    method ExchangeSecret(caller: string, key: string, secret: string, world: ExchangeWorld) returns (answer: Answer)
      requires Valid()
      modifies this, store
      ensures Valid()
      ensures answer.Declined? <==> caller !in callers
      ensures answer.Declined? ==> answer.why == Forbidden
      ensures answer.Replied? <==> caller in callers && ValidKey(key) && ValidSecret(secret)
      ensures !answer.Replied? ==> state == old(state)
      ensures answer.Replied? ==>
                var command := CommandKey(caller, Operation.ExchangeSecret, key);
                && state.sent == old(state.sent) + [Sent(old(next), command, answer.reply)] && Finished(state, old(next))
                && Served(old(steps), steps, Exchanging(old(next), world), command, ExchangeIntent(secret), world.cutoff)
    {
      if caller !in callers { return Declined(Forbidden); }
      if !ValidKey(key) || secret == "" || Utf8Length(secret) > 512 { return InvalidRequest; }
      var command, intent := CommandKey(caller, Operation.ExchangeSecret, key), ExchangeIntent(secret);
      ghost var w := next;
      var known := Claim(command, intent, world.cutoff);
      var reply: Reply;
      if known.Some? {
        reply := known.value;
      } else {
        reply := Exchange(w, command, secret, world);
      }
      Answer(w, command, intent, reply);
      answer := Replied(reply);
    }

    method Exchange(ghost w: nat, key: CommandKey, secret: string, world: ExchangeWorld) returns (reply: Reply)
      requires Valid() && Working(w, key, ExchangeIntent(secret), Claimed) && key.operation == Operation.ExchangeSecret
      modifies this, store
      ensures Valid() && Continues(old(steps), steps, Exchanging(w, world)) && state.sent == old(state.sent) && next == old(next)
      ensures Working(w, key, ExchangeIntent(secret), Replying(reply))
    {
      ghost var intent := ExchangeIntent(secret);
      var ok := TakeSlot(w, key, intent, world.now);
      if !ok {
        reply := RecordError(w, key, intent, "rate_limited", world.completedAt);
        return;
      }
      reply := CheckSecret(w, key, secret, world);
    }

    method CheckSecret(ghost w: nat, key: CommandKey, secret: string, world: ExchangeWorld) returns (reply: Reply)
      requires Valid() && w in state.workers && state.workers[w].stage.Slotted?
      requires Working(w, key, ExchangeIntent(secret), Slotted(state.workers[w].stage.slot, world.now))
      requires key.operation == Operation.ExchangeSecret
      modifies this, store
      ensures Valid() && Continues(old(steps), steps, Exchanging(w, world)) && state.sent == old(state.sent) && next == old(next)
      ensures Working(w, key, ExchangeIntent(secret), Replying(reply))
    {
      ghost var intent := ExchangeIntent(secret);
      var credential := Authenticate(w, key, secret, world.now);
      if credential.None? {
        reply := RecordError(w, key, intent, "invalid_credentials", world.completedAt);
        return;
      }
      reply := ConsultDirectory(w, key, intent, credential.value, world);
    }

    method ConsultDirectory(ghost w: nat, key: CommandKey, ghost intent: Intent, credential: CredentialRow, world: ExchangeWorld)
      returns (reply: Reply)
      requires Valid() && intent.ExchangeIntent? && w in state.workers && state.workers[w].stage.Checked?
      requires Working(w, key, intent, Checked(state.workers[w].stage.slot, credential))
      requires key.operation == Operation.ExchangeSecret
      modifies this, store
      ensures Valid() && Continues(old(steps), steps, Exchanging(w, world)) && state.sent == old(state.sent) && next == old(next)
      ensures Working(w, key, intent, Replying(reply))
    {
      Step(AskDirectory(w, world.directory));
      match world.directory {
        case SubjectActive => reply := IssueSession(w, key, intent, credential, world);
        case SubjectDisabled => reply := RecordError(w, key, intent, "disabled", world.completedAt);
        case DirectoryUnclear => reply := RuntimeFailure;
      }
    }

    method TakeSlot(ghost w: nat, key: CommandKey, ghost intent: Intent, now: Time) returns (ok: bool)
      requires Valid() && Working(w, key, intent, Claimed) && intent.ExchangeIntent?
      modifies this, store
      ensures Valid() && steps == old(steps) + [TakeRateSlot(w, now)] && state.sent == old(state.sent) && next == old(next)
      ensures Working(w, key, intent, if ok then Slotted(|old(state.h)|, now) else Recording("rate_limited"))
    {
      ok := store.ReserveRateSlot(key.caller, now, cfg.exchangeWindow, cfg.maxExchanges, cfg.exchangeLockout);
      Step(TakeRateSlot(w, now));
    }

    /** Look the credential up by the id in the secret and verify the secret, against
        a dummy verifier when there is none. */
    method Authenticate(ghost w: nat, key: CommandKey, secret: string, now: Time) returns (credential: Option<CredentialRow>)
      requires Valid() && w in state.workers && state.workers[w].stage.Slotted?
      requires Working(w, key, ExchangeIntent(secret), Slotted(state.workers[w].stage.slot, now))
      modifies this, store
      ensures Valid() && steps == old(steps) + [Verify(w)] && state.sent == old(state.sent) && next == old(next)
      ensures Working(w, key, ExchangeIntent(secret),
                if credential.Some? then Checked(old(state.workers[w].stage.slot), credential.value)
                else Recording("invalid_credentials"))
    {
      var candidate := CredentialId(secret);
      credential := None;
      if candidate.Some? { credential := store.LoadCredential(candidate.value); }
      var matches := credential.Some? && credential.value.verifier == VerifierOf(secret);
      if credential.Some? {
        var row := credential.value;
        if !(matches && row.status == Active && row.revokedAt.None? && row.validFrom <= now && now < row.validUntil) {
          credential := None;
        }
      }
      assert credential == Lookup(state.db, secret, now);
      Step(Verify(w));
    }

    /** From the directory's consent to the accepted session. */
    method IssueSession(ghost w: nat, key: CommandKey, ghost intent: Intent, credential: CredentialRow, world: ExchangeWorld)
      returns (reply: Reply)
      requires Valid() && intent.ExchangeIntent? && w in state.workers && state.workers[w].stage.Eligible?
      requires Working(w, key, intent, Eligible(state.workers[w].stage.slot, credential))
      requires key.operation == Operation.ExchangeSecret
      modifies this, store
      ensures Valid() && Continues(old(steps), steps, Exchanging(w, world)) && state.sent == old(state.sent) && next == old(next)
      ensures Working(w, key, intent, Replying(reply))
    {
      var row := Mark(w, key, intent, credential, world.admittedAt);
      if row.None? {
        reply := RecordError(w, key, intent, "invalid_credentials", world.completedAt);
        return;
      }
      reply := IssueAdmitted(w, key, intent, row.value, world);
    }

    method IssueAdmitted(ghost w: nat, key: CommandKey, ghost intent: Intent, row: CredentialRow, world: ExchangeWorld)
      returns (reply: Reply)
      requires Valid() && w in state.workers && state.workers[w].stage.Granted?
      requires Working(w, key, intent, state.workers[w].stage)
      requires state.workers[w].stage.admission < |state.h| && IsAdmission(state.h[state.workers[w].stage.admission])
      requires Admission(state, state.workers[w].stage.admission) == row
      modifies this, store
      ensures Valid() && Continues(old(steps), steps, Exchanging(w, world)) && state.sent == old(state.sent) && next == old(next)
      ensures Working(w, key, intent, Replying(reply))
    {
      var expiresAt := Call(w, key, intent, row, world.issuedAt);
      if expiresAt <= world.issuedAt {
        reply := RecordError(w, key, intent, "invalid_credentials", world.completedAt);
        return;
      }
      reply := Receive(w, key, intent, row, expiresAt, world);
    }

    /** Bound the session by the token lifetime and the credential, and call the issuer
        unless nothing is left. */
    method Call(ghost w: nat, key: CommandKey, ghost intent: Intent, row: CredentialRow, now: Time) returns (expiresAt: Time)
      requires Valid() && w in state.workers && state.workers[w].stage.Granted?
      requires Working(w, key, intent, state.workers[w].stage)
      requires state.workers[w].stage.admission < |state.h| && IsAdmission(state.h[state.workers[w].stage.admission])
      requires Admission(state, state.workers[w].stage.admission) == row
      modifies this, store
      ensures Valid() && steps == old(steps) + [CallIssuer(w, now)] && state.sent == old(state.sent) && next == old(next)
      ensures expiresAt <= now + cfg.tokenTtl && expiresAt <= row.validUntil
      ensures Working(w, key, intent, if expiresAt <= now then Recording("invalid_credentials") else Awaiting(|old(state.calls)|))
      ensures expiresAt > now ==>
                && CallKnown(state, |old(state.calls)|)
                && state.calls[|old(state.calls)|].expiresAt == expiresAt
                && Admission(state, state.calls[|old(state.calls)|].admission) == row
    {
      expiresAt := Min(now + cfg.tokenTtl, row.validUntil);
      Step(CallIssuer(w, now));
    }

    method Mark(ghost w: nat, key: CommandKey, ghost intent: Intent, credential: CredentialRow, now: Time)
      returns (row: Option<CredentialRow>)
      requires Valid() && intent.ExchangeIntent? && w in state.workers && state.workers[w].stage.Eligible?
      requires Working(w, key, intent, Eligible(state.workers[w].stage.slot, credential))
      requires key.operation == Operation.ExchangeSecret
      modifies this, store
      ensures Valid() && steps == old(steps) + [MarkIssuing(w, now)] && state.sent == old(state.sent) && next == old(next)
      ensures Working(w, key, intent, if row.Some? then Granted(old(state.workers[w].stage.slot), |old(state.h)|)
                                      else Recording("invalid_credentials"))
      ensures row.Some? ==> |old(state.h)| < |state.h| && IsAdmission(state.h[|old(state.h)|])
                            && Admission(state, |old(state.h)|) == row.value
    {
      var op := Admit(key.caller, key.key, credential.account, credential.id, now);
      StatementsCompose(store.Snapshot(), op);
      var outcome := store.MarkExchangeIssuing(op);
      assert AdmitOp(state.workers[w], now) == op;
      Step(MarkIssuing(w, now));
      row := if outcome.Admitted? then Some(outcome.credential) else None;
    }

    /** Judge the issuer's answer and complete the command with an accepted one; any
        unclear answer leaves it `issuing`. */
    method Receive(ghost w: nat, key: CommandKey, ghost intent: Intent, row: CredentialRow, expiresAt: Time, world: ExchangeWorld)
      returns (reply: Reply)
      requires Valid() && w in state.workers && state.workers[w].stage.Awaiting?
      requires Working(w, key, intent, Awaiting(state.workers[w].stage.call))
      requires CallKnown(state, state.workers[w].stage.call)
      requires var c := state.calls[state.workers[w].stage.call]; c.expiresAt == expiresAt && Admission(state, c.admission) == row
      modifies this, store
      ensures Valid() && Continues(old(steps), steps, Exchanging(w, world)) && state.sent == old(state.sent) && next == old(next)
      ensures Working(w, key, intent, Replying(reply))
    {
      Step(HearIssuer(w, world.issuer, world.heardAt));
      match world.issuer {
        case SubjectRefused => reply := RecordError(w, key, intent, "disabled", world.completedAt);
        case IssuerUnclear => reply := RuntimeFailure;
        case Session(id, token, until) => reply := Judge(w, key, intent, row, expiresAt, id, token, until, world);
      }
    }

    /** Accept a session within its bounds and complete the command with it. */
    method Judge(ghost w: nat, key: CommandKey, ghost intent: Intent, row: CredentialRow, expiresAt: Time,
                 id: string, token: string, until: Time, world: ExchangeWorld)
      returns (reply: Reply)
      requires Valid() && w in state.workers
      requires var response := ExchangeResponse(row.account, row.organization, row.subject, id, token, until);
               if WithinBounds(Session(id, token, until), world.heardAt, expiresAt)
               then state.workers[w].stage.Accepted? && Working(w, key, intent, Accepted(state.workers[w].stage.call, response))
               else Working(w, key, intent, Replying(RuntimeFailure))
      modifies this, store
      ensures Valid() && Continues(old(steps), steps, Exchanging(w, world)) && state.sent == old(state.sent) && next == old(next)
      ensures Working(w, key, intent, Replying(reply))
    {
      if id == "" || Utf8Length(id) > 256 || token == "" || Utf8Length(token) > 65_536 { return RuntimeFailure; }
      if until <= world.heardAt || until > expiresAt { return RuntimeFailure; }
      var response := ExchangeResponse(row.account, row.organization, row.subject, id, token, until);
      reply := Complete(w, key, intent, response, world.completedAt);
    }

    method Complete(ghost w: nat, key: CommandKey, ghost intent: Intent, response: ExchangeResponse, at: Time) returns (reply: Reply)
      requires Valid() && w in state.workers && state.workers[w].stage.Accepted?
      requires Working(w, key, intent, Accepted(state.workers[w].stage.call, response))
      modifies this, store
      ensures Valid() && steps == old(steps) + [CompleteExchange(w, at)] && state.sent == old(state.sent) && next == old(next)
      ensures Working(w, key, intent, Replying(reply))
    {
      var ok := store.CompleteSuccess(key, Sealed(ReceiptAad(key), ExchangeBody(response)), at);
      Step(CompleteExchange(w, at));
      reply := if ok then Success(ExchangeBody(response)) else RuntimeFailure;
    }

    // list

    /** A page of accounts: the limit is canonical and within the configured page size,
        and every row is its account as the committed changes tell it. */
    method List(organization: string, after: Option<string>, limit: string, authorization: Authorization) returns (answer: Listing)
      requires Valid()
      ensures answer.InvalidListing? <==>
                || ParsePageLimit(limit, cfg.maxPageSize).None? || !ValidToken(organization, 256)
                || (after.Some? && !ValidToken(after.value, 128))
      ensures !answer.InvalidListing? ==> if authorization.Permitted? then answer.Listed? else answer == ListingDeclined(authorization)
      ensures answer.Listed? ==>
                var keys := After(AccountsOf(state.db, organization), after);
                var n := ParsePageLimit(limit, cfg.maxPageSize).value;
                && n > 0 && IsFirst(Ids(answer.page.rows), keys, n)
                && answer.page.nextCursor == (if |keys| > n then Cursor(Ids(answer.page.rows)) else None)
      ensures answer.Listed? ==> forall i :: 0 <= i < |answer.page.rows| ==> RowIsTold(state, answer.page.rows[i])
    {
      var n := ParsePageLimit(limit, cfg.maxPageSize);
      if n.None? || !ValidToken(organization, 256) || (after.Some? && !ValidToken(after.value, 128)) { return InvalidListing; }
      if !authorization.Permitted? { return ListingDeclined(authorization); }
      var page := store.List(organization, after, n.value);
      W.EveryRun(cfg, steps);
      forall i | 0 <= i < |page.rows| ensures RowIsTold(state, page.rows[i]) {
        LoadedIsTold(cfg, state, page.rows[i].id);
      }
      answer := Listed(page);
    }

    // create, rotate_secret, revoke

    /** Claim the key and, if it is ours, run the request's transaction. */
    method Manage(key: CommandKey, intent: Intent, world: ManagementWorld) returns (reply: Reply)
      requires Valid() && Fits(key, intent) && !intent.ExchangeIntent?
      requires Supplied(state, intent, world)
      modifies this, store
      ensures Valid() && state.sent == old(state.sent) + [Sent(old(next), key, reply)] && Finished(state, old(next))
      ensures Served(old(steps), steps, Managing(old(next), cfg, key, intent, world), key, intent, world.cutoff)
      ensures TellsChange(cfg, intent, world, reply)
    {
      ghost var w := next;
      var known := Claim(key, intent, world.cutoff);
      if known.Some? {
        reply := known.value;
      } else if intent.CreateIntent? {
        reply := CreateClaimed(w, key, intent, world);
      } else {
        reply := ChangeClaimed(w, key, intent, world);
      }
      Answer(w, key, intent, reply);
    }

    /** The store has just run the transaction of the worker's request. */
    ghost method StepMutate(w: nat, key: CommandKey, intent: Intent, op: Op, world: ManagementWorld, outcome: Outcome)
      requires Traced() && Working(w, key, intent, Claimed) && Supplied(state, intent, world)
      requires Fits(key, intent) && OpOf(cfg, key, intent, world) == Some(op)
      requires (store.Snapshot(), outcome) == Alone(state.db, op)
      modifies this`state, this`steps, this`next
      ensures Valid() && Continues(old(steps), steps, Managing(w, cfg, key, intent, world))
      ensures state.sent == old(state.sent) && next == old(next)
      ensures Working(w, key, intent, AfterMutation(op, outcome, world.secret))
      ensures !op.Revoke? && outcome.Changed? ==> outcome.changed
      ensures outcome.Changed? && outcome.changed ==> E.ShowsChange(cfg, op, outcome.row)
    {
      StatementsCompose(state.db, op);
      if !op.Revoke? && outcome.Changed? { R.AlwaysChanges(state.db, op); }
      OpFits(cfg, key, intent, world, op);
      Step(Mutate(w, op, world.secret));
      LastChangeIsShown(cfg, steps, op, outcome);
    }

    method CreateClaimed(ghost w: nat, key: CommandKey, intent: Intent, world: ManagementWorld) returns (reply: Reply)
      requires Valid() && Working(w, key, intent, Claimed) && intent.CreateIntent?
      requires Fits(key, intent) && Supplied(state, intent, world)
      modifies this, store
      ensures Valid() && Continues(old(steps), steps, Managing(w, cfg, key, intent, world))
      ensures state.sent == old(state.sent) && next == old(next)
      ensures Working(w, key, intent, Replying(reply)) && TellsChange(cfg, intent, world, reply)
    {
      if Identified(world) {
        reply := ChangeClaimed(w, key, intent, world);
      } else if world.identity.IdentityFailed? {
        Step(DirectoryDeclines(w, false));
        reply := RuntimeFailure;
      } else {
        Step(DirectoryDeclines(w, true));
        reply := RecordError(w, key, intent, "directory_rejected", world.completedAt);
      }
    }

    method ChangeClaimed(ghost w: nat, key: CommandKey, intent: Intent, world: ManagementWorld) returns (reply: Reply)
      requires Valid() && Working(w, key, intent, Claimed) && !intent.ExchangeIntent?
      requires Fits(key, intent) && Supplied(state, intent, world) && (intent.CreateIntent? ==> Identified(world))
      modifies this, store
      ensures Valid() && Continues(old(steps), steps, Managing(w, cfg, key, intent, world))
      ensures state.sent == old(state.sent) && next == old(next)
      ensures Working(w, key, intent, Replying(reply)) && TellsChange(cfg, intent, world, reply)
      ensures IsReply(D.StageAfter(old(store.Snapshot()), OpOf(cfg, key, intent, world).value, world.secret), reply)
    {
      var op := OpOf(cfg, key, intent, world).value;
      var outcome := RunChange(w, key, intent, op, world);
      reply := AnswerOutcome(w, key, intent, op, outcome, world);
      AnswerTells(cfg, key, intent, world, op, outcome, reply);
    }

    method RunChange(ghost w: nat, key: CommandKey, intent: Intent, op: Op, world: ManagementWorld) returns (outcome: Outcome)
      requires Valid() && Working(w, key, intent, Claimed) && Fits(key, intent) && Supplied(state, intent, world)
      requires OpOf(cfg, key, intent, world) == Some(op)
      modifies this, store
      ensures Valid() && Continues(old(steps), steps, Managing(w, cfg, key, intent, world))
      ensures state.sent == old(state.sent) && next == old(next)
      ensures outcome == Alone(old(store.Snapshot()), op).1 && Working(w, key, intent, AfterMutation(op, outcome, world.secret))
      ensures !op.Revoke? && outcome.Changed? ==> outcome.changed
      ensures outcome.Changed? && outcome.changed ==> E.ShowsChange(cfg, op, outcome.row)
    {
      match op {
        case Create(_, _, _, _, _, _, _, _, _, _, _, _, _) => outcome := store.CreateAccount(op);
        case Rotate(_, _, _, _, _, _, _, _, _, _, _) => outcome := store.RotateAccount(op);
        case Revoke(_, _, _, _, _, _, _) => outcome := store.RevokeAccount(op);
      }
      StepMutate(w, key, intent, op, world, outcome);
    }

    /** From the outcome of the transaction to the answer, each operation with the
        errors it knows. */
    method AnswerOutcome(ghost w: nat, key: CommandKey, ghost intent: Intent, op: Op, outcome: Outcome, world: ManagementWorld)
      returns (reply: Reply)
      requires Valid() && !op.Admit? && Working(w, key, intent, AfterMutation(op, outcome, world.secret))
      requires !op.Revoke? && outcome.Changed? ==> outcome.changed
      modifies this, store
      ensures Valid() && Continues(old(steps), steps, Managing(w, cfg, key, intent, world))
      ensures state.sent == old(state.sent) && next == old(next)
      ensures Working(w, key, intent, Replying(reply)) && IsReply(AfterMutation(op, outcome, world.secret), reply)
    {
      var code := "";
      if op.Create? {
        match outcome {
          case Changed(row, _) => return Success(ChangeBody(row, true, Some(world.secret)));
          case LimitReached => code := "too_many_service_accounts";
          case UniqueViolation(NameUnique) => code := "name_conflict";
          case UniqueViolation(SubjectUnique) => code := "directory_rejected";
          case _ => return RuntimeFailure;
        }
      } else if op.Rotate? {
        match outcome {
          case Changed(row, _) => return Success(ChangeBody(row, true, Some(world.secret)));
          case NotFound => code := "not_found";
          case AlreadyRevoked => code := "revoked";
          case RevisionConflict => code := "revision_conflict";
          case _ => return RuntimeFailure;
        }
      } else {
        match outcome {
          case Changed(row, changed) => return Success(ChangeBody(row, changed, None));
          case NotFound => code := "not_found";
          case RevisionConflict => code := "revision_conflict";
          case _ => return RuntimeFailure;
        }
      }
      reply := RecordError(w, key, intent, code, world.completedAt);
    }

    method Create(caller: string, organization: string, name: string, key: string, world: ManagementWorld) returns (answer: Answer)
      requires Valid() && (world.authorization.Permitted? ==> ValidCaller(caller))
      requires FreshSecret(state, world.secret) && ValidToken(world.account, 128)
      modifies this, store
      ensures Valid()
      ensures answer.InvalidRequest? <==> !(ValidKey(key) && ValidToken(organization, 256) && ValidName(name))
      ensures !answer.InvalidRequest? ==> if world.authorization.Permitted? then answer.Replied? else answer == Declined(world.authorization)
      ensures !answer.Replied? ==> state == old(state)
      ensures answer.Replied? ==>
                var command, intent := CommandKey(caller, Operation.CreateAccount, key), CreateIntent(world.actor, organization, name);
                && state.sent == old(state.sent) + [Sent(old(next), command, answer.reply)] && Finished(state, old(next))
                && TellsChange(cfg, intent, world, answer.reply)
                && Served(old(steps), steps, Managing(old(next), cfg, command, intent, world), command, intent, world.cutoff)
    {
      if !ValidKey(key) || !ValidToken(organization, 256) || !ValidName(name) { return InvalidRequest; }
      if !world.authorization.Permitted? { return Declined(world.authorization); }
      var reply := Manage(CommandKey(caller, Operation.CreateAccount, key), CreateIntent(world.actor, organization, name), world);
      answer := Replied(reply);
    }

    method Rotate(caller: string, organization: string, account: string, revision: string, key: string, world: ManagementWorld)
      returns (answer: Answer)
      requires Valid() && (world.authorization.Permitted? ==> ValidCaller(caller)) && FreshSecret(state, world.secret)
      modifies this, store
      ensures Valid()
      ensures answer.InvalidRequest? <==> !ValidChange(key, organization, account, revision)
      ensures !answer.InvalidRequest? ==> if world.authorization.Permitted? then answer.Replied? else answer == Declined(world.authorization)
      ensures !answer.Replied? ==> state == old(state)
      ensures answer.Replied? ==>
                var command, intent := CommandKey(caller, Operation.RotateSecret, key), RotateIntent(world.actor, organization, account, revision);
                && state.sent == old(state.sent) + [Sent(old(next), command, answer.reply)] && Finished(state, old(next))
                && TellsChange(cfg, intent, world, answer.reply)
                && Served(old(steps), steps, Managing(old(next), cfg, command, intent, world), command, intent, world.cutoff)
    {
      if !ValidChange(key, organization, account, revision) { return InvalidRequest; }
      if !world.authorization.Permitted? { return Declined(world.authorization); }
      var reply := Manage(CommandKey(caller, Operation.RotateSecret, key), RotateIntent(world.actor, organization, account, revision), world);
      answer := Replied(reply);
    }

    method Revoke(caller: string, organization: string, account: string, revision: string, key: string, world: ManagementWorld)
      returns (answer: Answer)
      requires Valid() && (world.authorization.Permitted? ==> ValidCaller(caller))
      modifies this, store
      ensures Valid()
      ensures answer.InvalidRequest? <==> !ValidChange(key, organization, account, revision)
      ensures !answer.InvalidRequest? ==> if world.authorization.Permitted? then answer.Replied? else answer == Declined(world.authorization)
      ensures !answer.Replied? ==> state == old(state)
      ensures answer.Replied? ==>
                var command, intent := CommandKey(caller, Operation.RevokeAccount, key), RevokeIntent(world.actor, organization, account, revision);
                && state.sent == old(state.sent) + [Sent(old(next), command, answer.reply)] && Finished(state, old(next))
                && TellsChange(cfg, intent, world, answer.reply)
                && Served(old(steps), steps, Managing(old(next), cfg, command, intent, world), command, intent, world.cutoff)
    {
      if !ValidChange(key, organization, account, revision) { return InvalidRequest; }
      if !world.authorization.Permitted? { return Declined(world.authorization); }
      var reply := Manage(CommandKey(caller, Operation.RevokeAccount, key), RevokeIntent(world.actor, organization, account, revision), world);
      answer := Replied(reply);
    }
  }

  /** What the random source owes a request: a fresh secret for a creation or a
      rotation, and a well-formed account id for a creation. */
  predicate Supplied(s: State, intent: Intent, world: ManagementWorld) {
    && (!intent.RevokeIntent? ==> FreshSecret(s, world.secret))
    && (intent.CreateIntent? ==> ValidToken(world.account, 128))
  }

  lemma OpFits(cfg: Limits, key: CommandKey, intent: Intent, world: ManagementWorld, op: Op)
    requires Fits(key, intent) && OpOf(cfg, key, intent, world) == Some(op)
    requires intent.CreateIntent? ==> ValidToken(world.account, 128)
    ensures OpFor(cfg, key, intent, op, world.secret)
  {
  }

  /** The row is its account as the entries of the history tell it. */
  ghost predicate RowIsTold(s: State, row: AccountRow) {
    E.Story(s.h, row.id).Some? && E.RowOf(row, row.id, E.Story(s.h, row.id).value, CredentialsOf(s.db, row.id))
  }

  lemma LoadedIsTold(cfg: Limits, s: State, x: string)
    requires W.HistoryInv(cfg, s) && x in s.db.accounts
    ensures LoadRow(s.db, x).id == x && RowIsTold(s, LoadRow(s.db, x))
  {
    assert s.h[..|s.h|] == s.h;
    E.RowsAreTold(cfg, s.h, |s.h|, x);
  }

  /** The reply a stage leads to without anything else happening. */
  predicate IsReply(stage: Stage, reply: Reply) {
    && (stage.Recording? ==> reply == DomainError(stage.code))
    && (stage.Replying? ==> reply == stage.reply)
  }

  /** A change answered as made carries the account as requested and generated, and the
      generated secret, or none for a revocation. */
  predicate TellsChange(cfg: Limits, intent: Intent, world: ManagementWorld, reply: Reply) {
    reply.Success? && reply.body.ChangeBody? && reply.body.changed ==>
      var row, secret := reply.body.account, reply.body.secret;
      match intent
      case CreateIntent(_, organization, name) =>
        && Identified(world) && row.id == world.account && row.organization == organization
        && row.subject == world.identity.subject && row.name == Trim(name) && row.status == Active && row.revision == 1
        && row.createdAt == world.startedAt && row.rotatedAt == None && row.revokedAt == None
        && row.credentialExpiresAt == Some(world.now + cfg.credentialTtl) && secret == Some(world.secret)
      case RotateIntent(_, _, account, revision) =>
        && row.id == account && row.status == Active && ParseRevision(revision) == Some(row.revision - 1)
        && row.rotatedAt == Some(world.now) && row.revokedAt == None && secret == Some(world.secret)
      case RevokeIntent(_, _, account, revision) =>
        && row.id == account && row.status == AccountStatus.Revoked && ParseRevision(revision) == Some(row.revision - 1)
        && row.revokedAt == Some(world.now) && secret == None
      case ExchangeIntent(_) => true
  }

  lemma AnswerTells(cfg: Limits, key: CommandKey, intent: Intent, world: ManagementWorld, op: Op, outcome: Outcome, reply: Reply)
    requires OpOf(cfg, key, intent, world) == Some(op) && IsReply(AfterMutation(op, outcome, world.secret), reply)
    requires outcome.Changed? && outcome.changed ==> E.ShowsChange(cfg, op, outcome.row)
    ensures TellsChange(cfg, intent, world, reply)
  {
  }

  lemma LastChangeIsShown(cfg: Limits, steps: seq<Step>, op: Op, outcome: Outcome)
    requires cfg.Valid() && LegalRun(cfg, Start, steps) && FinalState(cfg, Start, steps).h != []
    requires var h := FinalState(cfg, Start, steps).h; h[|h| - 1] == Entry(Transact(op), Transacted(outcome))
    ensures outcome.Changed? && outcome.changed ==> E.ShowsChange(cfg, op, outcome.row)
  {
    W.EveryRun(cfg, steps);
    var h := FinalState(cfg, Start, steps).h;
    if outcome.Changed? && outcome.changed { E.ReturnedFields(cfg, h, |h| - 1); }
  }

  predicate ValidChange(key: string, organization: string, account: string, revision: string) {
    ValidKey(key) && ValidToken(organization, 256) && ValidToken(account, 128) && ParseRevision(revision).Some?
  }

  /** A generated secret: well formed, and never generated before. */
  predicate FreshSecret(s: State, secret: string) {
    CredentialId(secret).Some? && secret !in s.secrets
  }

  /** The answer a request reads off the row that holds its key. */
  function ReadClaim(key: CommandKey, claim: Claim): Reply
    requires !claim.Fresh?
  {
    match claim
    case Clash => IdempotencyConflict
    case Busy => OperationInProgress
    case Refused(code) => if Decodes(key.operation, code) then DomainError(code) else RuntimeFailure
    case Replayed(receipt) =>
      var body := Open(receipt, ReceiptAad(key));
      if body.None? then RuntimeFailure
      else if key.operation == Operation.ExchangeSecret then
        if body.value.ExchangeBody? then Success(body.value) else RuntimeFailure
      else if body.value.ChangeBody? then Success(body.value.(changed := false, secret := None))
      else RuntimeFailure
  }

  lemma DecodesAsAnswered(db: Db, key: CommandKey, intent: Intent, claim: Claim)
    requires key in db.commands && Claims(db, key, intent, claim)
    ensures ReadClaim(key, claim) == Answered(key, intent, db)
  {
  }

  lemma WorkersStay(cfg: Limits, s: State, e: Step)
    requires CanTake(cfg, s, e)
    ensures Take(cfg, s, e).workers.Keys == s.workers.Keys + if e.Arrive? then {e.w} else {}
  {
    StepLeaves(cfg, s, e);
    LeavesKeys(s, e, Take(cfg, s, e));
  }

  lemma LeavesKeys(s: State, e: Step, t: State)
    requires Leaves(s, e, t)
    ensures t.workers.Keys == s.workers.Keys + if e.Arrive? then {e.w} else {}
  {
  }
}
