/** Over every run: each error answered was due when it was decided, each session was
    earned with a secret some commit stored, and says what the issuer said. */
module Answers {
  import opened Tables
  import opened Tokens
  import opened Secrets
  import opened Transactions
  import opened Interleaving
  import opened Guarantees
  import opened Histories
  import opened Effects
  import opened Protocol
  import opened Decisions
  import W = Workers
  import I = Issuance
  import R = Receipts

  // Prefixes of a run

  lemma {:induction false} RunUpTo(cfg: Limits, s: State, es: seq<Step>, n: nat)
    requires LegalRun(cfg, s, es) && n <= |es|
    ensures LegalRun(cfg, s, es[..n])
    ensures n < |es| ==>
              && CanTake(cfg, FinalState(cfg, s, es[..n]), es[n]) && LegalRun(cfg, s, es[..n + 1])
              && FinalState(cfg, s, es[..n + 1]) == Take(cfg, FinalState(cfg, s, es[..n]), es[n])
    decreases |es|
  {
    if es != [] && n > 0 {
      RunUpTo(cfg, Take(cfg, s, es[0]), es[1..], n - 1);
      assert es[..n][1..] == es[1..][..n - 1];
      if n < |es| { assert es[..n + 1][1..] == es[1..][..n]; }
    } else if es != [] {
      assert es[..0] == [] && es[..1] == [es[0]] && es[..1][1..] == [];
    }
  }

  // Why an error is answered

  /** Step `k` of the run, taken by a worker with this request, made the error due. */
  ghost predicate DueAt(cfg: Limits, es: seq<Step>, k: nat, key: CommandKey, intent: Intent, code: string) {
    && k < |es| && LegalRun(cfg, Start, es[..k]) && !es[k].Expire? && !es[k].Arrive?
    && var s := FinalState(cfg, Start, es[..k]);
       && CanTake(cfg, s, es[k]) && es[k].w in s.workers
       && s.workers[es[k].w].key == key && s.workers[es[k].w].intent == intent
       && ErrorDue(cfg, s, es[k], code)
  }

  ghost predicate WasDue(cfg: Limits, es: seq<Step>, key: CommandKey, intent: Intent, code: string) {
    exists k :: DueAt(cfg, es, k, key, intent, code)
  }

  /** Step `k` of the run was this answer of the issuer to call `i`. */
  ghost predicate SaidAt(cfg: Limits, es: seq<Step>, k: nat, i: nat, r: ExchangeResponse) {
    && k < |es| && LegalRun(cfg, Start, es[..k]) && es[k].HearIssuer?
    && var s := FinalState(cfg, Start, es[..k]);
       && CanTake(cfg, s, es[k]) && s.workers[es[k].w].stage == Awaiting(i)
       && es[k].issuer == Session(r.session, r.token, r.expiresAt)
       && i < |s.calls| && Acceptable(es[k].issuer, es[k].now, s.calls[i].expiresAt)
  }

  ghost predicate WasSaid(cfg: Limits, es: seq<Step>, i: nat, r: ExchangeResponse) {
    exists k :: SaidAt(cfg, es, k, i, r)
  }

  /** Step `k` of the run was the directory calling the subject of this claim active. */
  ghost predicate ActiveAt(cfg: Limits, es: seq<Step>, k: nat, claim: nat) {
    && k < |es| && LegalRun(cfg, Start, es[..k]) && es[k].AskDirectory? && es[k].directory.SubjectActive?
    && var s := FinalState(cfg, Start, es[..k]); CanTake(cfg, s, es[k]) && s.workers[es[k].w].claim == claim
  }

  ghost predicate WasActive(cfg: Limits, es: seq<Step>, claim: nat) {
    exists k :: ActiveAt(cfg, es, k, claim)
  }

  lemma ActiveLater(cfg: Limits, es: seq<Step>, e: Step, claim: nat)
    requires WasActive(cfg, es, claim)
    ensures WasActive(cfg, es + [e], claim)
  {
    var k: nat :| ActiveAt(cfg, es, k, claim);
    assert (es + [e])[..k] == es[..k];
    assert ActiveAt(cfg, es + [e], k, claim);
  }

  lemma DueLater(cfg: Limits, es: seq<Step>, e: Step, key: CommandKey, intent: Intent, code: string)
    requires WasDue(cfg, es, key, intent, code)
    ensures WasDue(cfg, es + [e], key, intent, code)
  {
    var k: nat :| DueAt(cfg, es, k, key, intent, code);
    assert (es + [e])[..k] == es[..k];
    assert DueAt(cfg, es + [e], k, key, intent, code);
  }

  lemma SaidLater(cfg: Limits, es: seq<Step>, e: Step, i: nat, r: ExchangeResponse)
    requires WasSaid(cfg, es, i, r)
    ensures WasSaid(cfg, es + [e], i, r)
  {
    var k: nat :| SaidAt(cfg, es, k, i, r);
    assert (es + [e])[..k] == es[..k];
    assert SaidAt(cfg, es + [e], k, i, r);
  }

  /** The error a worker is about to record, or to answer. */
  function ErrorOf(stage: Stage): Option<string> {
    match stage
    case Recording(code) => Some(code)
    case Replying(DomainError(code)) => Some(code)
    case _ => None
  }

  function StoredError(db: Db, key: CommandKey): Option<string> {
    if key in db.commands && db.commands[key].state.CompletedError? then Some(db.commands[key].state.code) else None
  }

  ghost predicate WorkersDue(cfg: Limits, es: seq<Step>, s: State) {
    forall w :: w in s.workers && ErrorOf(s.workers[w].stage).Some? ==>
      WasDue(cfg, es, s.workers[w].key, s.workers[w].intent, ErrorOf(s.workers[w].stage).value)
  }

  ghost predicate CommandsDue(cfg: Limits, es: seq<Step>, s: State) {
    forall k :: StoredError(s.db, k).Some? ==> WasDue(cfg, es, k, s.db.commands[k].intent, StoredError(s.db, k).value)
  }

  ghost predicate SentDue(cfg: Limits, es: seq<Step>, s: State) {
    forall i :: 0 <= i < |s.sent| ==>
      && s.sent[i].worker in s.workers && s.workers[s.sent[i].worker].key == s.sent[i].key
      && (s.sent[i].reply.DomainError? ==>
            WasDue(cfg, es, s.sent[i].key, s.workers[s.sent[i].worker].intent, s.sent[i].reply.code))
  }

  ghost predicate SessionsSaid(cfg: Limits, es: seq<Step>, s: State) {
    && (forall w :: w in s.workers && s.workers[w].stage.Accepted? ==>
          WasSaid(cfg, es, s.workers[w].stage.call, s.workers[w].stage.response))
    && (forall a :: 0 <= a < |s.accepted| ==> WasSaid(cfg, es, s.accepted[a].call, s.accepted[a].response))
  }

  lemma ChangeStoresNoError(db: Db, op: Op, k: CommandKey)
    requires StoredError(Perform(db, Transact(op)).0, k).Some?
    ensures k in db.commands && Perform(db, Transact(op)).0.commands[k] == db.commands[k]
  {
    W.TransactCommands(db, op);
  }

  lemma ActionStoresNoError(db: Db, a: Action, k: CommandKey)
    requires !a.Fail? && StoredError(Perform(db, a).0, k).Some?
    ensures k in db.commands && Perform(db, a).0.commands[k] == db.commands[k]
  {
    if a.Transact? { ChangeStoresNoError(db, a.op, k); }
  }

  lemma RecordStoresIts(s: State, w: nat, at: Time, k: CommandKey)
    requires w in s.workers && W.WorkerInv(s, w) && s.workers[w].stage.Recording?
    requires StoredError(NextRecord(s, w, at).db, k).Some?
    ensures var t := NextRecord(s, w, at);
            || (k in s.db.commands && t.db.commands[k] == s.db.commands[k])
            || (k == s.workers[w].key && t.db.commands[k].intent == s.workers[w].intent
                && ErrorOf(s.workers[w].stage) == StoredError(t.db, k))
  {
  }

  lemma OnlyRecordFails(cfg: Limits, s: State, e: Step)
    requires CanTake(cfg, s, e) && !e.Record?
    ensures ActionOf(cfg, s, e).Some? ==> !ActionOf(cfg, s, e).value.Fail?
  {
  }

  ghost predicate CallsActive(cfg: Limits, es: seq<Step>, s: State) {
    && (forall w :: w in s.workers && (s.workers[w].stage.Eligible? || s.workers[w].stage.Granted?) ==>
          WasActive(cfg, es, s.workers[w].claim))
    && (forall i :: 0 <= i < |s.calls| ==> WasActive(cfg, es, s.calls[i].claim))
  }

  /** The error of a row after a step: the one it had, or the one its worker records. */
  lemma StoredErrorStep(cfg: Limits, s: State, e: Step, k: CommandKey)
    requires W.Inv(cfg, s) && CanTake(cfg, s, e) && StoredError(Take(cfg, s, e).db, k).Some?
    ensures var t := Take(cfg, s, e);
            || (k in s.db.commands && t.db.commands[k] == s.db.commands[k])
            || (e.Record? && k == s.workers[e.w].key && t.db.commands[k].intent == s.workers[e.w].intent
                && ErrorOf(s.workers[e.w].stage) == StoredError(t.db, k))
  {
    if e.Record? {
      assert W.WorkerInv(s, e.w);
      RecordStoresIts(s, e.w, e.at, k);
    } else {
      R.StepActs(cfg, s, e);
      OnlyRecordFails(cfg, s, e);
      if ActionOf(cfg, s, e).Some? { ActionStoresNoError(s.db, ActionOf(cfg, s, e).value, k); }
    }
  }

  /** The error of a worker after its step: due in that step, the one it had, or the one
      it found stored for its own request. */
  lemma WorkerErrorStep(cfg: Limits, s: State, e: Step, code: string)
    requires W.Inv(cfg, s) && CanTake(cfg, s, e) && !e.Expire? && !e.Arrive?
    requires e.w in Take(cfg, s, e).workers && ErrorOf(Take(cfg, s, e).workers[e.w].stage) == Some(code)
    ensures e.w in s.workers
    ensures || ErrorDue(cfg, s, e, code)
            || ErrorOf(s.workers[e.w].stage) == Some(code)
            || (StoredError(s.db, s.workers[e.w].key) == Some(code)
                && s.db.commands[s.workers[e.w].key].intent == s.workers[e.w].intent)
  {
    ErrorIffDue(cfg, s, e, code);
    StepLeaves(cfg, s, e);
    if Take(cfg, s, e).workers[e.w].stage.Replying? { AnsweredErrorStep(cfg, s, e, code); }
  }

  lemma AnsweredErrorStep(cfg: Limits, s: State, e: Step, code: string)
    requires CanTake(cfg, s, e) && !e.Expire? && !e.Arrive? && e.w in s.workers && e.w in Take(cfg, s, e).workers
    requires Take(cfg, s, e).workers[e.w].stage == Replying(DomainError(code))
    ensures || s.workers[e.w].stage == Recording(code)
            || (StoredError(s.db, s.workers[e.w].key) == Some(code)
                && s.db.commands[s.workers[e.w].key].intent == s.workers[e.w].intent)
  {
  }

  lemma NewlyDue(cfg: Limits, es: seq<Step>, e: Step, s: State, code: string)
    requires LegalRun(cfg, Start, es) && s == FinalState(cfg, Start, es) && CanTake(cfg, s, e) && !e.Expire? && !e.Arrive?
    requires e.w in s.workers && ErrorDue(cfg, s, e, code)
    ensures WasDue(cfg, es + [e], s.workers[e.w].key, s.workers[e.w].intent, code)
  {
    assert (es + [e])[..|es|] == es;
    assert DueAt(cfg, es + [e], |es|, s.workers[e.w].key, s.workers[e.w].intent, code);
  }

  ghost predicate Justified(cfg: Limits, es: seq<Step>, s: State) {
    WorkersDue(cfg, es, s) && CommandsDue(cfg, es, s) && SentDue(cfg, es, s) && SessionsSaid(cfg, es, s) && CallsActive(cfg, es, s)
  }

  lemma OwnErrorIsDue(cfg: Limits, es: seq<Step>, e: Step, s: State)
    requires LegalRun(cfg, Start, es) && s == FinalState(cfg, Start, es) && CanTake(cfg, s, e) && W.Inv(cfg, s)
    requires Justified(cfg, es, s) && !e.Expire? && !e.Arrive?
    requires e.w in Take(cfg, s, e).workers && ErrorOf(Take(cfg, s, e).workers[e.w].stage).Some?
    ensures e.w in s.workers
    ensures WasDue(cfg, es + [e], s.workers[e.w].key, s.workers[e.w].intent, ErrorOf(Take(cfg, s, e).workers[e.w].stage).value)
  {
    var code := ErrorOf(Take(cfg, s, e).workers[e.w].stage).value;
    WorkerErrorStep(cfg, s, e, code);
    if ErrorDue(cfg, s, e, code) {
      NewlyDue(cfg, es, e, s, code);
    } else {
      DueLater(cfg, es, e, s.workers[e.w].key, s.workers[e.w].intent, code);
    }
  }

  lemma WorkersStayDue(cfg: Limits, es: seq<Step>, e: Step, s: State)
    requires LegalRun(cfg, Start, es) && s == FinalState(cfg, Start, es) && CanTake(cfg, s, e) && W.Inv(cfg, s)
    requires Justified(cfg, es, s)
    ensures WorkersDue(cfg, es + [e], Take(cfg, s, e))
  {
    var t := Take(cfg, s, e);
    StepLeaves(cfg, s, e);
    forall w | w in t.workers && ErrorOf(t.workers[w].stage).Some?
      ensures WasDue(cfg, es + [e], t.workers[w].key, t.workers[w].intent, ErrorOf(t.workers[w].stage).value) {
      if e.Arrive? && w == e.w {
        ArrivedHasNoError(cfg, s, e);
      } else if !e.Expire? && w == e.w {
        OwnErrorIsDue(cfg, es, e, s);
      } else {
        DueLater(cfg, es, e, s.workers[w].key, s.workers[w].intent, ErrorOf(s.workers[w].stage).value);
      }
    }
  }

  lemma ArrivedHasNoError(cfg: Limits, s: State, e: Step)
    requires CanTake(cfg, s, e) && e.Arrive?
    ensures e.w in Take(cfg, s, e).workers && ErrorOf(Take(cfg, s, e).workers[e.w].stage).None?
  {
  }

  lemma CommandsStayDue(cfg: Limits, es: seq<Step>, e: Step, s: State)
    requires CanTake(cfg, s, e) && W.Inv(cfg, s) && Justified(cfg, es, s)
    ensures CommandsDue(cfg, es + [e], Take(cfg, s, e))
  {
    var t := Take(cfg, s, e);
    forall k | StoredError(t.db, k).Some? ensures WasDue(cfg, es + [e], k, t.db.commands[k].intent, StoredError(t.db, k).value) {
      StoredErrorStep(cfg, s, e, k);
      DueLater(cfg, es, e, k, t.db.commands[k].intent, StoredError(t.db, k).value);
    }
  }

  lemma SentStaysDue(cfg: Limits, es: seq<Step>, e: Step, s: State, t: State)
    requires Leaves(s, e, t) && Justified(cfg, es, s)
    ensures SentDue(cfg, es + [e], t)
  {
    forall i | 0 <= i < |t.sent|
      ensures t.sent[i].worker in t.workers && t.workers[t.sent[i].worker].key == t.sent[i].key
      ensures t.sent[i].reply.DomainError? ==>
                WasDue(cfg, es + [e], t.sent[i].key, t.workers[t.sent[i].worker].intent, t.sent[i].reply.code) {
      if t.sent[i].reply.DomainError? {
        DueLater(cfg, es, e, t.sent[i].key, t.workers[t.sent[i].worker].intent, t.sent[i].reply.code);
      }
    }
  }

  // What the issuer said

  lemma AcceptedStep(cfg: Limits, s: State, e: Step)
    requires CanTake(cfg, s, e) && !e.Expire? && e.w in Take(cfg, s, e).workers && Take(cfg, s, e).workers[e.w].stage.Accepted?
    ensures e.HearIssuer? && e.w in s.workers && s.workers[e.w].stage.Awaiting?
  {
  }

  lemma NewlySaid(cfg: Limits, es: seq<Step>, e: Step, s: State)
    requires LegalRun(cfg, Start, es) && s == FinalState(cfg, Start, es) && CanTake(cfg, s, e) && e.HearIssuer?
    requires Take(cfg, s, e).workers[e.w].stage.Accepted?
    ensures var stage := Take(cfg, s, e).workers[e.w].stage; WasSaid(cfg, es + [e], stage.call, stage.response)
  {
    HearDecides(cfg, s, e.w, e.issuer, e.now);
    var stage := Take(cfg, s, e).workers[e.w].stage;
    assert (es + [e])[..|es|] == es;
    assert SaidAt(cfg, es + [e], |es|, stage.call, stage.response);
  }

  /** New acceptances are the worker's accepted session. */
  lemma AcceptancesStep(cfg: Limits, s: State, e: Step)
    requires CanTake(cfg, s, e)
    ensures Take(cfg, s, e).accepted == s.accepted
            || (e.CompleteExchange? && Take(cfg, s, e).accepted
                  == s.accepted + [Acceptance(s.workers[e.w].stage.call, s.workers[e.w].stage.response)])
  {
  }

  lemma SessionsStaySaid(cfg: Limits, es: seq<Step>, e: Step, s: State)
    requires LegalRun(cfg, Start, es) && s == FinalState(cfg, Start, es) && CanTake(cfg, s, e) && Justified(cfg, es, s)
    ensures SessionsSaid(cfg, es + [e], Take(cfg, s, e))
  {
    var t := Take(cfg, s, e);
    StepLeaves(cfg, s, e);
    AcceptancesStep(cfg, s, e);
    forall w | w in t.workers && t.workers[w].stage.Accepted?
      ensures WasSaid(cfg, es + [e], t.workers[w].stage.call, t.workers[w].stage.response) {
      if !e.Expire? && w == e.w {
        AcceptedStep(cfg, s, e);
        NewlySaid(cfg, es, e, s);
      } else {
        SaidLater(cfg, es, e, s.workers[w].stage.call, s.workers[w].stage.response);
      }
    }
    forall a | 0 <= a < |t.accepted| ensures WasSaid(cfg, es + [e], t.accepted[a].call, t.accepted[a].response) {
      SaidLater(cfg, es, e, t.accepted[a].call, t.accepted[a].response);
    }
  }

  // What the directory said

  lemma EligibleStep(cfg: Limits, s: State, e: Step)
    requires CanTake(cfg, s, e) && !e.Expire? && e.w in Take(cfg, s, e).workers
    requires Take(cfg, s, e).workers[e.w].stage.Eligible? || Take(cfg, s, e).workers[e.w].stage.Granted?
    ensures e.w in s.workers
    ensures (e.AskDirectory? && e.directory.SubjectActive?) || s.workers[e.w].stage.Eligible?
  {
  }

  lemma CallStep(cfg: Limits, s: State, e: Step)
    requires CanTake(cfg, s, e)
    ensures Take(cfg, s, e).calls == s.calls
            || (e.CallIssuer? && s.workers[e.w].stage.Granted? && |Take(cfg, s, e).calls| == |s.calls| + 1
                && s.calls <= Take(cfg, s, e).calls && Take(cfg, s, e).calls[|s.calls|].claim == s.workers[e.w].claim)
  {
  }

  lemma NewlyActive(cfg: Limits, es: seq<Step>, e: Step, s: State)
    requires LegalRun(cfg, Start, es) && s == FinalState(cfg, Start, es) && CanTake(cfg, s, e)
    requires e.AskDirectory? && e.directory.SubjectActive?
    ensures WasActive(cfg, es + [e], s.workers[e.w].claim)
  {
    assert (es + [e])[..|es|] == es;
    assert ActiveAt(cfg, es + [e], |es|, s.workers[e.w].claim);
  }

  lemma CallsStayActive(cfg: Limits, es: seq<Step>, e: Step, s: State)
    requires LegalRun(cfg, Start, es) && s == FinalState(cfg, Start, es) && CanTake(cfg, s, e) && Justified(cfg, es, s)
    ensures CallsActive(cfg, es + [e], Take(cfg, s, e))
  {
    var t := Take(cfg, s, e);
    StepLeaves(cfg, s, e);
    CallStep(cfg, s, e);
    forall w | w in t.workers && (t.workers[w].stage.Eligible? || t.workers[w].stage.Granted?)
      ensures WasActive(cfg, es + [e], t.workers[w].claim) {
      if !e.Expire? && w == e.w {
        EligibleStep(cfg, s, e);
        if s.workers[w].stage.Eligible? { ActiveLater(cfg, es, e, s.workers[w].claim); } else { NewlyActive(cfg, es, e, s); }
      } else {
        ActiveLater(cfg, es, e, s.workers[w].claim);
      }
    }
    forall i | 0 <= i < |t.calls| ensures WasActive(cfg, es + [e], t.calls[i].claim) {
      if i < |s.calls| { ActiveLater(cfg, es, e, s.calls[i].claim); } else { ActiveLater(cfg, es, e, s.workers[e.w].claim); }
    }
  }

  lemma {:induction false} RunIsJustified(cfg: Limits, es: seq<Step>, n: nat)
    requires cfg.Valid() && LegalRun(cfg, Start, es) && n <= |es|
    ensures LegalRun(cfg, Start, es[..n]) && Justified(cfg, es[..n], FinalState(cfg, Start, es[..n]))
    decreases n
  {
    if n == 0 {
      assert es[..0] == [];
    } else {
      RunIsJustified(cfg, es, n - 1);
      RunUpTo(cfg, Start, es, n - 1);
      var s, e := FinalState(cfg, Start, es[..n - 1]), es[n - 1];
      W.EveryRun(cfg, es[..n - 1]);
      assert es[..n - 1] + [e] == es[..n];
      WorkersStayDue(cfg, es[..n - 1], e, s);
      CommandsStayDue(cfg, es[..n - 1], e, s);
      StepLeaves(cfg, s, e);
      SentStaysDue(cfg, es[..n - 1], e, s, Take(cfg, s, e));
      SessionsStaySaid(cfg, es[..n - 1], e, s);
      CallsStayActive(cfg, es[..n - 1], e, s);
    }
  }

  /** Every domain error ever answered was due in an earlier step of the run, taken for
      the very same request: its own, or that of the request it replays. */
  lemma EveryErrorWasDue(cfg: Limits, es: seq<Step>, i: nat)
    requires cfg.Valid() && LegalRun(cfg, Start, es) && i < |FinalState(cfg, Start, es).sent|
    requires FinalState(cfg, Start, es).sent[i].reply.DomainError?
    ensures var s := FinalState(cfg, Start, es);
            && s.sent[i].worker in s.workers
            && WasDue(cfg, es, s.sent[i].key, s.workers[s.sent[i].worker].intent, s.sent[i].reply.code)
  {
    assert es[..|es|] == es;
    RunIsJustified(cfg, es, |es|);
  }

  /** The issuer is only ever called for a request whose subject the directory has called
      active before. */
  lemma EveryCallWasActive(cfg: Limits, es: seq<Step>, i: nat)
    requires cfg.Valid() && LegalRun(cfg, Start, es) && i < |FinalState(cfg, Start, es).calls|
    ensures WasActive(cfg, es, FinalState(cfg, Start, es).calls[i].claim)
  {
    assert es[..|es|] == es;
    RunIsJustified(cfg, es, |es|);
  }

  /** Every accepted session is word for word an answer the issuer gave to its call. */
  lemma EverySessionWasSaid(cfg: Limits, es: seq<Step>, a: nat)
    requires cfg.Valid() && LegalRun(cfg, Start, es) && a < |FinalState(cfg, Start, es).accepted|
    ensures var s := FinalState(cfg, Start, es); WasSaid(cfg, es, s.accepted[a].call, s.accepted[a].response)
  {
    assert es[..|es|] == es;
    RunIsJustified(cfg, es, |es|);
  }

  // The secret behind a call

  /** The credential is the one the secret names, stored with the secret's verifier. */
  predicate Presents(db: Db, secret: string, c: CredentialRow) {
    && CredentialId(secret) == Some(c.id) && c.id in db.credentials
    && db.credentials[c.id].verifier == VerifierOf(secret) && db.credentials[c.id].account == c.account
  }

  predicate AdmittedWith(h: seq<Entry>, i: nat, secret: string) {
    && i < |h| && IsAdmission(h[i])
    && CredentialId(secret) == Some(h[i].result.outcome.credential.id)
    && h[i].result.outcome.credential.verifier == VerifierOf(secret)
  }

  predicate WorkerPresents(s: State, w: nat)
    requires w in s.workers
  {
    s.workers[w].intent.ExchangeIntent? ==>
      match s.workers[w].stage
      case Checked(_, c) => Presents(s.db, s.workers[w].intent.secret, c)
      case Eligible(_, c) => Presents(s.db, s.workers[w].intent.secret, c)
      case Granted(_, i) => AdmittedWith(s.h, i, s.workers[w].intent.secret)
      case _ => true
  }

  /** The call was admitted with the secret its request presented, and asks for the
      token lifetime, cut at the credential's end. */
  predicate CallPresents(cfg: Limits, s: State, i: nat)
    requires i < |s.calls|
  {
    var c := s.calls[i];
    && c.claim < |s.h| && s.h[c.claim].action.Reserve? && s.h[c.claim].action.intent.ExchangeIntent?
    && AdmittedWith(s.h, c.admission, s.h[c.claim].action.intent.secret)
    && var until := Admission(s, c.admission).validUntil;
       c.expiresAt == if until < c.at + cfg.tokenTtl then until else c.at + cfg.tokenTtl
  }

  ghost predicate Presented(cfg: Limits, s: State) {
    && (forall w :: w in s.workers ==> WorkerPresents(s, w))
    && (forall i :: 0 <= i < |s.calls| ==> CallPresents(cfg, s, i))
  }

  lemma TablesAreSound(cfg: Limits, s: State)
    requires W.HistoryInv(cfg, s)
    ensures CredentialsInv(s.db)
  {
    assert s.h[..|s.h|] == s.h;
    TablesAt(cfg, s.h, |s.h|);
  }

  lemma CredentialsStay(cfg: Limits, s: State, e: Step)
    requires W.HistoryInv(cfg, s) && CanTake(cfg, s, e)
    ensures Later(s.db, Take(cfg, s, e).db)
  {
    R.StepActs(cfg, s, e);
    TablesAreSound(cfg, s);
    if ActionOf(cfg, s, e).Some? { ActionLater(s.db, ActionOf(cfg, s, e).value); }
  }

  lemma PresentsLater(db: Db, t: Db, secret: string, c: CredentialRow)
    requires Later(db, t) && Presents(db, secret, c)
    ensures Presents(t, secret, c)
  {
    assert CredentialLater(db.credentials[c.id], t.credentials[c.id]);
  }

  lemma OtherPresents(s: State, e: Step, t: State, v: nat)
    requires Leaves(s, e, t) && Later(s.db, t.db) && v in s.workers && WorkerPresents(s, v)
    requires e.Expire? || v != e.w
    ensures v in t.workers && WorkerPresents(t, v)
  {
    assert t.workers[v] == s.workers[v];
    if s.workers[v].intent.ExchangeIntent? && (s.workers[v].stage.Checked? || s.workers[v].stage.Eligible?) {
      PresentsLater(s.db, t.db, s.workers[v].intent.secret, s.workers[v].stage.credential);
    }
  }

  lemma VerifiedPresents(cfg: Limits, s: State, w: nat)
    requires CanTake(cfg, s, Verify(w))
    ensures w in Take(cfg, s, Verify(w)).workers && WorkerPresents(Take(cfg, s, Verify(w)), w)
  {
    VerifyDecides(cfg, s, w);
  }

  lemma MarkedPresents(cfg: Limits, s: State, w: nat, now: Time)
    requires CanTake(cfg, s, MarkIssuing(w, now)) && W.WorkerInv(s, w) && WorkerPresents(s, w)
    ensures w in NextMark(s, w, now).workers && WorkerPresents(NextMark(s, w, now), w)
  {
    MarkDecides(cfg, s, w, now);
  }

  /** The steps after which a worker holds a checked credential or an admission. */
  predicate Presenting(e: Step) { e.Verify? || e.AskDirectory? || e.MarkIssuing? }

  /** Those that act on the tables leave their worker with neither. */
  lemma ClaimingPresentsNothing(cfg: Limits, s: State, e: Step)
    requires CanTake(cfg, s, e) && (e.Arrive? || e.Mutate? || e.Record?)
    ensures e.w in Take(cfg, s, e).workers && WorkerPresents(Take(cfg, s, e), e.w)
  {
  }

  lemma ExchangingPresentsNothing(cfg: Limits, s: State, e: Step)
    requires CanTake(cfg, s, e) && (e.TakeRateSlot? || e.CallIssuer? || e.CompleteExchange?)
    ensures e.w in Take(cfg, s, e).workers && WorkerPresents(Take(cfg, s, e), e.w)
  {
  }

  lemma OthersPresentNothing(cfg: Limits, s: State, e: Step)
    requires CanTake(cfg, s, e) && !e.Expire? && !Presenting(e)
    ensures e.w in Take(cfg, s, e).workers && WorkerPresents(Take(cfg, s, e), e.w)
  {
    if e.Arrive? || e.Mutate? || e.Record? { ClaimingPresentsNothing(cfg, s, e); }
    else if Acts(e) { ExchangingPresentsNothing(cfg, s, e); }
  }

  lemma AskedPresents(cfg: Limits, s: State, w: nat, answer: DirectoryAnswer)
    requires CanTake(cfg, s, AskDirectory(w, answer)) && WorkerPresents(s, w)
    ensures var t := Take(cfg, s, AskDirectory(w, answer)); w in t.workers && WorkerPresents(t, w)
  {
  }

  lemma OwnPresents(cfg: Limits, s: State, e: Step)
    requires W.Inv(cfg, s) && CanTake(cfg, s, e) && !e.Expire? && Presented(cfg, s)
    ensures e.w in Take(cfg, s, e).workers && WorkerPresents(Take(cfg, s, e), e.w)
  {
    if !Presenting(e) {
      OthersPresentNothing(cfg, s, e);
    } else if e.Verify? {
      VerifiedPresents(cfg, s, e.w);
    } else if e.AskDirectory? {
      AskedPresents(cfg, s, e.w, e.directory);
    } else {
      assert W.WorkerInv(s, e.w);
      MarkedPresents(cfg, s, e.w, e.now);
    }
  }

  lemma NewCallPresents(cfg: Limits, s: State, w: nat, now: Time)
    requires CanTake(cfg, s, CallIssuer(w, now)) && cfg.Valid() && W.WorkerInv(s, w) && WorkerPresents(s, w)
    ensures var t := NextCall(cfg, s, w, now); |t.calls| > |s.calls| ==> CallPresents(cfg, t, |s.calls|)
  {
    CallDecides(cfg, s, w, now);
  }

  lemma CallsStep(cfg: Limits, s: State, e: Step)
    requires CanTake(cfg, s, e)
    ensures Take(cfg, s, e).calls == s.calls || (e.CallIssuer? && |Take(cfg, s, e).calls| == |s.calls| + 1)
  {
  }

  lemma CallPresentsLater(cfg: Limits, s: State, e: Step, t: State, i: nat)
    requires Leaves(s, e, t) && i < |s.calls| && CallPresents(cfg, s, i)
    ensures CallPresents(cfg, t, i)
  {
    assert t.calls[i] == s.calls[i];
    assert t.h[s.calls[i].claim] == s.h[s.calls[i].claim] && t.h[s.calls[i].admission] == s.h[s.calls[i].admission];
  }

  lemma CallsPresentFrom(cfg: Limits, s: State, e: Step, t: State)
    requires Leaves(s, e, t) && forall i :: 0 <= i < |s.calls| ==> CallPresents(cfg, s, i)
    requires t.calls == s.calls || (|t.calls| == |s.calls| + 1 && CallPresents(cfg, t, |s.calls|))
    ensures forall i :: 0 <= i < |t.calls| ==> CallPresents(cfg, t, i)
  {
    forall i | 0 <= i < |s.calls| ensures CallPresents(cfg, t, i) {
      CallPresentsLater(cfg, s, e, t, i);
    }
  }

  lemma CallsPresent(cfg: Limits, s: State, e: Step)
    requires W.Inv(cfg, s) && CanTake(cfg, s, e) && Presented(cfg, s)
    ensures forall i :: 0 <= i < |Take(cfg, s, e).calls| ==> CallPresents(cfg, Take(cfg, s, e), i)
  {
    StepLeaves(cfg, s, e);
    CallsStep(cfg, s, e);
    if e.CallIssuer? {
      assert W.WorkerInv(s, e.w);
      NewCallPresents(cfg, s, e.w, e.now);
    }
    CallsPresentFrom(cfg, s, e, Take(cfg, s, e));
  }

  lemma StepPresents(cfg: Limits, s: State, e: Step)
    requires W.Inv(cfg, s) && CanTake(cfg, s, e) && Presented(cfg, s)
    ensures Presented(cfg, Take(cfg, s, e))
  {
    var t := Take(cfg, s, e);
    CallsPresent(cfg, s, e);
    StepLeaves(cfg, s, e);
    CredentialsStay(cfg, s, e);
    if !e.Expire? { OwnPresents(cfg, s, e); }
    forall v | v in t.workers ensures WorkerPresents(t, v) {
      if e.Expire? || v != e.w { OtherPresents(s, e, t, v); }
    }
  }

  lemma {:induction false} RunPresents(cfg: Limits, s: State, es: seq<Step>)
    requires W.Inv(cfg, s) && Presented(cfg, s) && LegalRun(cfg, s, es)
    ensures Presented(cfg, FinalState(cfg, s, es))
    decreases |es|
  {
    if es != [] {
      W.StepKeeps(cfg, s, es[0]);
      StepPresents(cfg, s, es[0]);
      RunPresents(cfg, Take(cfg, s, es[0]), es[1..]);
    }
  }

  /** An effective creation or rotation stored this secret for this account. */
  predicate Stores(e: Entry, secret: string, account: string) {
    && Effective(e) && (e.action.op.Create? || e.action.op.Rotate?)
    && e.action.op.verifier == VerifierOf(secret) && CredentialId(secret) == Some(e.action.op.credential)
    && e.action.op.account == account
  }

  lemma AdmittedSecretWasStored(cfg: Limits, h: seq<Entry>, i: nat, secret: string)
    requires Possible(cfg, h) && AdmittedWith(h, i, secret)
    ensures exists j :: 0 <= j < i && Stores(h[j], secret, h[i].result.outcome.credential.account)
  {
    AdmissionIs(cfg, h, i);
    var row := h[i].result.outcome.credential;
    CredentialOrigin(cfg, h, i, row.id);
    var j :| 0 <= j < i && InsertedAs(h[j], row.id, At(h, i).credentials[row.id]);
    assert Stores(h[j], secret, row.account);
  }

  /** Every issuer call was made for a request whose secret an effective creation or
      rotation of the admitted account had stored before; and it asks for the token
      lifetime, cut at that credential's end. */
  lemma EveryCallIsAuthentic(cfg: Limits, es: seq<Step>, i: nat)
    requires cfg.Valid() && LegalRun(cfg, Start, es) && i < |FinalState(cfg, Start, es).calls|
    ensures var s := FinalState(cfg, Start, es);
            var c := s.calls[i];
            && c.claim < |s.h| && s.h[c.claim].action.Reserve? && s.h[c.claim].action.intent.ExchangeIntent?
            && c.admission < |s.h| && IsAdmission(s.h[c.admission])
            && (exists j :: 0 <= j < c.admission
                            && Stores(s.h[j], s.h[c.claim].action.intent.secret, Admission(s, c.admission).account))
            && c.expiresAt == (if Admission(s, c.admission).validUntil < c.at + cfg.tokenTtl
                               then Admission(s, c.admission).validUntil else c.at + cfg.tokenTtl)
  {
    W.EveryRun(cfg, es);
    W.StartHolds(cfg);
    RunPresents(cfg, Start, es);
    var s := FinalState(cfg, Start, es);
    assert CallPresents(cfg, s, i);
    AdmittedSecretWasStored(cfg, s.h, s.calls[i].admission, s.h[s.calls[i].claim].action.intent.secret);
  }

  lemma VerifiersDiffer(a: string, b: string)
    requires VerifierOf(a) == VerifierOf(b)
    ensures a == b
  {
    assert VerifierOf(a)[10..] == a && VerifierOf(b)[10..] == b;
  }

  /** A secret that no commit of the run disclosed never reaches the issuer. */
  lemma UnknownSecretsReachNobody(cfg: Limits, es: seq<Step>, secret: string, i: nat)
    requires cfg.Valid() && LegalRun(cfg, Start, es) && i < |FinalState(cfg, Start, es).calls|
    requires forall j :: 0 <= j < |FinalState(cfg, Start, es).h| ==> !R.Discloses(FinalState(cfg, Start, es).h[j], secret)
    ensures var s := FinalState(cfg, Start, es);
            s.calls[i].claim < |s.h| && s.h[s.calls[i].claim].action.Reserve?
            && s.h[s.calls[i].claim].action.intent != ExchangeIntent(secret)
  {
    EveryCallIsAuthentic(cfg, es, i);
    var s := FinalState(cfg, Start, es);
    var c := s.calls[i];
    var presented := s.h[c.claim].action.intent.secret;
    var j :| 0 <= j < c.admission && Stores(s.h[j], presented, Admission(s, c.admission).account);
    assert R.Discloses(s.h[j], presented);
  }

  /** An accepted session was earned with a stored secret, and names its account, that
      account's organization and its subject, as its creation said. */
  lemma EverySessionIsAuthentic(cfg: Limits, es: seq<Step>, a: nat)
    requires cfg.Valid() && LegalRun(cfg, Start, es) && a < |FinalState(cfg, Start, es).accepted|
    ensures var s := FinalState(cfg, Start, es);
            && CallKnown(s, s.accepted[a].call)
            && var c, r := s.calls[s.accepted[a].call], s.accepted[a].response;
               && c.claim < |s.h| && s.h[c.claim].action.Reserve? && s.h[c.claim].action.intent.ExchangeIntent?
               && (exists j :: 0 <= j < c.admission && Stores(s.h[j], s.h[c.claim].action.intent.secret, r.account))
               && var told := Story(s.h[..c.admission], r.account);
                  told.Some? && r.organization == told.value.organization && r.subject == told.value.subject
                  && told.value.status == Active
  {
    W.EveryRun(cfg, es);
    var s := FinalState(cfg, Start, es);
    var i := s.accepted[a].call;
    assert W.AnswersCall(s, i, s.accepted[a].response);
    EveryCallIsAuthentic(cfg, es, i);
    AdmittedAccount(cfg, s.h, s.calls[i].admission);
  }

  lemma AdmittedAccount(cfg: Limits, h: seq<Entry>, i: nat)
    requires Possible(cfg, h) && i < |h| && IsAdmission(h[i])
    ensures var row, told := h[i].result.outcome.credential, Story(h[..i], h[i].result.outcome.credential.account);
            told.Some? && row.organization == told.value.organization && row.subject == told.value.subject
            && told.value.status == Active
  {
    AdmissionIs(cfg, h, i);
    AccountsAreTold(cfg, h, i, h[i].result.outcome.credential.account);
  }
}
