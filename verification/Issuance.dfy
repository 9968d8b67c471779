/** What the issuer sees over every run of the workers: one call per claim, each on
    its own rate slot; a call whose outcome was lost is never repeated; a session
    never outlives what admitted it. */
module Issuance {
  import opened Tables
  import opened Transactions
  import opened Interleaving
  import opened RateLimiter
  import opened Guarantees
  import opened Histories
  import opened Protocol
  import W = Workers

  // Incarnations of a command row

  predicate ClaimsKey(e: Entry, key: CommandKey) {
    e.action.Reserve? && e.action.key == key && e.result == Affected(true)
  }

  /** Entry `p` is a prune that removes the completed row of this key. */
  predicate Removes(h: seq<Entry>, p: nat, key: CommandKey) {
    && p < |h| && h[p].action.Prune?
    && key in At(h, p).commands && Expired(At(h, p).commands[key], h[p].action.before)
  }

  lemma RowStays(db: Db, a: Action, key: CommandKey)
    requires key in db.commands && !(a.Prune? && Expired(db.commands[key], a.before))
    ensures key in Perform(db, a).0.commands
  {
    if a.Transact? { W.TransactCommands(db, a.op); }
  }

  lemma RowStaysAt(cfg: Limits, h: seq<Entry>, i: nat, key: CommandKey)
    requires Possible(cfg, h) && i < |h| && key in At(h, i).commands && !Removes(h, i, key)
    ensures key in At(h, i + 1).commands
  {
    EntryAt(cfg, h, i);
    RowStays(At(h, i), h[i].action, key);
  }

  lemma {:induction false} RowStaysUntil(cfg: Limits, h: seq<Entry>, i: nat, j: nat, key: CommandKey)
    requires Possible(cfg, h) && i <= j <= |h| && key in At(h, i).commands
    requires forall p :: i <= p < j ==> !Removes(h, p, key)
    ensures key in At(h, j).commands
    decreases j
  {
    if i < j {
      RowStaysUntil(cfg, h, i, j - 1, key);
      RowStaysAt(cfg, h, j - 1, key);
    }
  }

  /** A key is claimed again only after a prune has removed its completed row. */
  lemma ReclaimedOnlyAfterPrune(cfg: Limits, h: seq<Entry>, i: nat, j: nat, key: CommandKey)
    requires Possible(cfg, h) && i < j < |h| && ClaimsKey(h[i], key) && ClaimsKey(h[j], key)
    ensures exists p :: i < p < j && Removes(h, p, key)
  {
    if forall p :: i < p < j ==> !Removes(h, p, key) {
      EntryAt(cfg, h, i);
      EntryAt(cfg, h, j);
      RowStaysUntil(cfg, h, i + 1, j, key);
      assert false;
    }
  }

  // At most one call per incarnation

  function KeyOf(s: State, i: nat): CommandKey
    requires i < |s.calls| && s.calls[i].claim < |s.h| && s.h[s.calls[i].claim].action.Reserve?
  {
    s.h[s.calls[i].claim].action.key
  }

  /** Every call to the issuer belongs to one claim of one command row, made after
      that claim consumed a rate slot of its own caller and was then admitted. */
  lemma EveryCallIsPaidFor(cfg: Limits, es: seq<Step>, i: nat)
    requires cfg.Valid() && LegalRun(cfg, Start, es) && i < |FinalState(cfg, Start, es).calls|
    ensures var s := FinalState(cfg, Start, es);
            var c := s.calls[i];
            && c.claim < c.slot < c.admission < |s.h|
            && s.h[c.claim].action.Reserve? && ClaimsKey(s.h[c.claim], KeyOf(s, i))
            && s.h[c.slot].action.TakeSlot?
            && s.h[c.slot].action == SlotAction(cfg, KeyOf(s, i).caller, s.h[c.slot].action.now)
            && s.h[c.slot].result == Affected(true)
            && IsAdmission(s.h[c.admission]) && CommandOf(s.h[c.admission].action.op) == KeyOf(s, i)
  {
    W.EveryRun(cfg, es);
    var s := FinalState(cfg, Start, es);
    assert W.CallInv(cfg, s, i);
    assert W.SlotInv(cfg, s, s.calls[i].claim);
  }

  /** At-most-once issuance: two calls never share a claim or a rate slot, and two
      calls for the same key are separated by a prune of the completed row. */
  lemma AtMostOnceIssuance(cfg: Limits, es: seq<Step>, i: nat, j: nat)
    requires cfg.Valid() && LegalRun(cfg, Start, es)
    requires i < |FinalState(cfg, Start, es).calls| && j < |FinalState(cfg, Start, es).calls| && i != j
    ensures var s := FinalState(cfg, Start, es);
            && s.calls[i].claim != s.calls[j].claim && s.calls[i].slot != s.calls[j].slot
            && s.calls[i].claim < |s.h| && s.h[s.calls[i].claim].action.Reserve?
            && s.calls[j].claim < |s.h| && s.h[s.calls[j].claim].action.Reserve?
            && (KeyOf(s, i) == KeyOf(s, j) && s.calls[i].claim < s.calls[j].claim ==>
                  exists p :: s.calls[i].claim < p < s.calls[j].claim && Removes(s.h, p, KeyOf(s, i)))
  {
    W.EveryRun(cfg, es);
    var s := FinalState(cfg, Start, es);
    EveryCallIsPaidFor(cfg, es, i);
    EveryCallIsPaidFor(cfg, es, j);
    assert W.CallInv(cfg, s, i) && W.CallInv(cfg, s, j);
    if KeyOf(s, i) == KeyOf(s, j) && s.calls[i].claim < s.calls[j].claim {
      ReclaimedOnlyAfterPrune(cfg, s.h, s.calls[i].claim, s.calls[j].claim, KeyOf(s, i));
    }
  }

  // A row left open

  /** The row is open, `reserved` or `issuing`, and nobody is there to complete it. */
  predicate Orphaned(s: State, key: CommandKey) {
    && key in s.db.commands && s.db.commands[key].state.Completable()
    && forall w :: w in s.workers && s.workers[w].key == key ==> !W.Busy(s.workers[w].stage)
  }

  /** Nothing happened to the row, and no call made since was for it. */
  ghost predicate Frozen(s: State, t: State, key: CommandKey) {
    && key in s.db.commands && key in t.db.commands && t.db.commands[key] == s.db.commands[key]
    && W.Extends(s, t)
    && forall i :: |s.calls| <= i < |t.calls| ==>
         t.calls[i].claim < |t.h| && t.h[t.calls[i].claim].action.Reserve? && KeyOf(t, i) != key
  }

  /** A step of worker `w`, busy with another key, that makes no call. */
  lemma OtherWorkerActs(s: State, t: State, w: nat, key: CommandKey)
    requires Orphaned(s, key) && W.OwnStep(s, t, w) && s.workers[w].key != key && t.calls == s.calls
    ensures Orphaned(t, key) && Frozen(s, t, key)
  {
    assert W.SameCommand(s, t, key);
  }

  lemma MoveStaysOrphaned(s: State, w: nat, stage: Stage, t: State, key: CommandKey)
    requires Orphaned(s, key) && w in s.workers && (W.Busy(stage) ==> W.Busy(s.workers[w].stage))
    requires t == Move(s, w, stage).(sent := t.sent)
    ensures Orphaned(t, key) && Frozen(s, t, key)
  {
  }

  lemma CallStaysOrphaned(cfg: Limits, s: State, w: nat, now: Time, key: CommandKey)
    requires Orphaned(s, key) && CanTake(cfg, s, CallIssuer(w, now)) && W.WorkerInv(s, w)
    ensures Orphaned(NextCall(cfg, s, w, now), key) && Frozen(s, NextCall(cfg, s, w, now), key)
  {
    assert W.Owns(s, s.workers[w]);
  }

  lemma MutateStaysOrphaned(cfg: Limits, s: State, w: nat, op: Op, secret: string, key: CommandKey)
    requires Orphaned(s, key) && CanTake(cfg, s, Mutate(w, op, secret)) && W.WorkerInv(s, w)
    ensures Orphaned(NextMutate(s, w, op, secret), key) && Frozen(s, NextMutate(s, w, op, secret), key)
  {
    W.MutateIsOwn(cfg, s, w, op, secret);
    OtherWorkerActs(s, NextMutate(s, w, op, secret), w, key);
  }

  lemma MarkStaysOrphaned(cfg: Limits, s: State, w: nat, now: Time, key: CommandKey)
    requires Orphaned(s, key) && CanTake(cfg, s, MarkIssuing(w, now)) && W.WorkerInv(s, w)
    ensures Orphaned(NextMark(s, w, now), key) && Frozen(s, NextMark(s, w, now), key)
  {
    var op := AdmitOp(s.workers[w], now);
    assert CommandOf(op) == s.workers[w].key;
    W.TransactCommands(s.db, op);
    var r, t := Perform(s.db, Transact(op)), NextMark(s, w, now);
    W.ActedIsOwn(s, w, r.0, Entry(Transact(op), r.1), t.workers[w].stage, t);
    OtherWorkerActs(s, t, w, key);
  }

  lemma RecordStaysOrphaned(cfg: Limits, s: State, w: nat, at: Time, key: CommandKey)
    requires Orphaned(s, key) && CanTake(cfg, s, Record(w, at))
    ensures Orphaned(NextRecord(s, w, at), key) && Frozen(s, NextRecord(s, w, at), key)
  {
    var a, t := Fail(s.workers[w].key, s.workers[w].stage.code, at), NextRecord(s, w, at);
    W.ActedIsOwn(s, w, Perform(s.db, a).0, Entry(a, Perform(s.db, a).1), t.workers[w].stage, t);
    OtherWorkerActs(s, t, w, key);
  }

  lemma ExpireStaysOrphaned(s: State, before: Time, key: CommandKey)
    requires Orphaned(s, key)
    ensures Orphaned(Act(s, Prune(before)), key) && Frozen(s, Act(s, Prune(before)), key)
  {
  }

  lemma ArriveStaysOrphaned(s: State, w: nat, k: CommandKey, intent: Intent, key: CommandKey)
    requires Orphaned(s, key) && w !in s.workers
    ensures Orphaned(NextArrive(s, w, k, intent), key) && Frozen(s, NextArrive(s, w, k, intent), key)
  {
    W.ArriveExtends(s, w, k, intent, key);
  }

  lemma SlotStaysOrphaned(cfg: Limits, s: State, w: nat, now: Time, key: CommandKey)
    requires Orphaned(s, key) && CanTake(cfg, s, TakeRateSlot(w, now)) && W.WorkerInv(s, w)
    ensures Orphaned(NextSlot(cfg, s, w, now), key) && Frozen(s, NextSlot(cfg, s, w, now), key)
  {
    var ok := W.SlotIsTaken(cfg, s, w, now);
    W.SlotIsOwn(cfg, s, w, now, ok, NextSlot(cfg, s, w, now));
    OtherWorkerActs(s, NextSlot(cfg, s, w, now), w, key);
  }

  lemma CompleteStaysOrphaned(s: State, w: nat, at: Time, key: CommandKey)
    requires Orphaned(s, key) && w in s.workers && s.workers[w].stage.Accepted? && W.WorkerInv(s, w)
    ensures Orphaned(NextComplete(s, w, at), key) && Frozen(s, NextComplete(s, w, at), key)
  {
    W.CompleteOwn(s, w, at);
    OtherWorkerActs(s, NextComplete(s, w, at), w, key);
  }

  lemma ActingStaysOrphaned(cfg: Limits, s: State, e: Step, key: CommandKey)
    requires W.Inv(cfg, s) && Orphaned(s, key) && CanTake(cfg, s, e) && Acts(e)
    ensures Orphaned(Take(cfg, s, e), key) && Frozen(s, Take(cfg, s, e), key)
  {
    if !e.Expire? && !e.Arrive? { assert W.WorkerInv(s, e.w); }
    match e
    case Expire(before) => ExpireStaysOrphaned(s, before, key);
    case Arrive(w, k, intent) => ArriveStaysOrphaned(s, w, k, intent, key);
    case Mutate(w, op, secret) => MutateStaysOrphaned(cfg, s, w, op, secret, key);
    case Record(w, at) => RecordStaysOrphaned(cfg, s, w, at, key);
    case TakeRateSlot(w, now) => SlotStaysOrphaned(cfg, s, w, now, key);
    case MarkIssuing(w, now) => MarkStaysOrphaned(cfg, s, w, now, key);
    case CallIssuer(w, now) => CallStaysOrphaned(cfg, s, w, now, key);
    case CompleteExchange(w, at) => CompleteStaysOrphaned(s, w, at, key);
  }

  /** Every other step only moves a worker, and never to a busier stage. */
  lemma OtherStepsMove(cfg: Limits, s: State, e: Step)
    requires CanTake(cfg, s, e) && !Acts(e)
    ensures var t := Take(cfg, s, e);
            && e.w in s.workers && e.w in t.workers
            && t == Move(s, e.w, t.workers[e.w].stage).(sent := t.sent)
            && (W.Busy(t.workers[e.w].stage) ==> W.Busy(s.workers[e.w].stage))
  {
  }

  lemma StepStaysOrphaned(cfg: Limits, s: State, e: Step, key: CommandKey)
    requires W.Inv(cfg, s) && Orphaned(s, key) && CanTake(cfg, s, e)
    ensures Orphaned(Take(cfg, s, e), key) && Frozen(s, Take(cfg, s, e), key)
  {
    if Acts(e) {
      ActingStaysOrphaned(cfg, s, e, key);
    } else {
      OtherStepsMove(cfg, s, e);
      var t := Take(cfg, s, e);
      MoveStaysOrphaned(s, e.w, t.workers[e.w].stage, t, key);
    }
  }

  lemma FrozenComposes(s: State, m: State, t: State, key: CommandKey)
    requires Frozen(s, m, key) && Frozen(m, t, key)
    ensures Frozen(s, t, key)
  {
    forall i | |s.calls| <= i < |t.calls|
      ensures t.calls[i].claim < |t.h| && t.h[t.calls[i].claim].action.Reserve? && KeyOf(t, i) != key {
      if i < |m.calls| { assert KeyOf(m, i) != key; }
    }
  }

  lemma {:induction false} RunStaysOrphaned(cfg: Limits, s: State, es: seq<Step>, key: CommandKey)
    requires W.Inv(cfg, s) && Orphaned(s, key) && LegalRun(cfg, s, es)
    ensures Orphaned(FinalState(cfg, s, es), key) && Frozen(s, FinalState(cfg, s, es), key)
    decreases |es|
  {
    if es != [] {
      var next := Take(cfg, s, es[0]);
      StepStaysOrphaned(cfg, s, es[0], key);
      W.StepKeeps(cfg, s, es[0]);
      RunStaysOrphaned(cfg, next, es[1..], key);
      FrozenComposes(s, next, FinalState(cfg, s, es), key);
    }
  }

  /** In every reachable state, an open row that nobody works on stays exactly as it
      is in every continuation: no call is made for its key, the same request is told
      the operation is in progress, and any other request under the key conflicts. */
  lemma OrphansStay(cfg: Limits, es: seq<Step>, later: seq<Step>, key: CommandKey, intent: Intent)
    requires cfg.Valid() && LegalRun(cfg, Start, es) && Orphaned(FinalState(cfg, Start, es), key)
    requires LegalRun(cfg, FinalState(cfg, Start, es), later)
    ensures var s := FinalState(cfg, Start, es);
            var t := FinalState(cfg, s, later);
            && Frozen(s, t, key) && Orphaned(t, key)
            && Answered(key, intent, t.db)
                 == (if intent == s.db.commands[key].intent then OperationInProgress else IdempotencyConflict)
  {
    W.EveryRun(cfg, es);
    RunStaysOrphaned(cfg, FinalState(cfg, Start, es), later, key);
  }

  /** The step ends its worker's part in the command, and the command is still open:
      the worker is gone, a call failed, or an answer settles nothing. */
  predicate LosesOutcome(cfg: Limits, s: State, e: Step)
    requires CanTake(cfg, s, e)
  {
    && !e.Expire? && !e.Arrive? && e.w in s.workers && W.Busy(s.workers[e.w].stage)
    && var t := Take(cfg, s, e);
       && e.w in t.workers && !W.Busy(t.workers[e.w].stage)
       && s.workers[e.w].key in t.db.commands && t.db.commands[s.workers[e.w].key].state.Completable()
  }

  /** A step that only ends its worker's part leaves the command open. */
  lemma EndingLoses(cfg: Limits, s: State, e: Step, stage: Stage)
    requires W.Inv(cfg, s) && CanTake(cfg, s, e) && !e.Expire? && !e.Arrive? && e.w in s.workers
    requires W.Busy(s.workers[e.w].stage) && !W.Busy(stage) && Take(cfg, s, e) == Move(s, e.w, stage)
    ensures LosesOutcome(cfg, s, e)
  {
    W.BusyWorkerOwns(cfg, s, e.w);
  }

  /** A crash or a failed call before the command is completed always loses it, from
      whichever stage. */
  lemma StoppingLoses(cfg: Limits, s: State, w: nat)
    requires W.Inv(cfg, s) && w in s.workers && W.Busy(s.workers[w].stage)
    ensures CanTake(cfg, s, Crash(w)) && LosesOutcome(cfg, s, Crash(w))
    ensures CanTake(cfg, s, GiveUp(w)) && LosesOutcome(cfg, s, GiveUp(w))
  {
    EndingLoses(cfg, s, Crash(w), Done);
    EndingLoses(cfg, s, GiveUp(w), Replying(RuntimeFailure));
  }

  /** So does an issuer's answer that is neither a refusal nor an acceptable session. */
  lemma UnclearAnswersLose(cfg: Limits, s: State, w: nat, answer: IssuerAnswer, now: Time)
    requires W.Inv(cfg, s) && CanTake(cfg, s, HearIssuer(w, answer, now)) && !answer.SubjectRefused?
    requires !WithinBounds(answer, now, s.calls[s.workers[w].stage.call].expiresAt)
    ensures LosesOutcome(cfg, s, HearIssuer(w, answer, now))
  {
    EndingLoses(cfg, s, HearIssuer(w, answer, now), Replying(RuntimeFailure));
  }

  /** Nobody else works on the key, before or after. */
  lemma NobodyElse(s: State, e: Step, t: State)
    requires W.WorkersInv(s) && Leaves(s, e, t) && !e.Expire? && !e.Arrive?
    requires W.Busy(s.workers[e.w].stage) && !W.Busy(t.workers[e.w].stage)
    ensures forall v :: v in t.workers && t.workers[v].key == s.workers[e.w].key ==> !W.Busy(t.workers[v].stage)
  {
    forall v | v in t.workers && t.workers[v].key == s.workers[e.w].key ensures !W.Busy(t.workers[v].stage) {
      if v != e.w && W.Busy(s.workers[v].stage) {
        W.SoleOwner(s, v, e.w);
      }
    }
  }

  lemma LostOutcomeOrphans(cfg: Limits, s: State, e: Step)
    requires W.Inv(cfg, s) && CanTake(cfg, s, e) && LosesOutcome(cfg, s, e)
    ensures Orphaned(Take(cfg, s, e), s.workers[e.w].key)
  {
    StepLeaves(cfg, s, e);
    NobodyElse(s, e, Take(cfg, s, e));
  }

  lemma SameIntent(s: State, e: Step, t: State)
    requires Leaves(s, e, t) && !e.Expire? && !e.Arrive? && W.Owns(s, s.workers[e.w])
    requires s.workers[e.w].key in t.db.commands && W.CommandInv(t, s.workers[e.w].key)
    ensures t.db.commands[s.workers[e.w].key].intent == s.workers[e.w].intent
  {
    assert t.h[s.workers[e.w].claim] == s.h[s.workers[e.w].claim];
  }

  lemma LostOutcomeIntent(cfg: Limits, s: State, e: Step)
    requires W.Inv(cfg, s) && CanTake(cfg, s, e) && W.Inv(cfg, Take(cfg, s, e)) && LosesOutcome(cfg, s, e)
    ensures Take(cfg, s, e).db.commands[s.workers[e.w].key].intent == s.workers[e.w].intent
  {
    StepLeaves(cfg, s, e);
    assert W.WorkerInv(s, e.w);
    SameIntent(s, e, Take(cfg, s, e));
  }

  /** Once a worker has lost its outcome, its row stays open as it was left, for good:
      in every continuation no call is made for its key, the same request is told the
      operation is in progress, and any other request under the key is a conflict. */
  lemma NeverIssuedAgain(cfg: Limits, es: seq<Step>, e: Step, later: seq<Step>, intent: Intent)
    requires cfg.Valid() && LegalRun(cfg, Start, es) && CanTake(cfg, FinalState(cfg, Start, es), e)
    requires LosesOutcome(cfg, FinalState(cfg, Start, es), e)
    requires LegalRun(cfg, Take(cfg, FinalState(cfg, Start, es), e), later)
    ensures var s := Take(cfg, FinalState(cfg, Start, es), e);
            var t := FinalState(cfg, s, later);
            var worker := FinalState(cfg, Start, es).workers[e.w];
            && Frozen(s, t, worker.key) && t.db.commands[worker.key].intent == worker.intent
            && t.db.commands[worker.key].state.Completable()
            && Answered(worker.key, intent, t.db) == (if intent == worker.intent then OperationInProgress else IdempotencyConflict)
  {
    var r := FinalState(cfg, Start, es);
    W.EveryRun(cfg, es);
    W.StepKeeps(cfg, r, e);
    LostOutcomeOrphans(cfg, r, e);
    LostOutcomeIntent(cfg, r, e);
    RunStaysOrphaned(cfg, Take(cfg, r, e), later, r.workers[e.w].key);
  }

  // The life of a session

  /** An accepted session expires within the token lifetime of the clock reading
      just before the call, within its credential's validity and lifetime, and
      within the overlap after its credential was superseded; and it names the
      admitted account. */
  lemma SessionLifetime(cfg: Limits, es: seq<Step>, a: nat)
    requires cfg.Valid() && LegalRun(cfg, Start, es) && a < |FinalState(cfg, Start, es).accepted|
    ensures var s := FinalState(cfg, Start, es);
            && CallKnown(s, s.accepted[a].call)
            && var c, r := s.calls[s.accepted[a].call], s.accepted[a].response;
               var row := Admission(s, c.admission);
               && c.at < c.expiresAt && r.expiresAt <= c.expiresAt <= c.at + cfg.tokenTtl
               && r.expiresAt <= row.validUntil <= row.validFrom + cfg.credentialTtl
               && r.account == row.account == s.h[c.admission].action.op.account
               && row.id == s.h[c.admission].action.op.credential
               && row.id in At(s.h, c.admission).credentials
               && (At(s.h, c.admission).credentials[row.id].supersededAt.Some? ==>
                     r.expiresAt <= At(s.h, c.admission).credentials[row.id].supersededAt.value + cfg.rotationOverlap)
  {
    W.EveryRun(cfg, es);
    var s := FinalState(cfg, Start, es);
    var i := s.accepted[a].call;
    assert W.AnswersCall(s, i, s.accepted[a].response);
    assert W.CallInv(cfg, s, i);
    AdmissionIs(cfg, s.h, s.calls[i].admission);
    AdmissionWithinValidity(cfg, s.h, s.calls[i].admission);
  }

  /** A rotation that committed before the admission bounds every session of an
      older credential by its overlap; a revocation that did allows no session. */
  lemma SessionAfterChange(cfg: Limits, es: seq<Step>, a: nat, i: nat)
    requires cfg.Valid() && LegalRun(cfg, Start, es) && a < |FinalState(cfg, Start, es).accepted|
    requires CallKnown(FinalState(cfg, Start, es), FinalState(cfg, Start, es).accepted[a].call)
    requires var s := FinalState(cfg, Start, es);
             i < s.calls[s.accepted[a].call].admission && Effective(s.h[i])
    ensures var s := FinalState(cfg, Start, es);
            var change, r := s.h[i].action.op, s.accepted[a].response;
            var admitted := s.h[s.calls[s.accepted[a].call].admission].action.op;
            change.account == r.account ==>
              && !change.Revoke?
              && (change.Rotate? && admitted.credential in At(s.h, i).credentials ==>
                    r.expiresAt <= change.validFrom + cfg.rotationOverlap)
  {
    W.EveryRun(cfg, es);
    SessionLifetime(cfg, es, a);
    var s := FinalState(cfg, Start, es);
    var j := s.calls[s.accepted[a].call].admission;
    var change := s.h[i].action.op;
    if change.account == s.accepted[a].response.account {
      if change.Revoke? { NoAdmissionAfterRevocation(cfg, s.h, i, j); }
      if change.Rotate? && s.h[j].action.op.credential in At(s.h, i).credentials { AdmissionWithinOverlap(cfg, s.h, i, j); }
    }
  }

  // Calls against the rate limit

  function PolicyOf(cfg: Limits): Policy {
    Policy(cfg.exchangeWindow, cfg.maxExchanges, cfg.exchangeLockout)
  }

  /** The clock readings of a caller's requests for a slot, in lock order. */
  function Readings(h: seq<Entry>, caller: string): seq<Time> {
    if h == [] then []
    else
      var last := h[|h| - 1].action;
      Readings(h[..|h| - 1], caller) + if last.TakeSlot? && last.caller == caller then [last.now] else []
  }

  function LimitRow(db: Db, caller: string): Option<Limit> {
    if caller in db.limits then Some(db.limits[caller]) else None
  }

  lemma OnlySlotsTouchLimits(db: Db, a: Action, caller: string)
    requires !(a.TakeSlot? && a.caller == caller)
    ensures LimitRow(Perform(db, a).0, caller) == LimitRow(db, caller)
  {
    if a.Transact? { SerialKeepsLimits(db, a.op); }
  }

  lemma SerialKeepsLimits(db: Db, op: Op)
    ensures Serial(db, op).0.limits == db.limits
  {
  }

  /** The limiter's row is the one its caller's readings lead to. */
  lemma {:induction false} LimiterRow(cfg: Limits, h: seq<Entry>, n: nat, caller: string)
    requires Possible(cfg, h) && n <= |h|
    ensures LimitRow(At(h, n), caller) == Row(PolicyOf(cfg), Readings(h[..n], caller))
    decreases n
  {
    if n > 0 {
      LimiterRow(cfg, h, n - 1, caller);
      LimiterStep(cfg, h, n - 1, caller);
    }
  }

  predicate TakesSlot(e: Entry, caller: string) {
    e.action.TakeSlot? && e.action.caller == caller
  }

  lemma SlotDecides(cfg: Limits, db: Db, a: Action, readings: seq<Time>)
    requires a.TakeSlot? && ConfiguredAction(cfg, a) && LimitRow(db, a.caller) == Row(PolicyOf(cfg), readings)
    ensures LimitRow(Perform(db, a).0, a.caller) == Row(PolicyOf(cfg), readings + [a.now])
    ensures Perform(db, a).1 == Affected(LastAdmitted(PolicyOf(cfg), readings + [a.now]))
  {
    assert (readings + [a.now])[..|readings|] == readings;
  }

  lemma ReadingsStep(h: seq<Entry>, i: nat, caller: string)
    requires i < |h|
    ensures Readings(h[..i + 1], caller)
      == if TakesSlot(h[i], caller) then Readings(h[..i], caller) + [h[i].action.now] else Readings(h[..i], caller)
  {
    assert h[..i + 1][..i] == h[..i];
  }

  lemma LimiterStep(cfg: Limits, h: seq<Entry>, i: nat, caller: string)
    requires Possible(cfg, h) && i < |h|
    requires LimitRow(At(h, i), caller) == Row(PolicyOf(cfg), Readings(h[..i], caller))
    ensures LimitRow(At(h, i + 1), caller) == Row(PolicyOf(cfg), Readings(h[..i + 1], caller))
    ensures TakesSlot(h[i], caller) ==>
              h[i].result == Affected(LastAdmitted(PolicyOf(cfg), Readings(h[..i], caller) + [h[i].action.now]))
  {
    EntryAt(cfg, h, i);
    ReadingsStep(h, i, caller);
    if TakesSlot(h[i], caller) {
      SlotDecides(cfg, At(h, i), h[i].action, Readings(h[..i], caller));
    } else {
      OnlySlotsTouchLimits(At(h, i), h[i].action, caller);
    }
  }

  /** Where a caller's slots with a reading in `[from, to)` were granted. */
  function Grants(h: seq<Entry>, n: nat, caller: string, from: Time, to: Time): set<nat>
    requires n <= |h|
  {
    set i | 0 <= i < n && Granting(h[i], caller, from, to)
  }

  predicate Granting(e: Entry, caller: string, from: Time, to: Time) {
    TakesSlot(e, caller) && e.result == Affected(true) && from <= e.action.now < to
  }

  lemma GrantsStep(h: seq<Entry>, i: nat, caller: string, from: Time, to: Time)
    requires i < |h|
    ensures |Grants(h, i + 1, caller, from, to)|
         == |Grants(h, i, caller, from, to)| + if Granting(h[i], caller, from, to) then 1 else 0
  {
    var earlier := Grants(h, i, caller, from, to);
    if Granting(h[i], caller, from, to) {
      assert Grants(h, i + 1, caller, from, to) == earlier + {i};
    } else {
      assert Grants(h, i + 1, caller, from, to) == earlier;
    }
  }

  lemma AdmissionsStep(p: Policy, readings: seq<Time>, now: Time, from: Time, to: Time)
    ensures Admissions(p, readings + [now], from, to)
         == Admissions(p, readings, from, to) + if LastAdmitted(p, readings + [now]) && from <= now < to then 1 else 0
  {
    assert (readings + [now])[..|readings|] == readings;
  }

  lemma OneMoreAdmission(cfg: Limits, h: seq<Entry>, i: nat, caller: string, from: Time, to: Time)
    requires Possible(cfg, h) && i < |h|
    ensures Admissions(PolicyOf(cfg), Readings(h[..i + 1], caller), from, to)
         == Admissions(PolicyOf(cfg), Readings(h[..i], caller), from, to)
            + if Granting(h[i], caller, from, to) then 1 else 0
  {
    LimiterRow(cfg, h, i, caller);
    LimiterStep(cfg, h, i, caller);
    ReadingsStep(h, i, caller);
    if TakesSlot(h[i], caller) {
      AdmissionsStep(PolicyOf(cfg), Readings(h[..i], caller), h[i].action.now, from, to);
    }
  }

  lemma {:induction false} GrantsAreAdmissions(cfg: Limits, h: seq<Entry>, n: nat, caller: string, from: Time, to: Time)
    requires Possible(cfg, h) && n <= |h|
    ensures |Grants(h, n, caller, from, to)| == Admissions(PolicyOf(cfg), Readings(h[..n], caller), from, to)
    decreases n
  {
    if n > 0 {
      GrantsAreAdmissions(cfg, h, n - 1, caller, from, to);
      OneMoreAdmission(cfg, h, n - 1, caller, from, to);
      GrantsStep(h, n - 1, caller, from, to);
    }
  }

  predicate CallFor(s: State, i: nat, caller: string, from: Time, to: Time) {
    && i < |s.calls| && s.calls[i].claim < |s.h| && s.h[s.calls[i].claim].action.Reserve? && KeyOf(s, i).caller == caller
    && s.calls[i].slot < |s.h| && s.h[s.calls[i].slot].action.TakeSlot? && from <= s.h[s.calls[i].slot].action.now < to
  }

  /** The calls made for a caller on slots with a reading in `[from, to)`. */
  function CallsFor(s: State, caller: string, from: Time, to: Time): set<nat> {
    set i | 0 <= i < |s.calls| && CallFor(s, i, caller, from, to)
  }

  lemma {:induction false} Distinct(calls: seq<Call>, some: set<nat>, slots: set<nat>)
    requires forall i :: i in some ==> i < |calls| && calls[i].slot in slots
    requires forall i, j :: i in some && j in some && i != j ==> calls[i].slot != calls[j].slot
    ensures |some| <= |slots|
    decreases |some|
  {
    if some != {} {
      var i :| i in some;
      Distinct(calls, some - {i}, slots - {calls[i].slot});
    }
  }

  lemma CallsWithinGrants(cfg: Limits, es: seq<Step>, caller: string, from: Time, to: Time)
    requires cfg.Valid() && LegalRun(cfg, Start, es)
    ensures var s := FinalState(cfg, Start, es);
            |CallsFor(s, caller, from, to)| <= Admissions(PolicyOf(cfg), Readings(s.h, caller), from, to)
  {
    W.EveryRun(cfg, es);
    var s := FinalState(cfg, Start, es);
    var some, slots := CallsFor(s, caller, from, to), Grants(s.h, |s.h|, caller, from, to);
    forall i | i in some ensures i < |s.calls| && s.calls[i].slot in slots {
      EveryCallIsPaidFor(cfg, es, i);
    }
    forall i, j | i in some && j in some && i != j ensures s.calls[i].slot != s.calls[j].slot {
      AtMostOnceIssuance(cfg, es, i, j);
    }
    Distinct(s.calls, some, slots);
    GrantsAreAdmissions(cfg, s.h, |s.h|, caller, from, to);
    assert s.h[..|s.h|] == s.h;
  }

  lemma GrantsPerWindow(cfg: Limits, readings: seq<Time>, t: Time)
    requires cfg.Valid() && NonDecreasing(readings)
    ensures Admissions(PolicyOf(cfg), readings, t, t + cfg.exchangeWindow) <= 2 * cfg.maxExchanges - 1
  {
    AtMostTwoWindowsMeet(PolicyOf(cfg), readings, t);
  }

  lemma CallsWithinWindow(cfg: Limits, s: State, caller: string, t: Time)
    requires cfg.Valid() && NonDecreasing(Readings(s.h, caller))
    requires |CallsFor(s, caller, t, t + cfg.exchangeWindow)|
               <= Admissions(PolicyOf(cfg), Readings(s.h, caller), t, t + cfg.exchangeWindow)
    ensures |CallsFor(s, caller, t, t + cfg.exchangeWindow)| <= 2 * cfg.maxExchanges - 1
  {
    GrantsPerWindow(cfg, Readings(s.h, caller), t);
  }

  /** While a caller's clock readings do not go back, no interval as long as the
      window sees more calls to the issuer than twice the limit less one, whatever
      runs concurrently, crashes or repeats. */
  lemma CallsPerWindow(cfg: Limits, es: seq<Step>, caller: string, t: Time)
    requires cfg.Valid() && LegalRun(cfg, Start, es)
    requires NonDecreasing(Readings(FinalState(cfg, Start, es).h, caller))
    ensures |CallsFor(FinalState(cfg, Start, es), caller, t, t + cfg.exchangeWindow)| <= 2 * cfg.maxExchanges - 1
  {
    CallsWithinGrants(cfg, es, caller, t, t + cfg.exchangeWindow);
    CallsWithinWindow(cfg, FinalState(cfg, Start, es), caller, t);
  }

  predicate Spans(readings: seq<Time>, t: Time, d: nat) {
    forall i :: 0 <= i < |readings| ==> t <= readings[i] <= t + d
  }

  lemma CallsWithinSpan(cfg: Limits, s: State, caller: string, t: Time, d: nat)
    requires cfg.Valid()
    requires Spans(Readings(s.h, caller), t, d)
    requires |CallsFor(s, caller, t, t + d + 1)| <= Admissions(PolicyOf(cfg), Readings(s.h, caller), t, t + d + 1)
    ensures |CallsFor(s, caller, t, t + d + 1)| <= cfg.maxExchanges * (1 + d / cfg.exchangeWindow)
  {
    AdmissionsOverSpan(PolicyOf(cfg), Readings(s.h, caller), t, d);
  }

  /** With readings in any order, a caller whose readings span `d` gets at most the
      limit for each window that starts within the span. */
  lemma CallsPerSpan(cfg: Limits, es: seq<Step>, caller: string, t: Time, d: nat)
    requires cfg.Valid() && LegalRun(cfg, Start, es)
    requires Spans(Readings(FinalState(cfg, Start, es).h, caller), t, d)
    ensures |CallsFor(FinalState(cfg, Start, es), caller, t, t + d + 1)|
              <= cfg.maxExchanges * (1 + d / cfg.exchangeWindow)
  {
    CallsWithinGrants(cfg, es, caller, t, t + d + 1);
    CallsWithinSpan(cfg, FinalState(cfg, Start, es), caller, t, d);
  }
}
