/** What callers are told over every run of the workers: replays agree with the
    committed change, a receipt appears exactly with its change, and a generated
    secret is disclosed once. */
module Receipts {
  import opened Tables
  import opened Secrets
  import opened Transactions
  import opened Atomic
  import opened Interleaving
  import opened Guarantees
  import opened Histories
  import opened Protocol
  import W = Workers
  import I = Issuance

  // An owner can always complete its command

  lemma OpenCommandIsConcluded(db: Db, op: Op)
    requires OpenCommand(db, CommandOf(op))
    ensures Alone(db, op).1 != InvariantFailure
  {
  }

  /** Whichever way a command is completed, an open one takes it. */
  lemma OpenCommandCompletes(db: Db, key: CommandKey, op: Op, code: string, receipt: Sealed, at: Time)
    requires OpenCommand(db, key)
    ensures Perform(db, Fail(key, code, at)).1 == Affected(true)
    ensures Perform(db, Finish(key, receipt, at)).1 == Affected(true)
    ensures CommandOf(op) == key ==> Serial(db, op).1 != InvariantFailure
  {
    if CommandOf(op) == key {
      StatementsCompose(db, op);
      OpenCommandIsConcluded(db, op);
    }
  }

  /** The completion a busy worker is about to run never fails, be it an error, a
      session or a transaction: its row is open and its own. */
  lemma OwnersComplete(cfg: Limits, es: seq<Step>, w: nat, op: Op, code: string, receipt: Sealed, at: Time)
    requires cfg.Valid() && LegalRun(cfg, Start, es) && w in FinalState(cfg, Start, es).workers
    requires W.Busy(FinalState(cfg, Start, es).workers[w].stage)
    ensures var s := FinalState(cfg, Start, es);
            var key := s.workers[w].key;
            && Perform(s.db, Fail(key, code, at)).1 == Affected(true)
            && Perform(s.db, Finish(key, receipt, at)).1 == Affected(true)
            && (CommandOf(op) == key ==> Serial(s.db, op).1 != InvariantFailure)
  {
    W.EveryRun(cfg, es);
    var s := FinalState(cfg, Start, es);
    W.BusyWorkerOwns(cfg, s, w);
    OwnedIsOpen(s, s.workers[w]);
    OpenCommandCompletes(s.db, s.workers[w].key, op, code, receipt, at);
  }

  lemma OwnedIsOpen(s: State, worker: Worker)
    requires W.Owns(s, worker)
    ensures OpenCommand(s.db, worker.key)
  {
  }

  // Replays

  predicate SessionOf(s: State, a: nat, claim: nat, r: ExchangeResponse) {
    && a < |s.accepted| && s.accepted[a].response == r
    && s.accepted[a].call < |s.calls| && s.calls[s.accepted[a].call].claim == claim
  }

  predicate ChangeOf(s: State, j: nat, key: CommandKey, row: AccountRow, changed: bool) {
    j < |s.h| && W.Committed(s.h[j], key, row, changed)
  }

  /** What a request that finds the key taken is told. A stored receipt always opens
      and every stored error code decodes; a change is replayed with the row its
      transaction committed after this row was claimed, marked unchanged and without
      the secret; a session is replayed as it was accepted for this claim. */
  lemma ReplayAgrees(cfg: Limits, es: seq<Step>, key: CommandKey, intent: Intent)
    requires cfg.Valid() && LegalRun(cfg, Start, es) && key in FinalState(cfg, Start, es).db.commands
    ensures var s := FinalState(cfg, Start, es);
            && key in s.claims && W.ClaimedEntry(s, s.claims[key], key, s.db.commands[key].intent)
            && var answer := Answered(key, intent, s.db);
               if s.db.commands[key].intent != intent then answer == IdempotencyConflict
               else
                 match s.db.commands[key].state
                 case CompletedSuccess(_, _) =>
                   && answer.Success?
                   && (match answer.body
                       case ChangeBody(row, changed, secret) =>
                         && key.operation != ExchangeSecret && !changed && secret.None?
                         && exists j, flag :: s.claims[key] < j && ChangeOf(s, j, key, row, flag)
                       case ExchangeBody(r) =>
                         key.operation == ExchangeSecret && exists a :: SessionOf(s, a, s.claims[key], r))
                 case CompletedError(code, _) => answer == DomainError(code) && Decodes(key.operation, code)
                 case _ => answer == OperationInProgress
  {
    W.EveryRun(cfg, es);
    var s := FinalState(cfg, Start, es);
    assert W.CommandInv(s, key);
    if s.db.commands[key].state.CompletedSuccess? {
      StoredBody(s, key, s.claims[key], s.db.commands[key].state.receipt.body);
    }
  }

  lemma StoredBody(s: State, key: CommandKey, claim: nat, body: Body)
    requires W.BodyInv(s, key, claim, body)
    ensures body.ChangeBody? ==> exists j, flag :: claim < j && ChangeOf(s, j, key, body.account, flag)
    ensures body.ExchangeBody? ==> exists a :: SessionOf(s, a, claim, body.response)
  {
    match body
    case ChangeBody(row, changed, _) =>
      var j :| claim < j < |s.h| && W.Committed(s.h[j], key, row, changed);
      assert ChangeOf(s, j, key, row, changed);
    case ExchangeBody(r) =>
      var a :| 0 <= a < |s.accepted| && s.accepted[a].response == r
               && s.accepted[a].call < |s.calls| && s.calls[s.accepted[a].call].claim == claim;
      assert SessionOf(s, a, claim, r);
  }

  /** A completed row changes no more, until a prune removes it. */
  lemma CompletedRowStays(db: Db, a: Action, key: CommandKey)
    requires key in db.commands && CompletedAt(db.commands[key].state).Some?
    requires !(a.Prune? && Expired(db.commands[key], a.before))
    ensures key in Perform(db, a).0.commands && Perform(db, a).0.commands[key] == db.commands[key]
  {
    if a.Transact? { W.TransactCommands(db, a.op); }
  }

  predicate PrunesNothingOf(es: seq<Step>, c: Command) {
    forall e :: e in es && e.Expire? ==> !Expired(c, e.before)
  }

  /** The tables after a step are those after its one action, or as they were. */
  lemma StepActs(cfg: Limits, s: State, e: Step)
    requires CanTake(cfg, s, e)
    ensures var t, a := Take(cfg, s, e), ActionOf(cfg, s, e);
            if a.Some? then t.db == Perform(s.db, a.value).0 && t.h == s.h + [Entry(a.value, Perform(s.db, a.value).1)]
            else t.db == s.db && t.h == s.h
  {
  }

  lemma CompletedStaysPut(cfg: Limits, s: State, e: Step, key: CommandKey)
    requires CanTake(cfg, s, e) && key in s.db.commands && CompletedAt(s.db.commands[key].state).Some?
    requires e.Expire? ==> !Expired(s.db.commands[key], e.before)
    ensures var t := Take(cfg, s, e); key in t.db.commands && t.db.commands[key] == s.db.commands[key]
  {
    StepActs(cfg, s, e);
    var a := ActionOf(cfg, s, e);
    if a.Some? { CompletedRowStays(s.db, a.value, key); }
  }

  /** Until its receipt is pruned, every replay of a completed command is answered
      the same. */
  lemma {:induction false} AnswersStay(cfg: Limits, s: State, es: seq<Step>, key: CommandKey, intent: Intent)
    requires LegalRun(cfg, s, es) && key in s.db.commands && CompletedAt(s.db.commands[key].state).Some?
    requires PrunesNothingOf(es, s.db.commands[key])
    ensures Answered(key, intent, FinalState(cfg, s, es).db) == Answered(key, intent, s.db)
    ensures Answered(key, intent, s.db) != OperationInProgress
    decreases |es|
  {
    if es != [] {
      assert es[0] in es;
      CompletedStaysPut(cfg, s, es[0], key);
      AnswersStay(cfg, Take(cfg, s, es[0]), es[1..], key, intent);
    }
  }

  // A receipt exactly with its change

  predicate Succeeded(db: Db, key: CommandKey) {
    key in db.commands && db.commands[key].state.CompletedSuccess?
  }

  predicate CommitsFor(e: Entry, key: CommandKey) {
    e.action.Transact? && CommandOf(e.action.op) == key && e.result.Transacted? && e.result.outcome.Changed?
  }

  lemma ActionCompletes(db: Db, a: Action, key: CommandKey)
    requires key.operation != ExchangeSecret && !(a.Finish? && a.key == key)
    ensures (Succeeded(Perform(db, a).0, key) && !Succeeded(db, key)) <==> CommitsFor(Entry(a, Perform(db, a).1), key)
  {
    if a.Transact? { W.TransactCommands(db, a.op); }
  }

  /** In every reachable state a step completes a create, rotate or revoke command
      with success exactly when it commits that command's change. */
  lemma ReceiptIffCommit(cfg: Limits, es: seq<Step>, e: Step, key: CommandKey)
    requires cfg.Valid() && LegalRun(cfg, Start, es) && CanTake(cfg, FinalState(cfg, Start, es), e)
    requires key.operation != ExchangeSecret
    ensures var s := FinalState(cfg, Start, es);
            var t := Take(cfg, s, e);
            (Succeeded(t.db, key) && !Succeeded(s.db, key)) <==> (|t.h| > |s.h| && CommitsFor(t.h[|t.h| - 1], key))
  {
    W.EveryRun(cfg, es);
    var s := FinalState(cfg, Start, es);
    StepActs(cfg, s, e);
    var a := ActionOf(cfg, s, e);
    if a.Some? {
      if a.value.Finish? { assert W.WorkerInv(s, e.w); }
      ActionCompletes(s.db, a.value, key);
    }
  }

  lemma CompletedStaysAt(cfg: Limits, h: seq<Entry>, i: nat, key: CommandKey)
    requires Possible(cfg, h) && i < |h| && Succeeded(At(h, i), key) && !I.Removes(h, i, key)
    ensures Succeeded(At(h, i + 1), key)
  {
    EntryAt(cfg, h, i);
    CompletedRowStays(At(h, i), h[i].action, key);
  }

  lemma {:induction false} SuccessLasts(cfg: Limits, h: seq<Entry>, i: nat, j: nat, key: CommandKey)
    requires Possible(cfg, h) && i <= j <= |h| && Succeeded(At(h, i), key)
    requires forall p :: i <= p < j ==> !I.Removes(h, p, key)
    ensures Succeeded(At(h, j), key)
    decreases j
  {
    if i < j {
      SuccessLasts(cfg, h, i, j - 1, key);
      CompletedStaysAt(cfg, h, j - 1, key);
    }
  }

  lemma CommitTakesOpenCommand(cfg: Limits, h: seq<Entry>, i: nat, key: CommandKey)
    requires Possible(cfg, h) && i < |h| && CommitsFor(h[i], key)
    ensures !Succeeded(At(h, i), key) && Succeeded(At(h, i + 1), key)
  {
    EntryAt(cfg, h, i);
    W.TransactCommands(At(h, i), h[i].action.op);
  }

  /** One committed change per command row: a second under the same key comes only
      after a prune of the first one's receipt. */
  lemma OneCommitPerRow(cfg: Limits, h: seq<Entry>, i: nat, j: nat, key: CommandKey)
    requires Possible(cfg, h) && i < j < |h| && CommitsFor(h[i], key) && CommitsFor(h[j], key)
    ensures exists p :: i < p < j && I.Removes(h, p, key)
  {
    if forall p :: i < p < j ==> !I.Removes(h, p, key) {
      CommitTakesOpenCommand(cfg, h, i, key);
      CommitTakesOpenCommand(cfg, h, j, key);
      SuccessLasts(cfg, h, i + 1, j, key);
      assert false;
    }
  }

  // Every reply is backed by the history

  /** The commit a disclosed secret came from: it stored that secret's verifier
      under that secret's identifier. */
  predicate Discloses(e: Entry, secret: string) {
    && e.action.Transact? && (e.action.op.Create? || e.action.op.Rotate?)
    && e.action.op.verifier == VerifierOf(secret) && CredentialId(secret) == Some(e.action.op.credential)
  }

  predicate ChangeReply(s: State, j: nat, key: CommandKey, row: AccountRow, flag: bool, secret: Option<string>) {
    ChangeOf(s, j, key, row, flag) && (secret.Some? ==> flag && Discloses(s.h[j], secret.value))
  }

  predicate SessionReply(s: State, a: nat, key: CommandKey, r: ExchangeResponse) {
    && a < |s.accepted| && s.accepted[a].response == r && s.accepted[a].call < |s.calls|
    && s.calls[s.accepted[a].call].claim < |s.h| && I.ClaimsKey(s.h[s.calls[s.accepted[a].call].claim], key)
  }

  ghost predicate Backed(s: State, key: CommandKey, reply: Reply) {
    match reply
    case Success(ChangeBody(row, changed, secret)) =>
      && key.operation != ExchangeSecret && (secret.Some? ==> changed)
      && exists j, flag :: (changed ==> flag) && ChangeReply(s, j, key, row, flag, secret)
    case Success(ExchangeBody(r)) => key.operation == ExchangeSecret && exists a :: SessionReply(s, a, key, r)
    case DomainError(code) => Decodes(key.operation, code)
    case _ => true
  }

  ghost predicate RepliesInv(s: State) {
    && (forall w :: w in s.workers && s.workers[w].stage.Replying? ==> Backed(s, s.workers[w].key, s.workers[w].stage.reply))
    && (forall i :: 0 <= i < |s.sent| ==> Backed(s, s.sent[i].key, s.sent[i].reply))
  }

  lemma BackedLater(s: State, t: State, key: CommandKey, reply: Reply)
    requires Backed(s, key, reply) && W.Extends(s, t)
    ensures Backed(t, key, reply)
  {
    match reply
    case Success(ChangeBody(row, changed, secret)) =>
      var j, flag :| (changed ==> flag) && ChangeReply(s, j, key, row, flag, secret);
      assert ChangeReply(t, j, key, row, flag, secret);
    case Success(ExchangeBody(r)) =>
      var a :| SessionReply(s, a, key, r);
      assert SessionReply(t, a, key, r);
    case _ =>
  }

  lemma StoredIsBacked(s: State, key: CommandKey, claim: nat, body: Body)
    requires W.BodyInv(s, key, claim, body) && claim < |s.h| && I.ClaimsKey(s.h[claim], key)
    ensures body.ChangeBody? ==> Backed(s, key, Success(ChangeBody(body.account, false, None)))
    ensures body.ExchangeBody? ==> Backed(s, key, Success(body))
  {
    StoredBody(s, key, claim, body);
    match body
    case ChangeBody(row, _, _) =>
      var j, flag :| claim < j && ChangeOf(s, j, key, row, flag);
      assert ChangeReply(s, j, key, row, flag, None);
    case ExchangeBody(r) =>
      var a :| SessionOf(s, a, claim, r);
      assert SessionReply(s, a, key, r);
  }

  lemma AnswerIsBacked(s: State, key: CommandKey, intent: Intent)
    requires key in s.db.commands && W.CommandInv(s, key)
    ensures Backed(s, key, Answered(key, intent, s.db))
  {
    if s.db.commands[key].state.CompletedSuccess? {
      StoredIsBacked(s, key, s.claims[key], s.db.commands[key].state.receipt.body);
    }
  }

  lemma ReplayIsBacked(cfg: Limits, s: State, key: CommandKey, intent: Intent)
    requires W.CommandsInv(s)
    ensures Backed(s, key, Answered(key, intent, s.db))
  {
    if key in s.db.commands { AnswerIsBacked(s, key, intent); }
  }

  lemma CommitIsBacked(s: State, key: CommandKey, op: Op, outcome: Outcome, secret: Option<string>)
    requires s.h != [] && s.h[|s.h| - 1] == Entry(Transact(op), Transacted(outcome))
    requires outcome.Changed? && CommandOf(op) == key && key.operation != ExchangeSecret
    requires secret.Some? ==> outcome.changed && Discloses(s.h[|s.h| - 1], secret.value)
    ensures Backed(s, key, Success(ChangeBody(outcome.row, outcome.changed, secret)))
  {
    assert ChangeReply(s, |s.h| - 1, key, outcome.row, outcome.changed, secret);
  }

  lemma SecretsComeFromTheirCommit(cfg: Limits, key: CommandKey, intent: Intent, op: Op, secret: string, r: Result)
    requires OpFor(cfg, key, intent, op, secret)
    ensures op.Revoke? || Discloses(Entry(Transact(op), r), secret)
  {
  }

  lemma MutationIsBacked(cfg: Limits, s: State, w: nat, op: Op, secret: string)
    requires w in s.workers && W.WorkerInv(s, w) && CanTake(cfg, s, Mutate(w, op, secret))
    requires NextMutate(s, w, op, secret).workers[w].stage.Replying?
    ensures var t := NextMutate(s, w, op, secret); Backed(t, s.workers[w].key, t.workers[w].stage.reply)
  {
    var r, t := Perform(s.db, Transact(op)).1, NextMutate(s, w, op, secret);
    W.OpForFacts(cfg, s.workers[w].key, s.workers[w].intent, op, secret);
    SecretsComeFromTheirCommit(cfg, s.workers[w].key, s.workers[w].intent, op, secret, r);
    if r.outcome.Changed? {
      if !op.Revoke? { ChangedFlag(s.db, op); }
      CommitIsBacked(t, s.workers[w].key, op, r.outcome, if op.Revoke? then None else Some(secret));
    }
  }

  lemma ChangedFlag(db: Db, op: Op)
    requires Perform(db, Transact(op)).1.outcome.Changed? && !op.Revoke?
    ensures Perform(db, Transact(op)).1.outcome.changed
  {
    StatementsCompose(db, op);
    AlwaysChanges(db, op);
  }

  /** A committed creation or rotation always changes something. */
  lemma AlwaysChanges(db: Db, op: Op)
    requires Alone(db, op).1.Changed? && !op.Revoke?
    ensures Alone(db, op).1.changed
  {
  }

  lemma CompletionIsBacked(cfg: Limits, s: State, w: nat, at: Time)
    requires CanTake(cfg, s, CompleteExchange(w, at)) && W.WorkerInv(s, w)
    ensures var t := NextComplete(s, w, at); Backed(t, s.workers[w].key, t.workers[w].stage.reply)
  {
    var t := NextComplete(s, w, at);
    assert SessionReply(t, |s.accepted|, s.workers[w].key, s.workers[w].stage.response);
  }

  lemma LeavesExtends(s: State, e: Step, t: State)
    requires Leaves(s, e, t) && (e.TakeRateSlot? ==> s.workers[e.w].claim !in s.slots)
    ensures W.Extends(s, t)
  {
  }

  lemma StepExtends(cfg: Limits, s: State, e: Step)
    requires W.Inv(cfg, s) && CanTake(cfg, s, e)
    ensures W.Extends(s, Take(cfg, s, e))
  {
    StepLeaves(cfg, s, e);
    if e.TakeRateSlot? { assert W.WorkerInv(s, e.w); }
    LeavesExtends(s, e, Take(cfg, s, e));
  }

  lemma LoadedReplyIsBacked(cfg: Limits, s: State, w: nat)
    requires W.Inv(cfg, s) && CanTake(cfg, s, LoadClaim(w))
    ensures var t := Take(cfg, s, LoadClaim(w)); Backed(t, s.workers[w].key, t.workers[w].stage.reply)
  {
    ReplayIsBacked(cfg, s, s.workers[w].key, s.workers[w].intent);
    StepExtends(cfg, s, LoadClaim(w));
    BackedLater(s, Take(cfg, s, LoadClaim(w)), s.workers[w].key, Answered(s.workers[w].key, s.workers[w].intent, s.db));
  }

  /** The steps that give a reply of their own. */
  predicate Answers(e: Step) {
    e.LoadClaim? || e.Mutate? || e.Record? || e.CompleteExchange?
  }

  /** Any other step answers, if at all, with a runtime failure. */
  lemma OtherStepsDoNotAnswer(cfg: Limits, s: State, e: Step)
    requires CanTake(cfg, s, e) && !Answers(e) && !e.Expire?
    ensures var t := Take(cfg, s, e);
            e.w in t.workers && (t.workers[e.w].stage.Replying? ==> t.workers[e.w].stage.reply == RuntimeFailure)
  {
  }

  lemma RecordedReplyIsBacked(cfg: Limits, s: State, w: nat, at: Time)
    requires CanTake(cfg, s, Record(w, at)) && W.WorkerInv(s, w)
    ensures var t := NextRecord(s, w, at); Backed(t, s.workers[w].key, t.workers[w].stage.reply)
  {
  }

  lemma NewReplyIsBacked(cfg: Limits, s: State, e: Step)
    requires W.Inv(cfg, s) && CanTake(cfg, s, e) && Answers(e)
    ensures var t := Take(cfg, s, e);
            && e.w in t.workers && t.workers[e.w].key == s.workers[e.w].key
            && (t.workers[e.w].stage.Replying? ==> Backed(t, s.workers[e.w].key, t.workers[e.w].stage.reply))
  {
    assert W.WorkerInv(s, e.w);
    if e.LoadClaim? {
      LoadedReplyIsBacked(cfg, s, e.w);
    } else if e.Mutate? {
      if NextMutate(s, e.w, e.op, e.secret).workers[e.w].stage.Replying? { MutationIsBacked(cfg, s, e.w, e.op, e.secret); }
    } else if e.Record? {
      RecordedReplyIsBacked(cfg, s, e.w, e.at);
    } else {
      CompletionIsBacked(cfg, s, e.w, e.at);
    }
  }

  lemma RepliesStayBacked(s: State, e: Step, t: State)
    requires RepliesInv(s) && Leaves(s, e, t) && W.Extends(s, t)
    requires !e.Expire? ==> (t.workers[e.w].stage.Replying? ==> Backed(t, t.workers[e.w].key, t.workers[e.w].stage.reply))
    ensures RepliesInv(t)
  {
    forall w | w in t.workers && t.workers[w].stage.Replying?
      ensures Backed(t, t.workers[w].key, t.workers[w].stage.reply) {
      if e.Expire? || w != e.w { BackedLater(s, t, s.workers[w].key, s.workers[w].stage.reply); }
    }
    forall i | 0 <= i < |t.sent| ensures Backed(t, t.sent[i].key, t.sent[i].reply) {
      BackedLater(s, t, t.sent[i].key, t.sent[i].reply);
    }
  }

  lemma StepKeepsReplies(cfg: Limits, s: State, e: Step)
    requires W.Inv(cfg, s) && CanTake(cfg, s, e) && RepliesInv(s)
    ensures RepliesInv(Take(cfg, s, e))
  {
    StepExtends(cfg, s, e);
    StepLeaves(cfg, s, e);
    if Answers(e) { NewReplyIsBacked(cfg, s, e); } else if !e.Expire? { OtherStepsDoNotAnswer(cfg, s, e); }
    RepliesStayBacked(s, e, Take(cfg, s, e));
  }

  // A secret is disclosed once

  datatype Place = HeldBy(w: nat) | SentAs(i: nat)

  function Carried(reply: Reply): Option<string> {
    match reply
    case Success(ChangeBody(_, _, secret)) => secret
    case _ => None
  }

  function Disclosed(s: State, p: Place): Option<string> {
    match p
    case HeldBy(w) => if w in s.workers && s.workers[w].stage.Replying? then Carried(s.workers[w].stage.reply) else None
    case SentAs(i) => if i < |s.sent| then Carried(s.sent[i].reply) else None
  }

  ghost predicate SecretsInv(s: State) {
    && (forall p :: Disclosed(s, p).Some? ==> Disclosed(s, p).value in s.secrets)
    && (forall p, q :: p != q && Disclosed(s, p).Some? ==> Disclosed(s, p) != Disclosed(s, q))
  }

  /** Secrets that were disclosed stay where they are, move from a worker to the
      answer it sends, or are new. */
  /** After its step a worker holds no secret, or the one it has just committed. */
  predicate HoldsOwn(e: Step, t: State) {
    e.Expire? || Disclosed(t, HeldBy(e.w)).None?
    || (e.Mutate? && !e.op.Revoke? && Disclosed(t, HeldBy(e.w)) == Some(e.secret))
  }

  lemma StepHoldsOwn(cfg: Limits, s: State, e: Step)
    requires CanTake(cfg, s, e)
    ensures HoldsOwn(e, Take(cfg, s, e))
  {
    if Rewrites(e) { ChangeHoldsOwn(cfg, s, e); }
  }

  lemma ChangeHoldsOwn(cfg: Limits, s: State, e: Step)
    requires CanTake(cfg, s, e) && Rewrites(e)
    ensures HoldsOwn(e, Take(cfg, s, e))
  {
  }

  predicate DisclosesNext(s: State, e: Step, p: Place, t: State) {
    || Disclosed(t, p).None?
    || (Disclosed(t, p) == Disclosed(s, p) && (e.Send? ==> p != HeldBy(e.w)))
    || (e.Send? && p == SentAs(|s.sent|) && Disclosed(t, p) == Disclosed(s, HeldBy(e.w)))
    || (e.Mutate? && !e.op.Revoke? && p == HeldBy(e.w) && Disclosed(t, p) == Some(e.secret))
  }

  lemma StepDiscloses(s: State, e: Step, p: Place, t: State)
    requires Leaves(s, e, t) && HoldsOwn(e, t)
    ensures DisclosesNext(s, e, p, t)
  {
  }

  lemma SecretsStayApart(s: State, e: Step, t: State)
    requires SecretsInv(s) && Leaves(s, e, t) && HoldsOwn(e, t)
    requires e.Mutate? && !e.op.Revoke? ==> e.secret !in s.secrets
    ensures SecretsInv(t)
  {
    forall p | Disclosed(t, p).Some? ensures Disclosed(t, p).value in t.secrets {
      StepDiscloses(s, e, p, t);
    }
    forall p, q | p != q && Disclosed(t, p).Some? ensures Disclosed(t, p) != Disclosed(t, q) {
      StepDiscloses(s, e, p, t);
      StepDiscloses(s, e, q, t);
    }
  }

  lemma StepKeepsSecrets(cfg: Limits, s: State, e: Step)
    requires CanTake(cfg, s, e) && SecretsInv(s)
    ensures SecretsInv(Take(cfg, s, e))
  {
    StepLeaves(cfg, s, e);
    StepHoldsOwn(cfg, s, e);
    SecretsStayApart(s, e, Take(cfg, s, e));
  }

  lemma {:induction false} RunKeepsReplies(cfg: Limits, s: State, es: seq<Step>)
    requires W.Inv(cfg, s) && RepliesInv(s) && SecretsInv(s) && LegalRun(cfg, s, es)
    ensures RepliesInv(FinalState(cfg, s, es)) && SecretsInv(FinalState(cfg, s, es))
    decreases |es|
  {
    if es != [] {
      W.StepKeeps(cfg, s, es[0]);
      StepKeepsReplies(cfg, s, es[0]);
      StepKeepsSecrets(cfg, s, es[0]);
      RunKeepsReplies(cfg, Take(cfg, s, es[0]), es[1..]);
    }
  }

  /** Every answer sent is backed: a change by a commit for its key, a session by an
      accepted call for its key, an error by a code the operation declares. */
  lemma EveryReplyIsBacked(cfg: Limits, es: seq<Step>, i: nat)
    requires cfg.Valid() && LegalRun(cfg, Start, es) && i < |FinalState(cfg, Start, es).sent|
    ensures var s := FinalState(cfg, Start, es); Backed(s, s.sent[i].key, s.sent[i].reply)
  {
    W.StartHolds(cfg);
    RunKeepsReplies(cfg, Start, es);
  }

  /** A secret is in at most one answer of the whole run, and in no receipt. */
  lemma SecretsAppearOnce(cfg: Limits, es: seq<Step>, i: nat, j: nat, key: CommandKey)
    requires cfg.Valid() && LegalRun(cfg, Start, es)
    ensures var s := FinalState(cfg, Start, es);
            && (i < j < |s.sent| && Carried(s.sent[i].reply).Some? ==> Carried(s.sent[i].reply) != Carried(s.sent[j].reply))
            && (Succeeded(s.db, key) && s.db.commands[key].state.receipt.body.ChangeBody? ==>
                  s.db.commands[key].state.receipt.body.secret.None?)
  {
    W.EveryRun(cfg, es);
    W.StartHolds(cfg);
    RunKeepsReplies(cfg, Start, es);
    var s := FinalState(cfg, Start, es);
    if Succeeded(s.db, key) { assert W.CommandInv(s, key); }
    if i < j < |s.sent| && Carried(s.sent[i].reply).Some? {
      assert Disclosed(s, SentAs(i)) == Carried(s.sent[i].reply) && Disclosed(s, SentAs(j)) == Carried(s.sent[j].reply);
    }
  }

  /** The credential a commit stored for a secret is there for good, under that
      secret's identifier and verifier. */
  lemma DisclosedCredentialStays(cfg: Limits, h: seq<Entry>, j: nat, secret: string)
    requires Possible(cfg, h) && j < |h| && Effective(h[j]) && Discloses(h[j], secret)
    ensures var op, db := h[j].action.op, At(h, |h|);
            && op.credential in db.credentials && db.credentials[op.credential].verifier == op.verifier
            && db.credentials[op.credential].account == op.account && op.account in db.accounts
  {
    EffectiveIs(cfg, h, j);
    HistoryMovesForward(cfg, h, j + 1, |h|);
    var op := h[j].action.op;
    assert CredentialLater(At(h, j + 1).credentials[op.credential], At(h, |h|).credentials[op.credential]);
    assert op.account in At(h, j + 1).accounts;
  }

  /** A secret handed to a caller authenticates, at any later point of the run,
      exactly while its account is active and its credential is live. */
  lemma DisclosedSecretAuthenticates(cfg: Limits, es: seq<Step>, i: nat, now: Time)
    requires cfg.Valid() && LegalRun(cfg, Start, es) && i < |FinalState(cfg, Start, es).sent|
    requires Carried(FinalState(cfg, Start, es).sent[i].reply).Some?
    ensures var s := FinalState(cfg, Start, es);
            var secret := Carried(s.sent[i].reply).value;
            && CredentialId(secret).Some? && CredentialId(secret).value in s.db.credentials
            && var c := s.db.credentials[CredentialId(secret).value];
               && c.account in s.db.accounts
               && (Lookup(s.db, secret, now).Some? <==>
                     s.db.accounts[c.account].status == Active && c.revokedAt.None? && c.validFrom <= now < c.validUntil)
  {
    W.EveryRun(cfg, es);
    EveryReplyIsBacked(cfg, es, i);
    var s := FinalState(cfg, Start, es);
    var body := s.sent[i].reply.body;
    var j, flag :| (body.changed ==> flag) && ChangeReply(s, j, s.sent[i].key, body.account, flag, body.secret);
    DisclosedCredentialStays(cfg, s.h, j, body.secret.value);
    assert s.h[..|s.h|] == s.h;
  }
}
