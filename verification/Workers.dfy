/** The invariant of the workers, and that every step keeps it. */
module Workers {
  import opened Tables
  import opened Tokens
  import opened Transactions
  import opened Atomic
  import opened Interleaving
  import opened Guarantees
  import opened Histories
  import opened Protocol

  // One worker

  /** The worker still has its command to complete. */
  predicate Busy(stage: Stage) {
    !stage.Losing? && !stage.Replying? && !stage.Done?
  }

  predicate IssuingStage(stage: Stage) {
    stage.Granted? || stage.Awaiting? || stage.Accepted?
  }

  predicate ClaimedEntry(s: State, i: nat, key: CommandKey, intent: Intent) {
    i < |s.h| && s.h[i] == Entry(Reserve(key, intent), Affected(true))
  }

  /** The command row is the one this worker inserted, and is still open. */
  predicate Owns(s: State, worker: Worker) {
    && worker.key in s.db.commands && worker.key in s.claims && s.claims[worker.key] == worker.claim
    && ClaimedEntry(s, worker.claim, worker.key, worker.intent)
    && s.db.commands[worker.key].intent == worker.intent
    && (match worker.stage
        case Recording(code) =>
          s.db.commands[worker.key].state in {Reserved, Issuing} && Decodes(worker.key.operation, code)
        case _ => s.db.commands[worker.key].state == if IssuingStage(worker.stage) then Issuing else Reserved)
  }

  predicate NoCall(s: State, claim: nat) {
    forall i :: 0 <= i < |s.calls| ==> s.calls[i].claim != claim
  }

  predicate HasSlot(s: State, claim: nat, slot: nat) {
    claim in s.slots && s.slots[claim] == slot
  }

  predicate AdmittedFor(s: State, key: CommandKey, admission: nat) {
    admission < |s.h| && IsAdmission(s.h[admission]) && CommandOf(s.h[admission].action.op) == key
  }

  /** An issuer answer within the bounds of call `i`. */
  predicate AnswersCall(s: State, i: nat, r: ExchangeResponse) {
    && CallKnown(s, i) && r.expiresAt <= s.calls[i].expiresAt
    && var row := Admission(s, s.calls[i].admission);
       r.account == row.account && r.organization == row.organization && r.subject == row.subject
  }

  predicate StageInv(s: State, worker: Worker) {
    match worker.stage
    case Claimed => NoCall(s, worker.claim) && worker.claim !in s.slots
    case Slotted(slot, _) => NoCall(s, worker.claim) && HasSlot(s, worker.claim, slot)
    case Checked(slot, _) => NoCall(s, worker.claim) && HasSlot(s, worker.claim, slot)
    case Eligible(slot, _) => NoCall(s, worker.claim) && HasSlot(s, worker.claim, slot)
    case Granted(slot, admission) =>
      NoCall(s, worker.claim) && HasSlot(s, worker.claim, slot) && AdmittedFor(s, worker.key, admission) && slot < admission
    case Awaiting(i) => i < |s.calls| && s.calls[i].claim == worker.claim
    case Accepted(i, r) => i < |s.calls| && s.calls[i].claim == worker.claim && AnswersCall(s, i, r)
    case _ => true
  }

  /** From the first exchange step on the request is an exchange; before, whatever
      was claimed. */
  predicate ExchangeStage(stage: Stage) {
    stage.Slotted? || stage.Checked? || stage.Eligible? || IssuingStage(stage)
  }

  predicate WorkerInv(s: State, w: nat)
    requires w in s.workers
  {
    var worker := s.workers[w];
    && worker.claim < |s.h| && worker.key.operation == OperationOf(worker.intent)
    && (Busy(worker.stage) ==> Owns(s, worker) && StageInv(s, worker))
    && (ExchangeStage(worker.stage) ==> worker.intent.ExchangeIntent?)
  }

  // One issuer call, one command row

  predicate CallInv(cfg: Limits, s: State, i: nat)
    requires i < |s.calls|
  {
    var c := s.calls[i];
    && c.claim < |s.h| && s.h[c.claim].action.Reserve? && s.h[c.claim].result == Affected(true)
    && HasSlot(s, c.claim, c.slot)
    && AdmittedFor(s, s.h[c.claim].action.key, c.admission)
    && c.claim < c.slot < c.admission
    && c.at < c.expiresAt <= c.at + cfg.tokenTtl
    && c.expiresAt <= Admission(s, c.admission).validUntil
  }

  /** A consumed rate slot: an admission of the limiter for the claim's caller. */
  predicate SlotInv(cfg: Limits, s: State, claim: nat)
    requires claim in s.slots
  {
    var slot := s.slots[claim];
    && claim < slot < |s.h| && s.h[claim].action.Reserve?
    && s.h[slot].action.TakeSlot? && s.h[slot].action.caller == s.h[claim].action.key.caller
    && s.h[slot].action == SlotAction(cfg, s.h[slot].action.caller, s.h[slot].action.now)
    && s.h[slot].result == Affected(true)
  }

  predicate Committed(e: Entry, key: CommandKey, row: AccountRow, changed: bool) {
    e.action.Transact? && CommandOf(e.action.op) == key && e.result == Transacted(Changed(row, changed))
  }

  /** What a stored receipt holds: the row its transaction committed, without the
      secret; or an accepted session. */
  ghost predicate BodyInv(s: State, key: CommandKey, claim: nat, body: Body) {
    match body
    case ChangeBody(row, changed, secret) =>
      && secret == None && key.operation != ExchangeSecret
      && exists j :: claim < j < |s.h| && Committed(s.h[j], key, row, changed)
    case ExchangeBody(r) =>
      && key.operation == ExchangeSecret
      && exists a :: 0 <= a < |s.accepted| && s.accepted[a].response == r
                     && s.accepted[a].call < |s.calls| && s.calls[s.accepted[a].call].claim == claim
  }

  ghost predicate CommandInv(s: State, key: CommandKey)
    requires key in s.db.commands
  {
    && key in s.claims && ClaimedEntry(s, s.claims[key], key, s.db.commands[key].intent)
    && key.operation == OperationOf(s.db.commands[key].intent)
    && match s.db.commands[key].state
       case CompletedSuccess(receipt, _) => receipt.aad == ReceiptAad(key) && BodyInv(s, key, s.claims[key], receipt.body)
       case CompletedError(code, _) => Decodes(key.operation, code)
       case _ => true
  }

  // All of them

  /** Every request ever claimed had passed the validators. */
  predicate RequestsFit(h: seq<Entry>) {
    forall i :: 0 <= i < |h| && h[i].action.Reserve? ==> Fits(h[i].action.key, h[i].action.intent)
  }

  ghost predicate HistoryInv(cfg: Limits, s: State) {
    Possible(cfg, s.h) && s.db == Replay(EmptyDb, s.h) && RequestsFit(s.h)
  }

  ghost predicate WorkersInv(s: State) {
    && (forall w :: w in s.workers ==> WorkerInv(s, w))
    && (forall v, w :: v in s.workers && w in s.workers && v != w ==> s.workers[v].claim != s.workers[w].claim)
  }

  ghost predicate CommandsInv(s: State) {
    forall k :: k in s.db.commands ==> CommandInv(s, k)
  }

  ghost predicate CallsInv(cfg: Limits, s: State) {
    && (forall i :: 0 <= i < |s.calls| ==> CallInv(cfg, s, i))
    && (forall i, j :: 0 <= i < j < |s.calls| ==> s.calls[i].claim != s.calls[j].claim)
    && (forall c :: c in s.slots ==> SlotInv(cfg, s, c))
    && (forall c, d :: c in s.slots && d in s.slots && c != d ==> s.slots[c] != s.slots[d])
    && (forall a :: 0 <= a < |s.accepted| ==> AnswersCall(s, s.accepted[a].call, s.accepted[a].response))
  }

  ghost predicate Inv(cfg: Limits, s: State) {
    HistoryInv(cfg, s) && WorkersInv(s) && CommandsInv(s) && CallsInv(cfg, s)
  }

  // Frames: what a step leaves alone

  /** Everything recorded so far stays as it is. */
  ghost predicate Extends(s: State, t: State) {
    && |s.h| <= |t.h| && (forall i :: 0 <= i < |s.h| ==> t.h[i] == s.h[i])
    && |s.calls| <= |t.calls| && (forall i :: 0 <= i < |s.calls| ==> t.calls[i] == s.calls[i])
    && |s.accepted| <= |t.accepted| && (forall i :: 0 <= i < |s.accepted| ==> t.accepted[i] == s.accepted[i])
    && (forall c :: c in s.slots ==> c in t.slots && t.slots[c] == s.slots[c])
  }

  predicate SameCommand(s: State, t: State, key: CommandKey) {
    && (key in s.db.commands <==> key in t.db.commands)
    && (key in s.db.commands ==> t.db.commands[key] == s.db.commands[key])
    && (key in s.claims ==> key in t.claims && t.claims[key] == s.claims[key])
  }

  /** Nothing new was slotted or called for this claim. */
  predicate Quiet(s: State, t: State, claim: nat) {
    && (claim in t.slots ==> claim in s.slots)
    && (forall i :: |s.calls| <= i < |t.calls| ==> t.calls[i].claim != claim)
  }

  lemma WorkerFrame(s: State, t: State, w: nat)
    requires w in s.workers && w in t.workers && t.workers[w] == s.workers[w] && WorkerInv(s, w) && Extends(s, t)
    requires Busy(s.workers[w].stage) ==> SameCommand(s, t, s.workers[w].key) && Quiet(s, t, s.workers[w].claim)
    ensures WorkerInv(t, w)
  {
  }

  lemma CommandFrame(s: State, t: State, key: CommandKey)
    requires key in s.db.commands && CommandInv(s, key) && Extends(s, t) && SameCommand(s, t, key)
    ensures CommandInv(t, key)
  {
    var state := s.db.commands[key].state;
    if state.CompletedSuccess? { BodyFrame(s, t, key, s.claims[key], state.receipt.body); }
  }

  lemma BodyFrame(s: State, t: State, key: CommandKey, claim: nat, body: Body)
    requires BodyInv(s, key, claim, body) && Extends(s, t)
    ensures BodyInv(t, key, claim, body)
  {
    match body
    case ChangeBody(row, changed, _) =>
      var j :| claim < j < |s.h| && Committed(s.h[j], key, row, changed);
      assert Committed(t.h[j], key, row, changed);
    case ExchangeBody(r) =>
      var a :| 0 <= a < |s.accepted| && s.accepted[a].response == r
               && s.accepted[a].call < |s.calls| && s.calls[s.accepted[a].call].claim == claim;
      assert t.accepted[a].response == r;
  }

  lemma CallFrame(cfg: Limits, s: State, t: State, i: nat)
    requires i < |s.calls| && CallInv(cfg, s, i) && Extends(s, t)
    ensures CallInv(cfg, t, i)
  {
  }

  lemma SlotFrame(cfg: Limits, s: State, t: State, claim: nat)
    requires claim in s.slots && SlotInv(cfg, s, claim) && Extends(s, t)
    ensures SlotInv(cfg, t, claim)
  {
  }

  /** Calls and slots as they were, and any new acceptance within its call. */
  lemma CallsFrame(cfg: Limits, s: State, t: State)
    requires CallsInv(cfg, s) && Extends(s, t) && t.calls == s.calls && t.slots == s.slots
    requires forall a :: |s.accepted| <= a < |t.accepted| ==> AnswersCall(s, t.accepted[a].call, t.accepted[a].response)
    ensures CallsInv(cfg, t)
  {
    forall i | 0 <= i < |t.calls| ensures CallInv(cfg, t, i) { CallFrame(cfg, s, t, i); }
    forall c | c in t.slots ensures SlotInv(cfg, t, c) { SlotFrame(cfg, s, t, c); }
    forall a | 0 <= a < |t.accepted| ensures AnswersCall(t, t.accepted[a].call, t.accepted[a].response) {
      if a < |s.accepted| { assert AnswersCall(s, s.accepted[a].call, s.accepted[a].response); }
      assert AnswersCall(s, t.accepted[a].call, t.accepted[a].response);
    }
  }

  /** Two busy workers never share a command. */
  lemma SoleOwner(s: State, v: nat, w: nat)
    requires WorkersInv(s) && v in s.workers && w in s.workers && v != w
    requires Busy(s.workers[v].stage) && Busy(s.workers[w].stage)
    ensures s.workers[v].key != s.workers[w].key
  {
    assert WorkerInv(s, v) && WorkerInv(s, w);
  }

  /** A step of worker `w` on its own command leaves the other workers alone. */
  ghost predicate OwnStep(s: State, t: State, w: nat) {
    && w in s.workers && t.workers.Keys == s.workers.Keys
    && t.workers[w].key == s.workers[w].key && t.workers[w].claim == s.workers[w].claim
    && (forall v :: v in s.workers && v != w ==> t.workers[v] == s.workers[v])
    && (forall k :: k != s.workers[w].key ==> SameCommand(s, t, k))
    && (forall c :: c != s.workers[w].claim ==> Quiet(s, t, c))
    && Extends(s, t)
  }

  lemma OthersKeep(s: State, t: State, w: nat)
    requires WorkersInv(s) && OwnStep(s, t, w) && Busy(s.workers[w].stage) && WorkerInv(t, w)
    ensures WorkersInv(t)
  {
    forall v | v in t.workers ensures WorkerInv(t, v) {
      if v != w {
        assert WorkerInv(s, v);
        if Busy(s.workers[v].stage) {
          SoleOwner(s, v, w);
          assert SameCommand(s, t, s.workers[v].key) && Quiet(s, t, s.workers[v].claim);
        }
        WorkerFrame(s, t, v);
      }
    }
  }

  lemma OtherCommandsKeep(s: State, t: State, w: nat)
    requires CommandsInv(s) && OwnStep(s, t, w)
    requires s.workers[w].key in t.db.commands ==> CommandInv(t, s.workers[w].key)
    ensures CommandsInv(t)
  {
    forall k | k in t.db.commands ensures CommandInv(t, k) {
      if k != s.workers[w].key {
        assert SameCommand(s, t, k);
        CommandFrame(s, t, k);
      }
    }
  }

  /** The stage suits the worker and its command as they are. */
  predicate MayMove(s: State, w: nat, stage: Stage)
    requires w in s.workers
  {
    var worker := s.workers[w].(stage := stage);
    && (Busy(stage) ==> Owns(s, worker) && StageInv(s, worker))
    && (ExchangeStage(stage) ==> worker.intent.ExchangeIntent?)
  }

  /** Changing only a worker's stage. */
  lemma MoveKeeps(cfg: Limits, s: State, w: nat, stage: Stage)
    requires Inv(cfg, s) && w in s.workers && MayMove(s, w, stage)
    ensures Inv(cfg, Move(s, w, stage))
  {
    var t := Move(s, w, stage);
    MovedWorkers(s, w, stage);
    forall k | k in t.db.commands ensures CommandInv(t, k) { CommandFrame(s, t, k); }
    CallsFrame(cfg, s, t);
  }

  lemma MovedWorkers(s: State, w: nat, stage: Stage)
    requires WorkersInv(s) && w in s.workers && MayMove(s, w, stage)
    ensures WorkersInv(Move(s, w, stage))
  {
    var t := Move(s, w, stage);
    assert WorkerInv(s, w);
    forall v | v in t.workers ensures WorkerInv(t, v) {
      if v != w {
        assert WorkerInv(s, v);
        WorkerFrame(s, t, v);
      }
    }
  }

  /** One more action in the history. */
  lemma ActKeepsHistory(cfg: Limits, s: State, a: Action, t: State)
    requires HistoryInv(cfg, s) && ConfiguredAction(cfg, a) && (a.Reserve? ==> Fits(a.key, a.intent))
    requires t.db == Act(s, a).db && t.h == Act(s, a).h
    ensures HistoryInv(cfg, t)
  {
    Append(EmptyDb, s.h, Entry(a, Perform(s.db, a).1));
  }

  // What actions do to command rows

  predicate CommandsAfter(db: Db, op: Op, t: Db, outcome: Outcome) {
    match outcome
    case Changed(row, changed) =>
      && !op.Admit? && op.command in db.commands && db.commands[op.command].state.Completable()
      && t.commands == db.commands[op.command :=
           db.commands[op.command].(state := CompletedSuccess(Receipt(op.aad, row, changed), op.startedAt))]
    case Admitted(_) =>
      && op.Admit? && CommandOf(op) in db.commands && db.commands[CommandOf(op)].state.Reserved?
      && t.commands == db.commands[CommandOf(op) := db.commands[CommandOf(op)].(state := Issuing)]
    case _ => t == db
  }

  lemma ConcludeCommands(db: Db, changed: Db, op: Op, flag: bool)
    requires !op.Admit? && op.account in changed.accounts && changed.commands == db.commands
    ensures CommandsAfter(db, op, Conclude(db, changed, op, flag).0, Conclude(db, changed, op, flag).1)
  {
  }

  lemma CreateCommands(db: Db, op: Op)
    requires op.Create?
    ensures CommandsAfter(db, op, CreateAlone(db, op).0, CreateAlone(db, op).1)
  {
    ConcludeCommands(db, CreatedTables(db, op), op, true);
  }

  lemma RotateCommands(db: Db, op: Op)
    requires op.Rotate?
    ensures CommandsAfter(db, op, RotateAlone(db, op).0, RotateAlone(db, op).1)
  {
    if op.account in db.accounts { ConcludeCommands(db, RotatedTables(db, op), op, true); }
  }

  lemma RevokeCommands(db: Db, op: Op)
    requires op.Revoke?
    ensures CommandsAfter(db, op, RevokeAlone(db, op).0, RevokeAlone(db, op).1)
  {
    if op.account in db.accounts {
      ConcludeCommands(db, db, op, false);
      ConcludeCommands(db, RevokedTables(db, op), op, true);
    }
  }

  lemma AdmitCommands(db: Db, op: Op)
    requires op.Admit?
    ensures CommandsAfter(db, op, AdmitAlone(db, op).0, AdmitAlone(db, op).1)
  {
  }

  lemma AloneCommands(db: Db, op: Op)
    ensures CommandsAfter(db, op, Alone(db, op).0, Alone(db, op).1)
  {
    match op
    case Create(_, _, _, _, _, _, _, _, _, _, _, _, _) => CreateCommands(db, op);
    case Rotate(_, _, _, _, _, _, _, _, _, _, _) => RotateCommands(db, op);
    case Revoke(_, _, _, _, _, _, _) => RevokeCommands(db, op);
    case Admit(_, _, _, _, _) => AdmitCommands(db, op);
  }

  lemma TransactCommands(db: Db, op: Op)
    ensures Perform(db, Transact(op)).1.Transacted?
    ensures CommandsAfter(db, op, Perform(db, Transact(op)).0, Perform(db, Transact(op)).1.outcome)
  {
    StatementsCompose(db, op);
    AloneCommands(db, op);
  }

  // The steps

  lemma ExpireKeeps(cfg: Limits, s: State, before: Time)
    requires Inv(cfg, s)
    ensures Inv(cfg, Act(s, Prune(before)))
  {
    var t := Act(s, Prune(before));
    ActKeepsHistory(cfg, s, Prune(before), t);
    CallsFrame(cfg, s, t);
    forall w | w in t.workers ensures WorkerInv(t, w) {
      assert WorkerInv(s, w);
      WorkerFrame(s, t, w);
    }
    forall k | k in t.db.commands ensures CommandInv(t, k) {
      CommandFrame(s, t, k);
    }
  }

  /** Indices recorded so far lie in the history. */
  ghost predicate Recorded(s: State) {
    && (forall c :: c in s.slots ==> c < |s.h|)
    && (forall i :: 0 <= i < |s.calls| ==> s.calls[i].claim < |s.h|)
  }

  lemma CallsAreRecorded(cfg: Limits, s: State)
    requires CallsInv(cfg, s)
    ensures Recorded(s)
  {
    forall c | c in s.slots ensures c < |s.h| { assert SlotInv(cfg, s, c); }
    forall i | 0 <= i < |s.calls| ensures s.calls[i].claim < |s.h| { assert CallInv(cfg, s, i); }
  }

  lemma ArriveExtends(s: State, w: nat, key: CommandKey, intent: Intent, k: CommandKey)
    requires w !in s.workers
    ensures var t := NextArrive(s, w, key, intent);
            && Extends(s, t) && t.calls == s.calls && t.slots == s.slots && t.accepted == s.accepted
            && (k in s.db.commands ==> SameCommand(s, t, k))
            && (k in t.db.commands && k !in s.db.commands ==>
                  k == key && t.db.commands[k] == Command(intent, Reserved)
                  && k in t.claims && t.claims[k] == |s.h| && ClaimedEntry(t, |s.h|, key, intent))
  {
  }

  lemma ArrivedWorker(s: State, w: nat, key: CommandKey, intent: Intent)
    requires w !in s.workers && key.operation == OperationOf(intent) && Recorded(s)
    ensures var t := NextArrive(s, w, key, intent);
            w in t.workers && t.workers[w].claim == |s.h| && WorkerInv(t, w)
  {
  }

  lemma ArrivedOther(s: State, w: nat, key: CommandKey, intent: Intent, v: nat)
    requires v in s.workers && WorkerInv(s, v) && w !in s.workers
    ensures var t := NextArrive(s, w, key, intent);
            v in t.workers && t.workers[v] == s.workers[v] && s.workers[v].claim < |s.h| && WorkerInv(t, v)
  {
    ArriveExtends(s, w, key, intent, s.workers[v].key);
    WorkerFrame(s, NextArrive(s, w, key, intent), v);
  }

  lemma ArriveKeepsWorkers(s: State, w: nat, key: CommandKey, intent: Intent)
    requires WorkersInv(s) && w !in s.workers && key.operation == OperationOf(intent) && Recorded(s)
    ensures WorkersInv(NextArrive(s, w, key, intent))
  {
    var t := NextArrive(s, w, key, intent);
    ArrivedWorker(s, w, key, intent);
    assert t.workers.Keys == s.workers.Keys + {w};
    forall v | v in s.workers ensures t.workers[v] == s.workers[v] && s.workers[v].claim < |s.h| && WorkerInv(t, v) {
      ArrivedOther(s, w, key, intent, v);
    }
  }

  lemma ArriveKeepsCommands(s: State, w: nat, key: CommandKey, intent: Intent)
    requires CommandsInv(s) && w !in s.workers && key.operation == OperationOf(intent)
    ensures CommandsInv(NextArrive(s, w, key, intent))
  {
    var t := NextArrive(s, w, key, intent);
    forall k | k in t.db.commands ensures CommandInv(t, k) {
      ArriveExtends(s, w, key, intent, k);
      if k in s.db.commands { CommandFrame(s, t, k); }
    }
  }

  lemma ArriveKeeps(cfg: Limits, s: State, w: nat, key: CommandKey, intent: Intent)
    requires Inv(cfg, s) && w !in s.workers && Fits(key, intent)
    ensures Inv(cfg, NextArrive(s, w, key, intent))
  {
    var t := NextArrive(s, w, key, intent);
    ActKeepsHistory(cfg, s, Reserve(key, intent), t);
    ArriveExtends(s, w, key, intent, key);
    CallsFrame(cfg, s, t);
    CallsAreRecorded(cfg, s);
    ArriveKeepsWorkers(s, w, key, intent);
    ArriveKeepsCommands(s, w, key, intent);
  }

  lemma DirectoryDeclinesKeeps(cfg: Limits, s: State, w: nat, definite: bool)
    requires Inv(cfg, s) && CanTake(cfg, s, DirectoryDeclines(w, definite))
    ensures Inv(cfg, Take(cfg, s, DirectoryDeclines(w, definite)))
  {
    assert WorkerInv(s, w);
    MoveKeeps(cfg, s, w, if definite then Recording("directory_rejected") else Replying(RuntimeFailure));
  }

  lemma CodesDecode(cfg: Limits, key: CommandKey, intent: Intent, op: Op, secret: string, outcome: Outcome)
    requires key.operation == OperationOf(intent) && OpFor(cfg, key, intent, op, secret) && CodeOf(op, outcome).Some?
    ensures Decodes(key.operation, CodeOf(op, outcome).value)
  {
  }

  /** `s` after an action that left the tables `db`, and a new stage for `w`. */
  function Acted(s: State, w: nat, db: Db, e: Entry, stage: Stage): State
    requires w in s.workers
  {
    Move(s.(db := db, h := s.h + [e]), w, stage)
  }

  lemma ActedIsOwn(s: State, w: nat, db: Db, e: Entry, stage: Stage, t: State)
    requires w in s.workers && t == Acted(s, w, db, e, stage).(secrets := t.secrets)
    requires forall k :: k != s.workers[w].key ==> (k in s.db.commands <==> k in db.commands)
    requires forall k :: k != s.workers[w].key && k in s.db.commands ==> db.commands[k] == s.db.commands[k]
    ensures OwnStep(s, t, w)
  {
  }

  /** After the step the worker is done with its command, or records an error. */
  lemma ActedWorker(s: State, w: nat, db: Db, e: Entry, stage: Stage, t: State)
    requires w in s.workers && t == Acted(s, w, db, e, stage).(secrets := t.secrets)
    requires WorkerInv(s, w) && Busy(s.workers[w].stage)
    requires !Busy(stage) || (stage.Recording? && Decodes(s.workers[w].key.operation, stage.code)
                              && s.workers[w].key in db.commands && db.commands[s.workers[w].key].intent == s.workers[w].intent
                              && db.commands[s.workers[w].key].state in {Reserved, Issuing})
    ensures WorkerInv(t, w)
  {
  }

  lemma MutatedCommand(s: State, w: nat, op: Op, db: Db, outcome: Outcome, t: State)
    requires w in s.workers && WorkerInv(s, w) && s.workers[w].stage.Claimed? && CommandInv(s, s.workers[w].key)
    requires !op.Admit? && CommandOf(op) == s.workers[w].key && op.aad == ReceiptAad(op.command)
    requires s.workers[w].key.operation != ExchangeSecret
    requires CommandsAfter(s.db, op, db, outcome) && t.db == db && t.claims == s.claims
    requires t.h == s.h + [Entry(Transact(op), Transacted(outcome))] && Extends(s, t)
    ensures op.command in t.db.commands && CommandInv(t, op.command)
  {
    if outcome.Changed? {
      assert Committed(t.h[|s.h|], op.command, outcome.row, outcome.changed);
    } else {
      CommandFrame(s, t, op.command);
    }
  }

  lemma CallsStay(cfg: Limits, s: State, w: nat, db: Db, e: Entry, stage: Stage, t: State)
    requires CallsInv(cfg, s) && w in s.workers && t == Acted(s, w, db, e, stage).(secrets := t.secrets)
    ensures CallsInv(cfg, t)
  {
    CallsFrame(cfg, s, t);
  }

  lemma MutatedWorker(cfg: Limits, s: State, w: nat, op: Op, secret: string, db: Db, outcome: Outcome, t: State)
    requires w in s.workers && WorkerInv(s, w) && s.workers[w].stage.Claimed?
    requires OpFor(cfg, s.workers[w].key, s.workers[w].intent, op, secret)
    requires CommandsAfter(s.db, op, db, outcome)
    requires t == Acted(s, w, db, Entry(Transact(op), Transacted(outcome)), AfterMutation(op, outcome, secret)).(secrets := t.secrets)
    ensures WorkerInv(t, w)
  {
    if CodeOf(op, outcome).Some? { CodesDecode(cfg, s.workers[w].key, s.workers[w].intent, op, secret, outcome); }
    ActedWorker(s, w, db, Entry(Transact(op), Transacted(outcome)), AfterMutation(op, outcome, secret), t);
  }

  lemma OpForFacts(cfg: Limits, key: CommandKey, intent: Intent, op: Op, secret: string)
    requires key.operation == OperationOf(intent) && OpFor(cfg, key, intent, op, secret)
    ensures !op.Admit? && CommandOf(op) == key && op.aad == ReceiptAad(key) && Configured(cfg, op)
    ensures key.operation != ExchangeSecret
  {
  }

  /** What a busy worker's step leaves to show of the whole. */
  ghost predicate OwnPart(cfg: Limits, s: State, t: State, w: nat) {
    && OwnStep(s, t, w) && Busy(s.workers[w].stage) && WorkerInv(t, w)
    && s.workers[w].key in t.db.commands && CommandInv(t, s.workers[w].key)
    && CallsInv(cfg, t)
  }

  ghost predicate OwnPartBefore(cfg: Limits, s: State, w: nat) {
    && w in s.workers && WorkerInv(s, w)
    && s.workers[w].key in s.db.commands && CommandInv(s, s.workers[w].key)
    && CallsInv(cfg, s)
  }

  lemma BusyWorkerOwns(cfg: Limits, s: State, w: nat)
    requires Inv(cfg, s) && w in s.workers && Busy(s.workers[w].stage)
    ensures OwnPartBefore(cfg, s, w)
  {
    assert WorkerInv(s, w);
  }

  lemma OwnPartKeeps(cfg: Limits, s: State, t: State, w: nat)
    requires Inv(cfg, s) && HistoryInv(cfg, t) && OwnPart(cfg, s, t, w)
    ensures Inv(cfg, t)
  {
    OthersKeep(s, t, w);
    OtherCommandsKeep(s, t, w);
  }

  lemma MutatedPart(cfg: Limits, s: State, w: nat, op: Op, secret: string, db: Db, outcome: Outcome, t: State)
    requires OwnPartBefore(cfg, s, w) && s.workers[w].stage.Claimed?
    requires OpFor(cfg, s.workers[w].key, s.workers[w].intent, op, secret) && CommandsAfter(s.db, op, db, outcome)
    requires t == Acted(s, w, db, Entry(Transact(op), Transacted(outcome)), AfterMutation(op, outcome, secret)).(secrets := t.secrets)
    ensures OwnPart(cfg, s, t, w)
  {
    var e, stage := Entry(Transact(op), Transacted(outcome)), AfterMutation(op, outcome, secret);
    OpForFacts(cfg, s.workers[w].key, s.workers[w].intent, op, secret);
    ActedIsOwn(s, w, db, e, stage, t);
    CallsStay(cfg, s, w, db, e, stage, t);
    MutatedWorker(cfg, s, w, op, secret, db, outcome, t);
    MutatedCommand(s, w, op, db, outcome, t);
  }

  lemma MutateIsOwn(cfg: Limits, s: State, w: nat, op: Op, secret: string)
    requires CanTake(cfg, s, Mutate(w, op, secret)) && WorkerInv(s, w)
    ensures OwnStep(s, NextMutate(s, w, op, secret), w) && NextMutate(s, w, op, secret).calls == s.calls
  {
    var r, t := Perform(s.db, Transact(op)), NextMutate(s, w, op, secret);
    OpForFacts(cfg, s.workers[w].key, s.workers[w].intent, op, secret);
    TransactCommands(s.db, op);
    ActedIsOwn(s, w, r.0, Entry(Transact(op), r.1), t.workers[w].stage, t);
  }

  lemma MutateKeeps(cfg: Limits, s: State, w: nat, op: Op, secret: string)
    requires Inv(cfg, s) && CanTake(cfg, s, Mutate(w, op, secret))
    ensures Inv(cfg, NextMutate(s, w, op, secret))
  {
    var t := NextMutate(s, w, op, secret);
    BusyWorkerOwns(cfg, s, w);
    OpForFacts(cfg, s.workers[w].key, s.workers[w].intent, op, secret);
    ActKeepsHistory(cfg, s, Transact(op), t);
    TransactCommands(s.db, op);
    var r := Perform(s.db, Transact(op));
    assert r.1 == Transacted(r.1.outcome);
    MutatedPart(cfg, s, w, op, secret, r.0, r.1.outcome, t);
    OwnPartKeeps(cfg, s, t, w);
  }

  lemma RecordedCommand(s: State, t: State, key: CommandKey, code: string, at: Time)
    requires key in s.db.commands && CommandInv(s, key) && Extends(s, t) && t.claims == s.claims
    requires Decodes(key.operation, code) && t.db == SetState(s.db, key, CompletedError(code, at)).0
    ensures key in t.db.commands && CommandInv(t, key)
  {
    if !s.db.commands[key].state.Completable() { CommandFrame(s, t, key); }
  }

  lemma RecordPart(cfg: Limits, s: State, w: nat, at: Time)
    requires OwnPartBefore(cfg, s, w) && s.workers[w].stage.Recording?
    ensures OwnPart(cfg, s, NextRecord(s, w, at), w)
  {
    var t, key := NextRecord(s, w, at), s.workers[w].key;
    var a := Fail(key, s.workers[w].stage.code, at);
    var r, stage := Perform(s.db, a), t.workers[w].stage;
    ActedIsOwn(s, w, r.0, Entry(a, r.1), stage, t);
    CallsStay(cfg, s, w, r.0, Entry(a, r.1), stage, t);
    ActedWorker(s, w, r.0, Entry(a, r.1), stage, t);
    RecordedCommand(s, t, key, s.workers[w].stage.code, at);
  }

  lemma RecordKeeps(cfg: Limits, s: State, w: nat, at: Time)
    requires Inv(cfg, s) && CanTake(cfg, s, Record(w, at))
    ensures Inv(cfg, NextRecord(s, w, at))
  {
    BusyWorkerOwns(cfg, s, w);
    ActKeepsHistory(cfg, s, Fail(s.workers[w].key, s.workers[w].stage.code, at), NextRecord(s, w, at));
    RecordPart(cfg, s, w, at);
    OwnPartKeeps(cfg, s, NextRecord(s, w, at), w);
  }

  /** `t` is `s` after the limiter's answer to `w`. */
  predicate SlotTaken(cfg: Limits, s: State, w: nat, now: Time, ok: bool, t: State)
    requires w in s.workers
  {
    && t.db.commands == s.db.commands && t.claims == s.claims && t.calls == s.calls && t.accepted == s.accepted
    && t.h == s.h + [Entry(SlotAction(cfg, s.workers[w].key.caller, now), Affected(ok))]
    && t.slots == (if ok then s.slots[s.workers[w].claim := |s.h|] else s.slots)
    && t.workers == s.workers[w := s.workers[w].(stage := if ok then Slotted(|s.h|, now) else Recording("rate_limited"))]
  }

  lemma SlotIsTaken(cfg: Limits, s: State, w: nat, now: Time) returns (ok: bool)
    requires w in s.workers
    ensures SlotTaken(cfg, s, w, now, ok, NextSlot(cfg, s, w, now))
  {
    ok := Perform(s.db, SlotAction(cfg, s.workers[w].key.caller, now)).1.yes;
  }

  lemma SlotKeepsSlots(cfg: Limits, s: State, w: nat, now: Time, ok: bool, t: State)
    requires CallsInv(cfg, s) && w in s.workers && WorkerInv(s, w) && s.workers[w].stage.Claimed?
    requires SlotTaken(cfg, s, w, now, ok, t) && Extends(s, t)
    ensures forall c :: c in t.slots ==> SlotInv(cfg, t, c)
    ensures forall c, d :: c in t.slots && d in t.slots && c != d ==> t.slots[c] != t.slots[d]
  {
    forall c | c in s.slots ensures s.slots[c] < |s.h| && SlotInv(cfg, t, c) {
      assert SlotInv(cfg, s, c);
      SlotFrame(cfg, s, t, c);
    }
  }

  /** Calls and acceptances as they were, while only slots are added. */
  lemma OnlySlotsAdded(cfg: Limits, s: State, t: State)
    requires CallsInv(cfg, s) && Extends(s, t) && t.calls == s.calls && t.accepted == s.accepted
    requires forall c :: c in t.slots ==> SlotInv(cfg, t, c)
    requires forall c, d :: c in t.slots && d in t.slots && c != d ==> t.slots[c] != t.slots[d]
    ensures CallsInv(cfg, t)
  {
    forall i | 0 <= i < |t.calls| ensures CallInv(cfg, t, i) { CallFrame(cfg, s, t, i); }
    forall a | 0 <= a < |t.accepted| ensures AnswersCall(t, t.accepted[a].call, t.accepted[a].response) {
      assert AnswersCall(s, s.accepted[a].call, s.accepted[a].response);
    }
  }

  lemma SlotIsOwn(cfg: Limits, s: State, w: nat, now: Time, ok: bool, t: State)
    requires w in s.workers && WorkerInv(s, w) && s.workers[w].stage.Claimed? && SlotTaken(cfg, s, w, now, ok, t)
    ensures OwnStep(s, t, w) && SameCommand(s, t, s.workers[w].key)
  {
  }

  lemma SlotWorker(cfg: Limits, s: State, w: nat, now: Time, ok: bool, t: State)
    requires w in s.workers && WorkerInv(s, w) && s.workers[w].stage.Claimed? && s.workers[w].intent.ExchangeIntent?
    requires SlotTaken(cfg, s, w, now, ok, t)
    ensures w in t.workers && WorkerInv(t, w)
  {
  }

  lemma SlotPart(cfg: Limits, s: State, w: nat, now: Time)
    requires OwnPartBefore(cfg, s, w) && s.workers[w].stage.Claimed? && s.workers[w].intent.ExchangeIntent?
    ensures OwnPart(cfg, s, NextSlot(cfg, s, w, now), w)
  {
    var t := NextSlot(cfg, s, w, now);
    var ok := SlotIsTaken(cfg, s, w, now);
    SlotIsOwn(cfg, s, w, now, ok, t);
    SlotWorker(cfg, s, w, now, ok, t);
    SlotKeepsSlots(cfg, s, w, now, ok, t);
    OnlySlotsAdded(cfg, s, t);
    CommandFrame(s, t, s.workers[w].key);
  }

  lemma SlotKeeps(cfg: Limits, s: State, w: nat, now: Time)
    requires Inv(cfg, s) && CanTake(cfg, s, TakeRateSlot(w, now))
    ensures Inv(cfg, NextSlot(cfg, s, w, now))
  {
    BusyWorkerOwns(cfg, s, w);
    ActKeepsHistory(cfg, s, SlotAction(cfg, s.workers[w].key.caller, now), NextSlot(cfg, s, w, now));
    SlotPart(cfg, s, w, now);
    OwnPartKeeps(cfg, s, NextSlot(cfg, s, w, now), w);
  }

  /** The stages a verified or rejected secret leads to, and those the directory's
      answer leads to. */
  lemma VerifiedMayMove(s: State, w: nat, found: Option<CredentialRow>)
    requires w in s.workers && WorkerInv(s, w) && s.workers[w].stage.Slotted?
    ensures MayMove(s, w, if found.Some? then Checked(s.workers[w].stage.slot, found.value) else Recording("invalid_credentials"))
  {
  }

  lemma VerifyKeeps(cfg: Limits, s: State, w: nat)
    requires Inv(cfg, s) && CanTake(cfg, s, Verify(w))
    ensures Inv(cfg, Take(cfg, s, Verify(w)))
  {
    assert WorkerInv(s, w);
    var found := Lookup(s.db, s.workers[w].intent.secret, s.workers[w].stage.at);
    VerifiedMayMove(s, w, found);
    MoveKeeps(cfg, s, w, if found.Some? then Checked(s.workers[w].stage.slot, found.value) else Recording("invalid_credentials"));
  }

  lemma DirectoryMayMove(cfg: Limits, s: State, w: nat, answer: DirectoryAnswer)
    requires CanTake(cfg, s, AskDirectory(w, answer)) && WorkerInv(s, w)
    ensures var t := Take(cfg, s, AskDirectory(w, answer));
            w in t.workers && t == Move(s, w, t.workers[w].stage) && MayMove(s, w, t.workers[w].stage)
  {
  }

  lemma AskDirectoryKeeps(cfg: Limits, s: State, w: nat, answer: DirectoryAnswer)
    requires Inv(cfg, s) && CanTake(cfg, s, AskDirectory(w, answer))
    ensures Inv(cfg, Take(cfg, s, AskDirectory(w, answer)))
  {
    assert WorkerInv(s, w);
    DirectoryMayMove(cfg, s, w, answer);
    MoveKeeps(cfg, s, w, Take(cfg, s, AskDirectory(w, answer)).workers[w].stage);
  }

  lemma MarkedWorker(cfg: Limits, s: State, w: nat, op: Op, db: Db, outcome: Outcome, t: State)
    requires w in s.workers && WorkerInv(s, w) && s.workers[w].stage.Eligible? && CallsInv(cfg, s)
    requires op.Admit? && CommandOf(op) == s.workers[w].key && CommandsAfter(s.db, op, db, outcome)
    requires t == Acted(s, w, db, Entry(Transact(op), Transacted(outcome)),
                        if outcome.Admitted? then Granted(s.workers[w].stage.slot, |s.h|) else Recording("invalid_credentials"))
    ensures WorkerInv(t, w)
  {
    assert SlotInv(cfg, s, s.workers[w].claim);
  }

  lemma MarkedCommand(s: State, op: Op, db: Db, outcome: Outcome, t: State)
    requires op.Admit? && CommandOf(op) in s.db.commands && CommandInv(s, CommandOf(op))
    requires CommandsAfter(s.db, op, db, outcome) && t.db == db && t.claims == s.claims && Extends(s, t)
    ensures CommandOf(op) in t.db.commands && CommandInv(t, CommandOf(op))
  {
    if !outcome.Admitted? { CommandFrame(s, t, CommandOf(op)); }
  }

  lemma MarkedPart(cfg: Limits, s: State, w: nat, op: Op, db: Db, outcome: Outcome, t: State)
    requires OwnPartBefore(cfg, s, w) && s.workers[w].stage.Eligible?
    requires op.Admit? && CommandOf(op) == s.workers[w].key && CommandsAfter(s.db, op, db, outcome)
    requires t == Acted(s, w, db, Entry(Transact(op), Transacted(outcome)),
                        if outcome.Admitted? then Granted(s.workers[w].stage.slot, |s.h|) else Recording("invalid_credentials"))
    ensures OwnPart(cfg, s, t, w)
  {
    var e, stage := Entry(Transact(op), Transacted(outcome)), t.workers[w].stage;
    ActedIsOwn(s, w, db, e, stage, t);
    CallsStay(cfg, s, w, db, e, stage, t);
    MarkedWorker(cfg, s, w, op, db, outcome, t);
    MarkedCommand(s, op, db, outcome, t);
  }

  lemma MarkKeeps(cfg: Limits, s: State, w: nat, now: Time)
    requires Inv(cfg, s) && CanTake(cfg, s, MarkIssuing(w, now))
    ensures Inv(cfg, NextMark(s, w, now))
  {
    var t, op := NextMark(s, w, now), AdmitOp(s.workers[w], now);
    BusyWorkerOwns(cfg, s, w);
    assert CommandOf(op) == s.workers[w].key;
    ActKeepsHistory(cfg, s, Transact(op), t);
    TransactCommands(s.db, op);
    var r := Perform(s.db, Transact(op));
    assert r.1 == Transacted(r.1.outcome);
    MarkedPart(cfg, s, w, op, r.0, r.1.outcome, t);
    OwnPartKeeps(cfg, s, t, w);
  }

  lemma NewCallIsPaidFor(cfg: Limits, s: State, w: nat, now: Time, t: State, i: nat)
    requires CallsInv(cfg, s) && CanTake(cfg, s, CallIssuer(w, now)) && WorkerInv(s, w) && cfg.Valid()
    requires t == NextCall(cfg, s, w, now) && Extends(s, t) && i < |t.calls|
    ensures CallInv(cfg, t, i)
  {
    if i < |s.calls| {
      CallFrame(cfg, s, t, i);
    } else {
      assert SlotInv(cfg, s, s.workers[w].claim);
    }
  }

  lemma OnlyCallsAdded(cfg: Limits, s: State, t: State)
    requires CallsInv(cfg, s) && Extends(s, t) && t.slots == s.slots && t.accepted == s.accepted
    requires forall i :: 0 <= i < |t.calls| ==> CallInv(cfg, t, i)
    requires forall i, j :: 0 <= i < j < |t.calls| ==> t.calls[i].claim != t.calls[j].claim
    ensures CallsInv(cfg, t)
  {
    forall c | c in t.slots ensures SlotInv(cfg, t, c) { SlotFrame(cfg, s, t, c); }
    forall a | 0 <= a < |t.accepted| ensures AnswersCall(t, t.accepted[a].call, t.accepted[a].response) {
      assert AnswersCall(s, s.accepted[a].call, s.accepted[a].response);
    }
  }

  lemma CallKeepsCalls(cfg: Limits, s: State, w: nat, now: Time, t: State)
    requires CallsInv(cfg, s) && CanTake(cfg, s, CallIssuer(w, now)) && WorkerInv(s, w) && cfg.Valid()
    requires t == NextCall(cfg, s, w, now) && Extends(s, t)
    ensures CallsInv(cfg, t)
  {
    forall i | 0 <= i < |t.calls| ensures CallInv(cfg, t, i) { NewCallIsPaidFor(cfg, s, w, now, t, i); }
    OnlyCallsAdded(cfg, s, t);
  }

  lemma CallIsOwn(cfg: Limits, s: State, w: nat, now: Time)
    requires CanTake(cfg, s, CallIssuer(w, now)) && WorkerInv(s, w)
    ensures var t := NextCall(cfg, s, w, now); OwnStep(s, t, w) && SameCommand(s, t, s.workers[w].key)
  {
  }

  lemma CallWorker(cfg: Limits, s: State, w: nat, now: Time)
    requires CanTake(cfg, s, CallIssuer(w, now)) && WorkerInv(s, w)
    ensures var t := NextCall(cfg, s, w, now); w in t.workers && WorkerInv(t, w)
  {
  }

  lemma CallPart(cfg: Limits, s: State, w: nat, now: Time)
    requires OwnPartBefore(cfg, s, w) && CanTake(cfg, s, CallIssuer(w, now)) && cfg.Valid()
    ensures OwnPart(cfg, s, NextCall(cfg, s, w, now), w)
  {
    var t := NextCall(cfg, s, w, now);
    CallIsOwn(cfg, s, w, now);
    CallWorker(cfg, s, w, now);
    CallKeepsCalls(cfg, s, w, now, t);
    CommandFrame(s, t, s.workers[w].key);
  }

  lemma CallKeeps(cfg: Limits, s: State, w: nat, now: Time)
    requires Inv(cfg, s) && CanTake(cfg, s, CallIssuer(w, now))
    ensures Inv(cfg, NextCall(cfg, s, w, now))
  {
    BusyWorkerOwns(cfg, s, w);
    CallPart(cfg, s, w, now);
    OwnPartKeeps(cfg, s, NextCall(cfg, s, w, now), w);
  }

  lemma HeardMayMove(cfg: Limits, s: State, w: nat, answer: IssuerAnswer, now: Time)
    requires CanTake(cfg, s, HearIssuer(w, answer, now)) && WorkerInv(s, w)
    ensures var t := NextHear(s, w, answer, now);
            w in t.workers && t == Move(s, w, t.workers[w].stage) && MayMove(s, w, t.workers[w].stage)
  {
  }

  lemma HearKeeps(cfg: Limits, s: State, w: nat, answer: IssuerAnswer, now: Time)
    requires Inv(cfg, s) && CanTake(cfg, s, HearIssuer(w, answer, now))
    ensures Inv(cfg, NextHear(s, w, answer, now))
  {
    assert WorkerInv(s, w);
    HeardMayMove(cfg, s, w, answer, now);
    MoveKeeps(cfg, s, w, NextHear(s, w, answer, now).workers[w].stage);
  }

  lemma CompleteKeepsCalls(cfg: Limits, s: State, w: nat, at: Time)
    requires CallsInv(cfg, s) && w in s.workers && WorkerInv(s, w) && s.workers[w].stage.Accepted?
    requires Extends(s, NextComplete(s, w, at))
    ensures CallsInv(cfg, NextComplete(s, w, at))
  {
    CallsFrame(cfg, s, NextComplete(s, w, at));
  }

  lemma CompleteOwn(s: State, w: nat, at: Time)
    requires w in s.workers && WorkerInv(s, w) && s.workers[w].stage.Accepted?
    ensures var t := NextComplete(s, w, at); OwnStep(s, t, w) && WorkerInv(t, w)
  {
  }

  /** A worker that heard an acceptable answer still has its command to complete. */
  lemma CompletedCommand(s: State, w: nat, at: Time)
    requires w in s.workers && WorkerInv(s, w) && s.workers[w].stage.Accepted?
    requires s.workers[w].key in s.db.commands && CommandInv(s, s.workers[w].key)
    ensures var t, key := NextComplete(s, w, at), s.workers[w].key;
            key in t.db.commands && CommandInv(t, key)
  {
    var t, worker := NextComplete(s, w, at), s.workers[w];
    assert t.accepted[|s.accepted|].response == worker.stage.response;
    assert BodyInv(t, worker.key, worker.claim, ExchangeBody(worker.stage.response));
  }

  lemma CompletePart(cfg: Limits, s: State, w: nat, at: Time)
    requires OwnPartBefore(cfg, s, w) && s.workers[w].stage.Accepted?
    ensures OwnPart(cfg, s, NextComplete(s, w, at), w)
  {
    CompleteOwn(s, w, at);
    CompleteKeepsCalls(cfg, s, w, at);
    CompletedCommand(s, w, at);
  }

  lemma CompleteKeeps(cfg: Limits, s: State, w: nat, at: Time)
    requires Inv(cfg, s) && CanTake(cfg, s, CompleteExchange(w, at))
    ensures Inv(cfg, NextComplete(s, w, at))
  {
    var key, response := s.workers[w].key, s.workers[w].stage.response;
    BusyWorkerOwns(cfg, s, w);
    ActKeepsHistory(cfg, s, Finish(key, Sealed(ReceiptAad(key), ExchangeBody(response)), at), NextComplete(s, w, at));
    CompletePart(cfg, s, w, at);
    OwnPartKeeps(cfg, s, NextComplete(s, w, at), w);
  }

  lemma SendKeeps(cfg: Limits, s: State, w: nat)
    requires Inv(cfg, s) && CanTake(cfg, s, Send(w))
    ensures Inv(cfg, Take(cfg, s, Send(w)))
  {
    MoveKeeps(cfg, s, w, Done);
    SentDoesNotMatter(cfg, Move(s, w, Done), Take(cfg, s, Send(w)));
  }

  lemma SentDoesNotMatter(cfg: Limits, s: State, t: State)
    requires Inv(cfg, s) && t == s.(sent := t.sent)
    ensures Inv(cfg, t)
  {
    CallsFrame(cfg, s, t);
    forall w | w in t.workers ensures WorkerInv(t, w) { WorkerFrame(s, t, w); }
    forall k | k in t.db.commands ensures CommandInv(t, k) { CommandFrame(s, t, k); }
  }

  lemma ActingKeeps(cfg: Limits, s: State, e: Step)
    requires Inv(cfg, s) && CanTake(cfg, s, e) && Acts(e)
    ensures Inv(cfg, Take(cfg, s, e))
  {
    match e
    case Expire(before) => ExpireKeeps(cfg, s, before);
    case Arrive(w, key, intent) => ArriveKeeps(cfg, s, w, key, intent);
    case Mutate(w, op, secret) => MutateKeeps(cfg, s, w, op, secret);
    case Record(w, at) => RecordKeeps(cfg, s, w, at);
    case TakeRateSlot(w, now) => SlotKeeps(cfg, s, w, now);
    case MarkIssuing(w, now) => MarkKeeps(cfg, s, w, now);
    case CallIssuer(w, now) => CallKeeps(cfg, s, w, now);
    case CompleteExchange(w, at) => CompleteKeeps(cfg, s, w, at);
  }

  /** A worker that answers or is gone has no command to complete. */
  lemma EndingKeeps(cfg: Limits, s: State, w: nat, stage: Stage)
    requires Inv(cfg, s) && w in s.workers && (stage.Replying? || stage.Done?)
    ensures Inv(cfg, Move(s, w, stage))
  {
    MoveKeeps(cfg, s, w, stage);
  }

  lemma MovingKeeps(cfg: Limits, s: State, e: Step)
    requires Inv(cfg, s) && CanTake(cfg, s, e) && !Acts(e)
    ensures Inv(cfg, Take(cfg, s, e))
  {
    match e
    case LoadClaim(w) => EndingKeeps(cfg, s, w, Replying(Answered(s.workers[w].key, s.workers[w].intent, s.db)));
    case DirectoryDeclines(w, definite) => DirectoryDeclinesKeeps(cfg, s, w, definite);
    case Verify(w) => VerifyKeeps(cfg, s, w);
    case AskDirectory(w, answer) => AskDirectoryKeeps(cfg, s, w, answer);
    case HearIssuer(w, answer, now) => HearKeeps(cfg, s, w, answer, now);
    case Send(w) => SendKeeps(cfg, s, w);
    case GiveUp(w) => EndingKeeps(cfg, s, w, Replying(RuntimeFailure));
    case Crash(w) => EndingKeeps(cfg, s, w, Done);
  }

  lemma StepKeeps(cfg: Limits, s: State, e: Step)
    requires Inv(cfg, s) && CanTake(cfg, s, e)
    ensures Inv(cfg, Take(cfg, s, e))
  {
    if Acts(e) { ActingKeeps(cfg, s, e); } else { MovingKeeps(cfg, s, e); }
  }

  lemma {:induction false} RunKeeps(cfg: Limits, s: State, es: seq<Step>)
    requires Inv(cfg, s) && LegalRun(cfg, s, es)
    ensures Inv(cfg, FinalState(cfg, s, es))
    decreases |es|
  {
    if es != [] {
      StepKeeps(cfg, s, es[0]);
      RunKeeps(cfg, Take(cfg, s, es[0]), es[1..]);
    }
  }

  lemma StartHolds(cfg: Limits)
    requires cfg.Valid()
    ensures Inv(cfg, Start)
  {
  }

  /** Every reachable state of the workers satisfies the invariant. */
  lemma EveryRun(cfg: Limits, es: seq<Step>)
    requires cfg.Valid() && LegalRun(cfg, Start, es)
    ensures Inv(cfg, FinalState(cfg, Start, es))
  {
    RunKeeps(cfg, Start, es);
  }
}
