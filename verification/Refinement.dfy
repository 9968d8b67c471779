/** The workers over transactions that run statement by statement: a worker opens a
    transaction, its statements interleave with everybody else's, and the worker may
    answer a failure or die while the outcome is still in the database's hands. Every
    such run leads to a state the protocol reaches with each transaction as one step,
    so what holds of the protocol's runs holds of the interleaved ones. */
module Refinement {
  import opened Tables
  import opened Transactions
  import opened Interleaving
  import opened Guarantees
  import opened Protocol
  import W = Workers
  import R = Receipts

  datatype Owner = Owner(worker: nat, secret: string)

  /** The database with its transactions in flight; the workers; who opened which
      transaction; the workers that left while theirs was in flight; and the answers
      that workers gave when they left. */
  datatype Fine = Fine(sys: Sys, state: State, owners: map<nat, Owner>, left: set<nat>, early: seq<Sent>)

  const FineStart := Fine(Sys(EmptyDb, map[], []), Start, map[], {}, [])

  datatype Motion =
    | Open(id: nat, w: nat, op: Op, secret: string)
    | Proceed(id: nat)     // the next statement, which may end the transaction
    | Land(id: nat)        // commit
    | Drop(id: nat)        // the connection is lost before commit
    | Die(w: nat)
    | Fail(w: nat)         // answer a runtime failure at once, whatever becomes of the transaction
    | Plain(e: Step)       // a step outside transactions

  predicate InFlight(f: Fine, w: nat) {
    exists id :: id in f.owners && f.owners[id].worker == w
  }

  /** The protocol step that runs this transaction at once. */
  function Whole(op: Op, o: Owner): Step {
    if op.Admit? then MarkIssuing(o.worker, op.now) else Mutate(o.worker, op, o.secret)
  }

  /** The worker may run this transaction. */
  predicate MayRun(cfg: Limits, s: State, op: Op, o: Owner) {
    && CanTake(cfg, s, Whole(op, o))
    && (op.Admit? ==> AdmitOp(s.workers[o.worker], op.now) == op)
  }

  predicate CanMove(cfg: Limits, f: Fine, m: Motion) {
    match m
    case Open(id, w, op, secret) =>
      && id !in f.owners && Enabled(f.sys, Begin(id, op)) && !InFlight(f, w) && MayRun(cfg, f.state, op, Owner(w, secret))
      && (forall i :: i in f.owners ==> f.owners[i].secret != secret)
    case Proceed(id) => id in f.owners && f.owners[id].worker in f.state.workers && Enabled(f.sys, Execute(id))
    case Land(id) => id in f.owners && f.owners[id].worker in f.state.workers && Enabled(f.sys, Commit(id))
    case Drop(id) => id in f.owners && f.owners[id].worker in f.state.workers && Enabled(f.sys, Abandon(id))
    case Die(w) => InFlight(f, w)
    case Fail(w) => InFlight(f, w) && w !in f.left && w in f.state.workers
    case Plain(e) =>
      && !e.Mutate? && !e.MarkIssuing? && CanTake(cfg, f.state, e) && (!e.Expire? ==> !InFlight(f, e.w))
      && (ActionOf(cfg, f.state, e).Some? ==> Enabled(f.sys, Instant(ActionOf(cfg, f.state, e).value)))
  }

  /** Where the worker goes once its transaction has ended. */
  function Landed(s: State, op: Op, o: Owner, outcome: Outcome): Stage
    requires o.worker in s.workers
  {
    if !op.Admit? then AfterMutation(op, outcome, o.secret)
    else if outcome.Admitted? && s.workers[o.worker].stage.Eligible? then Granted(s.workers[o.worker].stage.slot, |s.h|)
    else Recording("invalid_credentials")
  }

  /** The transaction has ended, with this outcome and these tables. */
  function Settle(f: Fine, id: nat, op: Op, outcome: Outcome, sys: Sys): Fine
    requires id in f.owners && f.owners[id].worker in f.state.workers
  {
    var o := f.owners[id];
    var stage := if o.worker in f.left then Done else Landed(f.state, op, o, outcome);
    var secrets := if op.Admit? || op.Revoke? then f.state.secrets else f.state.secrets + {o.secret};
    f.(sys := sys, state := Move(f.state, o.worker, stage).(db := sys.db, h := sys.history, secrets := secrets),
       owners := f.owners - {id}, left := f.left - {o.worker})
  }

  function Moved(cfg: Limits, f: Fine, m: Motion): Fine
    requires CanMove(cfg, f, m)
  {
    match m
    case Open(id, w, op, secret) => f.(sys := Next(f.sys, Begin(id, op)), owners := f.owners[id := Owner(w, secret)])
    case Proceed(id) =>
      var flight := f.sys.flights[id];
      var p := Statement(f.sys.db, flight.op, flight.pc, flight.progress.writes, flight.progress.fetched);
      if p.RolledBack? then Settle(f, id, flight.op, p.outcome, Next(f.sys, Execute(id)))
      else f.(sys := Next(f.sys, Execute(id)))
    case Land(id) => Settle(f, id, f.sys.flights[id].op, f.sys.flights[id].progress.outcome, Next(f.sys, Commit(id)))
    case Drop(id) =>
      var w := f.owners[id].worker;
      f.(sys := Next(f.sys, Abandon(id)), state := Move(f.state, w, if w in f.left then Done else Replying(RuntimeFailure)),
         owners := f.owners - {id}, left := f.left - {w})
    case Die(w) => f.(left := f.left + {w})
    case Fail(w) => f.(left := f.left + {w}, early := f.early + [Sent(w, f.state.workers[w].key, RuntimeFailure)])
    case Plain(e) =>
      var a := ActionOf(cfg, f.state, e);
      f.(state := Take(cfg, f.state, e), sys := if a.Some? then Next(f.sys, Instant(a.value)) else f.sys)
  }

  predicate LegalMoves(cfg: Limits, f: Fine, ms: seq<Motion>)
    decreases |ms|
  {
    ms == [] || (CanMove(cfg, f, ms[0]) && LegalMoves(cfg, Moved(cfg, f, ms[0]), ms[1..]))
  }

  function FinalFine(cfg: Limits, f: Fine, ms: seq<Motion>): Fine
    requires LegalMoves(cfg, f, ms)
    decreases |ms|
  {
    if ms == [] then f else FinalFine(cfg, Moved(cfg, f, ms[0]), ms[1..])
  }

  // The relation to the protocol

  /** Whoever has a transaction in flight could still run it at once, from here. */
  predicate Pending(cfg: Limits, f: Fine, id: nat)
    requires id in f.owners
  {
    id in f.sys.flights && MayRun(cfg, f.state, f.sys.flights[id].op, f.owners[id])
  }

  ghost predicate Related(cfg: Limits, f: Fine) {
    && Consistent(EmptyDb, f.sys)
    && f.state.db == f.sys.db && f.state.h == f.sys.history
    && f.owners.Keys == f.sys.flights.Keys
    && (forall id :: id in f.owners ==> Pending(cfg, f, id))
    && OwnersApart(f.owners)
    && (forall a :: a in f.early ==> a.reply == RuntimeFailure)
  }

  /** A transaction that commits does so as it would have, run at once. */
  lemma CommitsAsAtOnce(sys: Sys, id: nat)
    requires Consistent(EmptyDb, sys) && id in sys.flights && Enabled(sys, Commit(id))
    ensures Serial(sys.db, sys.flights[id].op) == (Next(sys, Commit(id)).db, sys.flights[id].progress.outcome)
  {
    var flight := sys.flights[id];
    assert UpToDate(sys, id);
    PrefixCovered(sys.db, flight.op, flight.pc);
    PrefixStuck(sys.db, flight.op, flight.pc, Length(flight.op));
  }

  /** One that fails in its next statement fails the same way, run at once. */
  lemma FailsAsAtOnce(sys: Sys, id: nat, p: Progress)
    requires Consistent(EmptyDb, sys) && id in sys.flights && Enabled(sys, Execute(id))
    requires var flight := sys.flights[id];
             p == Statement(sys.db, flight.op, flight.pc, flight.progress.writes, flight.progress.fetched) && p.RolledBack?
    ensures Serial(sys.db, sys.flights[id].op) == (sys.db, p.outcome)
  {
    var flight := sys.flights[id];
    assert UpToDate(sys, id);
    PrefixCovered(sys.db, flight.op, flight.pc);
    assert p == Prefix(sys.db, flight.op, flight.pc + 1);
    PrefixStuck(sys.db, flight.op, flight.pc + 1, Length(flight.op));
  }

  /** Running a transaction at once takes its worker where settling does. */
  lemma WholeLands(cfg: Limits, s: State, op: Op, o: Owner)
    requires MayRun(cfg, s, op, o)
    ensures var t, r := Take(cfg, s, Whole(op, o)), Perform(s.db, Transact(op));
            && r.1.Transacted?
            && t == Move(s, o.worker, Landed(s, op, o, r.1.outcome)).(
                      db := r.0, h := s.h + [Entry(Transact(op), r.1)],
                      secrets := if op.Admit? || op.Revoke? then s.secrets else s.secrets + {o.secret})
  {
  }

  /** Settling a transaction is running it at once, and dying with it is dying after. */
  lemma SettleIsWhole(cfg: Limits, f: Fine, id: nat, outcome: Outcome, sys: Sys)
    requires id in f.owners && Pending(cfg, f, id)
    requires f.state.db == f.sys.db && f.state.h == f.sys.history
    requires var op := f.sys.flights[id].op;
             && Serial(f.sys.db, op) == (sys.db, outcome)
             && sys.history == f.sys.history + [Entry(Transact(op), Transacted(outcome))]
    ensures var op, o := f.sys.flights[id].op, f.owners[id];
            var t := Take(cfg, f.state, Whole(op, o));
            && CanTake(cfg, t, Crash(o.worker))
            && Settle(f, id, op, outcome, sys).state == (if o.worker in f.left then Take(cfg, t, Crash(o.worker)) else t)
  {
    var op, o := f.sys.flights[id].op, f.owners[id];
    WholeLands(cfg, f.state, op, o);
    var t := Take(cfg, f.state, Whole(op, o));
    assert Move(t, o.worker, Done).workers == f.state.workers[o.worker := f.state.workers[o.worker].(stage := Done)];
  }

  /** The protocol steps that a move amounts to. */
  function StepsOf(cfg: Limits, f: Fine, m: Motion): seq<Step>
    requires CanMove(cfg, f, m)
  {
    match m
    case Open(_, _, _, _) => []
    case Proceed(id) =>
      var flight := f.sys.flights[id];
      if Statement(f.sys.db, flight.op, flight.pc, flight.progress.writes, flight.progress.fetched).RolledBack?
      then Ending(f, id) else []
    case Land(id) => Ending(f, id)
    case Drop(id) => var w := f.owners[id].worker; [if w in f.left then Crash(w) else GiveUp(w)]
    case Die(_) => []
    case Fail(_) => []
    case Plain(e) => [e]
  }

  function Ending(f: Fine, id: nat): seq<Step>
    requires id in f.owners && id in f.sys.flights
  {
    var o := f.owners[id];
    [Whole(f.sys.flights[id].op, o)] + if o.worker in f.left then [Crash(o.worker)] else []
  }

  lemma OneStep(cfg: Limits, s: State, e: Step)
    requires CanTake(cfg, s, e)
    ensures LegalRun(cfg, s, [e]) && FinalState(cfg, s, [e]) == Take(cfg, s, e)
  {
    assert [e][1..] == [];
  }

  lemma TwoSteps(cfg: Limits, s: State, e: Step, e': Step)
    requires CanTake(cfg, s, e) && CanTake(cfg, Take(cfg, s, e), e')
    ensures LegalRun(cfg, s, [e] + [e']) && FinalState(cfg, s, [e] + [e']) == Take(cfg, Take(cfg, s, e), e')
  {
    assert ([e] + [e'])[1..] == [e'];
    OneStep(cfg, Take(cfg, s, e), e');
  }

  lemma SettleIsEnding(cfg: Limits, f: Fine, id: nat, outcome: Outcome, sys: Sys)
    requires id in f.owners && Pending(cfg, f, id)
    requires f.state.db == f.sys.db && f.state.h == f.sys.history
    requires var op := f.sys.flights[id].op;
             && Serial(f.sys.db, op) == (sys.db, outcome)
             && sys.history == f.sys.history + [Entry(Transact(op), Transacted(outcome))]
    ensures var op := f.sys.flights[id].op;
            LegalRun(cfg, f.state, Ending(f, id))
            && FinalState(cfg, f.state, Ending(f, id)) == Settle(f, id, op, outcome, sys).state
  {
    var op, o := f.sys.flights[id].op, f.owners[id];
    SettleIsWhole(cfg, f, id, outcome, sys);
    if o.worker in f.left {
      TwoSteps(cfg, f.state, Whole(op, o), Crash(o.worker));
    } else {
      assert Ending(f, id) == [Whole(op, o)];
      OneStep(cfg, f.state, Whole(op, o));
    }
  }

  lemma ProceedIsSteps(cfg: Limits, f: Fine, id: nat)
    requires Related(cfg, f) && CanMove(cfg, f, Proceed(id))
    ensures LegalRun(cfg, f.state, StepsOf(cfg, f, Proceed(id)))
    ensures FinalState(cfg, f.state, StepsOf(cfg, f, Proceed(id))) == Moved(cfg, f, Proceed(id)).state
  {
    assert Pending(cfg, f, id);
    var flight := f.sys.flights[id];
    var p := Statement(f.sys.db, flight.op, flight.pc, flight.progress.writes, flight.progress.fetched);
    if p.RolledBack? {
      FailsAsAtOnce(f.sys, id, p);
      SettleIsEnding(cfg, f, id, p.outcome, Next(f.sys, Execute(id)));
    }
  }

  lemma LandIsSteps(cfg: Limits, f: Fine, id: nat)
    requires Related(cfg, f) && CanMove(cfg, f, Land(id))
    ensures LegalRun(cfg, f.state, Ending(f, id))
    ensures FinalState(cfg, f.state, Ending(f, id)) == Moved(cfg, f, Land(id)).state
  {
    assert Pending(cfg, f, id);
    CommitsAsAtOnce(f.sys, id);
    SettleIsEnding(cfg, f, id, f.sys.flights[id].progress.outcome, Next(f.sys, Commit(id)));
  }

  lemma MayStop(cfg: Limits, s: State, op: Op, o: Owner)
    requires MayRun(cfg, s, op, o)
    ensures CanTake(cfg, s, GiveUp(o.worker)) && CanTake(cfg, s, Crash(o.worker))
  {
  }

  lemma DropIsSteps(cfg: Limits, f: Fine, id: nat)
    requires id in f.owners && Pending(cfg, f, id) && CanMove(cfg, f, Drop(id))
    ensures LegalRun(cfg, f.state, StepsOf(cfg, f, Drop(id)))
    ensures FinalState(cfg, f.state, StepsOf(cfg, f, Drop(id))) == Moved(cfg, f, Drop(id)).state
  {
    var w := f.owners[id].worker;
    MayStop(cfg, f.state, f.sys.flights[id].op, f.owners[id]);
    if w in f.left { OneStep(cfg, f.state, Crash(w)); } else { OneStep(cfg, f.state, GiveUp(w)); }
  }

  /** Each move is a few steps of the protocol, none or more. */
  lemma MoveIsSteps(cfg: Limits, f: Fine, m: Motion)
    requires Related(cfg, f) && CanMove(cfg, f, m)
    ensures LegalRun(cfg, f.state, StepsOf(cfg, f, m))
    ensures FinalState(cfg, f.state, StepsOf(cfg, f, m)) == Moved(cfg, f, m).state
  {
    match m
    case Open(_, _, _, _) =>
    case Proceed(id) => ProceedIsSteps(cfg, f, id);
    case Land(id) => LandIsSteps(cfg, f, id);
    case Drop(id) =>
      assert Pending(cfg, f, id);
      DropIsSteps(cfg, f, id);
    case Die(_) =>
    case Fail(_) =>
    case Plain(e) => OneStep(cfg, f.state, e);
  }

  /** The event of the database that a move is, if any. */
  function EventOf(cfg: Limits, f: Fine, m: Motion): Option<Event>
    requires CanMove(cfg, f, m)
  {
    match m
    case Open(id, _, op, _) => Some(Begin(id, op))
    case Proceed(id) => Some(Execute(id))
    case Land(id) => Some(Commit(id))
    case Drop(id) => Some(Abandon(id))
    case Die(_) => None
    case Fail(_) => None
    case Plain(e) => if ActionOf(cfg, f.state, e).Some? then Some(Instant(ActionOf(cfg, f.state, e).value)) else None
  }

  lemma DatabaseMoves(cfg: Limits, f: Fine, m: Motion)
    requires Related(cfg, f) && CanMove(cfg, f, m)
    ensures var e, g := EventOf(cfg, f, m), Moved(cfg, f, m);
            && (if e.Some? then Enabled(f.sys, e.value) && g.sys == Next(f.sys, e.value) else g.sys == f.sys)
            && Consistent(EmptyDb, g.sys)
  {
    var e := EventOf(cfg, f, m);
    if e.Some? { EventKeeps(EmptyDb, f.sys, e.value); }
  }

  lemma PlainTablesAgree(cfg: Limits, f: Fine, e: Step)
    requires f.state.db == f.sys.db && f.state.h == f.sys.history && CanMove(cfg, f, Plain(e))
    ensures var g := Moved(cfg, f, Plain(e)); g.state.db == g.sys.db && g.state.h == g.sys.history
  {
    R.StepActs(cfg, f.state, e);
  }

  lemma TablesAgree(cfg: Limits, f: Fine, m: Motion)
    requires f.state.db == f.sys.db && f.state.h == f.sys.history && CanMove(cfg, f, m)
    ensures var g := Moved(cfg, f, m); g.state.db == g.sys.db && g.state.h == g.sys.history
  {
    if m.Plain? { PlainTablesAgree(cfg, f, m.e); }
  }

  /** A worker whose stage, key and intent are as they were, and whose secret is still
      new, may run what it could run before. */
  lemma StillMayRun(cfg: Limits, s: State, t: State, op: Op, o: Owner)
    requires MayRun(cfg, s, op, o) && o.worker in t.workers && t.workers[o.worker] == s.workers[o.worker]
    requires !op.Admit? && !op.Revoke? ==> o.secret !in t.secrets
    ensures MayRun(cfg, t, op, o)
  {
  }

  /** The worker has not moved, and its secret was not used up. */
  predicate Untouched(s: State, t: State, o: Owner) {
    && o.worker in s.workers && o.worker in t.workers && t.workers[o.worker] == s.workers[o.worker]
    && (o.secret in t.secrets ==> o.secret in s.secrets)
  }

  predicate Ends(m: Motion) { m.Proceed? || m.Land? || m.Drop? }

  lemma EndingLeavesOthers(cfg: Limits, f: Fine, m: Motion, other: Owner)
    requires CanMove(cfg, f, m) && Ends(m) && other.worker in f.state.workers
    requires f.owners[m.id].worker != other.worker && f.owners[m.id].secret != other.secret
    ensures Untouched(f.state, Moved(cfg, f, m).state, other)
  {
  }

  lemma ProceedKeepsWorkers(cfg: Limits, f: Fine, id: nat)
    requires CanMove(cfg, f, Proceed(id)) && id in Moved(cfg, f, Proceed(id)).owners
    ensures Moved(cfg, f, Proceed(id)).state == f.state
  {
  }

  lemma MayRunIsWorker(cfg: Limits, f: Fine, id: nat)
    requires Related(cfg, f) && id in f.owners
    ensures f.owners[id].worker in f.state.workers
  {
    assert Pending(cfg, f, id);
  }

  /** A transaction that is still in flight after a move is the same one, and its
      worker has not moved. */
  lemma MoveLeavesOthers(cfg: Limits, f: Fine, m: Motion, id: nat)
    requires Related(cfg, f) && CanMove(cfg, f, m) && id in f.owners && id in Moved(cfg, f, m).owners
    ensures Untouched(f.state, Moved(cfg, f, m).state, f.owners[id])
  {
    MayRunIsWorker(cfg, f, id);
    if m.Plain? {
      PlainLeavesOthers(cfg, f.state, m.e, f.owners[id].worker);
    } else if Ends(m) && m.id != id {
      EndingLeavesOthers(cfg, f, m, f.owners[id]);
    } else if m.Proceed? {
      ProceedKeepsWorkers(cfg, f, id);
    }
  }

  lemma FlightsStay(cfg: Limits, f: Fine, m: Motion, id: nat)
    requires CanMove(cfg, f, m) && id in f.owners && id in f.sys.flights && id in Moved(cfg, f, m).owners
    ensures var g := Moved(cfg, f, m);
            id in g.sys.flights && g.sys.flights[id].op == f.sys.flights[id].op && g.owners[id] == f.owners[id]
  {
  }

  lemma OthersStayPending(cfg: Limits, f: Fine, m: Motion, id: nat)
    requires Related(cfg, f) && CanMove(cfg, f, m) && id in f.owners && id in Moved(cfg, f, m).owners
    ensures Pending(cfg, Moved(cfg, f, m), id)
  {
    assert Pending(cfg, f, id);
    MoveLeavesOthers(cfg, f, m, id);
    FlightsStay(cfg, f, m, id);
    StillMayRun(cfg, f.state, Moved(cfg, f, m).state, f.sys.flights[id].op, f.owners[id]);
  }

  lemma PlainLeavesOthers(cfg: Limits, s: State, e: Step, w: nat)
    requires CanTake(cfg, s, e) && !e.Mutate? && w in s.workers && (!e.Expire? ==> e.w != w)
    ensures var t := Take(cfg, s, e); w in t.workers && t.workers[w] == s.workers[w] && t.secrets == s.secrets
  {
    StepLeaves(cfg, s, e);
    LeavesWorker(s, e, Take(cfg, s, e), w);
  }

  lemma LeavesWorker(s: State, e: Step, t: State, w: nat)
    requires Leaves(s, e, t) && w in s.workers && (!e.Expire? ==> e.w != w)
    ensures w in t.workers && t.workers[w] == s.workers[w]
  {
  }

  lemma OpenedIsPending(cfg: Limits, f: Fine, m: Motion, id: nat)
    requires Related(cfg, f) && CanMove(cfg, f, m) && id !in f.owners && id in Moved(cfg, f, m).owners
    ensures Pending(cfg, Moved(cfg, f, m), id)
  {
  }

  lemma EarlyAnswersStay(cfg: Limits, f: Fine, m: Motion)
    requires CanMove(cfg, f, m) && forall a :: a in f.early ==> a.reply == RuntimeFailure
    ensures forall a :: a in Moved(cfg, f, m).early ==> a.reply == RuntimeFailure
  {
  }

  lemma MoveKeepsRelated(cfg: Limits, f: Fine, m: Motion)
    requires Related(cfg, f) && CanMove(cfg, f, m)
    ensures Related(cfg, Moved(cfg, f, m))
  {
    DatabaseMoves(cfg, f, m);
    TablesAgree(cfg, f, m);
    OwnersMatch(cfg, f, m);
    EarlyAnswersStay(cfg, f, m);
    forall id | id in Moved(cfg, f, m).owners ensures Pending(cfg, Moved(cfg, f, m), id) {
      if id in f.owners { OthersStayPending(cfg, f, m, id); } else { OpenedIsPending(cfg, f, m, id); }
    }
  }

  predicate OwnersApart(owners: map<nat, Owner>) {
    forall i, j :: i in owners && j in owners && i != j ==>
      owners[i].worker != owners[j].worker && owners[i].secret != owners[j].secret
  }

  /** A transaction is opened with its owner, and ends with it. */
  lemma OwnersMatch(cfg: Limits, f: Fine, m: Motion)
    requires CanMove(cfg, f, m) && f.owners.Keys == f.sys.flights.Keys && OwnersApart(f.owners)
    ensures var g := Moved(cfg, f, m); g.owners.Keys == g.sys.flights.Keys && OwnersApart(g.owners)
  {
  }

  lemma {:induction false} Follows(cfg: Limits, s: State, es: seq<Step>, fs: seq<Step>)
    requires LegalRun(cfg, s, es) && LegalRun(cfg, FinalState(cfg, s, es), fs)
    ensures LegalRun(cfg, s, es + fs) && FinalState(cfg, s, es + fs) == FinalState(cfg, FinalState(cfg, s, es), fs)
    decreases |es|
  {
    if es == [] {
      assert es + fs == fs;
    } else {
      assert (es + fs)[0] == es[0] && (es + fs)[1..] == es[1..] + fs;
      Follows(cfg, Take(cfg, s, es[0]), es[1..], fs);
    }
  }

  lemma {:induction false} MovesAreSteps(cfg: Limits, f: Fine, ms: seq<Motion>) returns (es: seq<Step>)
    requires Related(cfg, f) && LegalMoves(cfg, f, ms)
    ensures LegalRun(cfg, f.state, es) && FinalState(cfg, f.state, es) == FinalFine(cfg, f, ms).state
    ensures Related(cfg, FinalFine(cfg, f, ms))
    decreases |ms|
  {
    if ms == [] {
      es := [];
    } else {
      MoveIsSteps(cfg, f, ms[0]);
      MoveKeepsRelated(cfg, f, ms[0]);
      var rest := MovesAreSteps(cfg, Moved(cfg, f, ms[0]), ms[1..]);
      es := StepsOf(cfg, f, ms[0]) + rest;
      Follows(cfg, f.state, StepsOf(cfg, f, ms[0]), rest);
    }
  }

  /** Every interleaved run of workers and statements ends in a state that the
      protocol reaches with whole transactions, over the same committed tables; and an
      answer given before its transaction has ended is a runtime failure. */
  lemma InterleavedRunsAreProtocolRuns(cfg: Limits, ms: seq<Motion>) returns (es: seq<Step>)
    requires cfg.Valid() && LegalMoves(cfg, FineStart, ms)
    ensures LegalRun(cfg, Start, es)
    ensures FinalState(cfg, Start, es) == FinalFine(cfg, FineStart, ms).state
    ensures FinalFine(cfg, FineStart, ms).state.db == FinalFine(cfg, FineStart, ms).sys.db
    ensures W.Inv(cfg, FinalFine(cfg, FineStart, ms).state)
    ensures forall a :: a in FinalFine(cfg, FineStart, ms).early ==> a.reply == RuntimeFailure
  {
    es := MovesAreSteps(cfg, FineStart, ms);
    W.EveryRun(cfg, es);
  }
}
