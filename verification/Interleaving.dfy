/** Transactions interleaved statement by statement, with row, key and advisory
    locks held to commit, beside the single-statement writes of the other workers.
    Main results: every run is serializable in the order of its decisive events,
    and transactions never wait for each other in a cycle. */
module Interleaving {
  import opened Tables
  import opened Transactions
  import opened RateLimiter

  // Locks

  datatype Lock =
    | OrganizationLock(organization: string)               // advisory
    | AccountLock(account: string)                         // row lock, or pending primary key
    | SubjectLock(subject: string)                         // pending unique key
    | NameLock(nameOrganization: string, nameKey: string)  // pending unique key
    | CredentialLock(credential: string)                   // pending primary key
    | CommandLock(command: CommandKey)                     // row lock

  function Class(l: Lock): nat {
    match l
    case OrganizationLock(_) => 0
    case AccountLock(_) => 1
    case SubjectLock(_) => 2
    case NameLock(_, _) => 3
    case CredentialLock(_) => 4
    case CommandLock(_) => 5
  }

  /** The lock statement `i` takes when it goes on to run. */
  function StatementLock(op: Op, i: nat): Option<Lock> {
    if i + 1 == Length(op) then Some(CommandLock(CommandOf(op)))
    else if op.Create? then
      match i
      case 0 => Some(OrganizationLock(op.organization))
      case 2 => Some(AccountLock(op.account))
      case 3 => Some(SubjectLock(op.subject))
      case 4 => Some(NameLock(op.organization, op.nameKey))
      case 5 => Some(CredentialLock(op.credential))
      case _ => None
    else if i == 0 then Some(AccountLock(op.account))
    else if op.Rotate? && i == 2 then Some(CredentialLock(op.credential))
    else None
  }

  /** What a transaction holds after `n` statements. */
  predicate Holds(op: Op, n: nat, l: Lock) {
    match l
    case OrganizationLock(o) => op.Create? && o == op.organization && n > 0
    case AccountLock(a) => a == op.account && n > if op.Create? then 2 else 0
    case SubjectLock(s) => op.Create? && s == op.subject && n > 3
    case NameLock(o, k) => op.Create? && o == op.organization && k == op.nameKey && n > 4
    case CredentialLock(c) =>
      || (op.Create? && c == op.credential && n > 5)
      || (op.Rotate? && c == op.credential && n > 2)
    case CommandLock(k) => k == CommandOf(op) && n >= Length(op)
  }

  /** The lock statement `i` must wait for, given the rows it sees. A committed key
      makes an insert fail at once, and an UPDATE or SELECT FOR UPDATE that matches
      no visible row locks nothing. */
  function Wants(view: Db, op: Op, i: nat): Option<Lock> {
    var l := StatementLock(op, i);
    if l.None? then None
    else
      match l.value
      case OrganizationLock(_) => l
      case AccountLock(a) =>
        if op.Create? then if a in view.accounts then None else l
        else if op.Admit? then if a in view.accounts then l else None
        else if a in view.accounts && view.accounts[a].organization == op.organization then l else None
      case SubjectLock(s) => if AccountsWithSubject(view, s) == {} then l else None
      case NameLock(o, k) => if AccountsNamed(view, o, k) == {} then l else None
      case CredentialLock(c) => if c in view.credentials then None else l
      case CommandLock(k) =>
        if k !in view.commands then None
        else if (if op.Admit? then view.commands[k].state.Reserved? else view.commands[k].state.Completable()) then l
        else None
  }

  // Single-statement writes

  datatype Action =
    | Transact(op: Op)
    | Reserve(key: CommandKey, intent: Intent)             // claim_command's INSERT
    | Fail(key: CommandKey, code: string, at: Time)        // complete_error
    | Finish(key: CommandKey, receipt: Sealed, at: Time)   // complete_success_owned
    | Prune(before: Time)                                  // prune
    | TakeSlot(caller: string, now: Time, window: int, max: int, lockout: int)   // reserve_rate_slot

  datatype Result = Transacted(outcome: Outcome) | Affected(yes: bool)

  function CompletedAt(s: CommandState): Option<Time> {
    match s
    case CompletedSuccess(_, at) => Some(at)
    case CompletedError(_, at) => Some(at)
    case _ => None
  }

  predicate Expired(c: Command, before: Time) {
    CompletedAt(c.state).Some? && CompletedAt(c.state).value < before
  }

  function SetState(db: Db, key: CommandKey, state: CommandState): (Db, Result) {
    if key in db.commands && db.commands[key].state.Completable() then
      (db.(commands := db.commands[key := db.commands[key].(state := state)]), Affected(true))
    else (db, Affected(false))
  }

  /** One action on tables nobody else is touching. */
  function Perform(db: Db, a: Action): (Db, Result) {
    match a
    case Transact(op) => var r := Serial(db, op); (r.0, Transacted(r.1))
    case Reserve(key, intent) =>
      if key in db.commands then (db, Affected(false))
      else (db.(commands := db.commands[key := Command(intent, Reserved)]), Affected(true))
    case Fail(key, code, at) => SetState(db, key, CompletedError(code, at))
    case Finish(key, receipt, at) => SetState(db, key, CompletedSuccess(receipt, at))
    case Prune(before) =>
      (db.(commands := map k | k in db.commands && !Expired(db.commands[k], before) :: db.commands[k]), Affected(true))
    case TakeSlot(caller, now, window, max, lockout) =>
      var r := Decide(if caller in db.limits then Some(db.limits[caller]) else None, now, window, max, lockout);
      (db.(limits := db.limits[caller := r.0]), Affected(r.1))
  }

  // The interleaved system

  datatype Flight = Flight(op: Op, pc: nat, progress: Progress)

  datatype Entry = Entry(action: Action, result: Result)

  /** Committed tables, transactions in flight, and a history of what each finished
      action returned. */
  datatype Sys = Sys(db: Db, flights: map<nat, Flight>, history: seq<Entry>)

  datatype Event =
    | Begin(id: nat, op: Op)
    | Execute(id: nat)     // run the next statement
    | Commit(id: nat)
    | Abandon(id: nat)     // the connection is lost: rollback, no answer
    | Instant(action: Action)

  function View(s: Sys, id: nat): Db
    requires id in s.flights && s.flights[id].progress.Running?
  {
    Apply(s.db, s.flights[id].progress.writes)
  }

  predicate HeldByOther(s: Sys, id: nat, l: Lock) {
    exists u :: u in s.flights && u != id && Holds(s.flights[u].op, s.flights[u].pc, l)
  }

  function Wanted(s: Sys, id: nat): Option<Lock>
    requires id in s.flights
  {
    var f := s.flights[id];
    if f.progress.Running? then Wants(View(s, id), f.op, f.pc) else None
  }

  predicate Free(s: Sys, k: CommandKey) {
    forall u :: u in s.flights ==> !Holds(s.flights[u].op, s.flights[u].pc, CommandLock(k))
  }

  predicate Enabled(s: Sys, e: Event) {
    match e
    case Begin(id, _) => id !in s.flights
    case Execute(id) =>
      && id in s.flights
      && s.flights[id].progress.Running?
      && (Wanted(s, id).Some? ==> !HeldByOther(s, id, Wanted(s, id).value))
    case Commit(id) => id in s.flights && s.flights[id].progress.Ready?
    case Abandon(id) => id in s.flights
    case Instant(a) =>
      match a
      case Transact(_) => false
      case Fail(k, _, _) => Free(s, k)
      case Finish(k, _, _) => Free(s, k)
      case _ => true
  }

  function Next(s: Sys, e: Event): Sys
    requires Enabled(s, e)
  {
    match e
    case Begin(id, op) => s.(flights := s.flights[id := Flight(op, 0, Running(NoWrites, Nothing))])
    case Execute(id) =>
      var f := s.flights[id];
      var p := Statement(s.db, f.op, f.pc, f.progress.writes, f.progress.fetched);
      if p.RolledBack? then
        Sys(s.db, s.flights - {id}, s.history + [Entry(Transact(f.op), Transacted(p.outcome))])
      else
        s.(flights := s.flights[id := Flight(f.op, f.pc + 1, p)])
    case Commit(id) =>
      var f := s.flights[id];
      Sys(Apply(s.db, f.progress.writes), s.flights - {id},
          s.history + [Entry(Transact(f.op), Transacted(f.progress.outcome))])
    case Abandon(id) => s.(flights := s.flights - {id})
    case Instant(a) =>
      var r := Perform(s.db, a);
      Sys(r.0, s.flights, s.history + [Entry(a, r.1)])
  }

  predicate Legal(s: Sys, es: seq<Event>)
    decreases |es|
  {
    es == [] || (Enabled(s, es[0]) && Legal(Next(s, es[0]), es[1..]))
  }

  function Final(s: Sys, es: seq<Event>): Sys
    requires Legal(s, es)
    decreases |es|
  {
    if es == [] then s else Final(Next(s, es[0]), es[1..])
  }

  // The serial reading of a history

  function Replay(db: Db, h: seq<Entry>): Db {
    if h == [] then db else Perform(Replay(db, h[..|h| - 1]), h[|h| - 1].action).0
  }

  /** Every answer in the history is the one the action gives when the actions run
      one at a time in that order. */
  predicate Faithful(db: Db, h: seq<Entry>) {
    h == [] ||
    (var past := h[..|h| - 1];
     Faithful(db, past) && Perform(Replay(db, past), h[|h| - 1].action).1 == h[|h| - 1].result)
  }

  // What a lock protects

  predicate Agrees(db: Db, db': Db, l: Lock) {
    match l
    case OrganizationLock(o) => AccountsOf(db, o) == AccountsOf(db', o)
    case AccountLock(a) =>
      && (a in db.accounts <==> a in db'.accounts)
      && (a in db.accounts ==> db.accounts[a] == db'.accounts[a])
      && CredentialsOf(db, a) == CredentialsOf(db', a)
    case SubjectLock(s) => AccountsWithSubject(db, s) == AccountsWithSubject(db', s)
    case NameLock(o, k) => AccountsNamed(db, o, k) == AccountsNamed(db', o, k)
    case CredentialLock(c) => c in db.credentials <==> c in db'.credentials
    case CommandLock(k) =>
      && (k in db.commands <==> k in db'.commands)
      && (k in db.commands ==> db.commands[k] == db'.commands[k])
  }

  lemma ViewsKeepAccounts(db: Db, db': Db, w: Writes, o: string)
    requires AccountsOf(db, o) == AccountsOf(db', o)
    ensures AccountsOf(Apply(db, w), o) == AccountsOf(Apply(db', w), o)
  {
    forall x ensures x in AccountsOf(Apply(db, w), o) <==> x in AccountsOf(Apply(db', w), o) {
      assert x in AccountsOf(db, o) <==> x in AccountsOf(db', o);
    }
  }

  lemma ViewsKeepSubject(db: Db, db': Db, w: Writes, s: string)
    requires AccountsWithSubject(db, s) == AccountsWithSubject(db', s)
    ensures AccountsWithSubject(Apply(db, w), s) == AccountsWithSubject(Apply(db', w), s)
  {
    forall x ensures x in AccountsWithSubject(Apply(db, w), s) <==> x in AccountsWithSubject(Apply(db', w), s) {
      assert x in AccountsWithSubject(db, s) <==> x in AccountsWithSubject(db', s);
    }
  }

  lemma ViewsKeepName(db: Db, db': Db, w: Writes, o: string, k: string)
    requires AccountsNamed(db, o, k) == AccountsNamed(db', o, k)
    ensures AccountsNamed(Apply(db, w), o, k) == AccountsNamed(Apply(db', w), o, k)
  {
    forall x ensures x in AccountsNamed(Apply(db, w), o, k) <==> x in AccountsNamed(Apply(db', w), o, k) {
      assert x in AccountsNamed(db, o, k) <==> x in AccountsNamed(db', o, k);
    }
  }

  lemma ViewsKeepCredentials(db: Db, db': Db, w: Writes, a: string)
    requires CredentialsOf(db, a) == CredentialsOf(db', a)
    ensures CredentialsOf(Apply(db, w), a) == CredentialsOf(Apply(db', w), a)
  {
    var m, m' := CredentialsOf(Apply(db, w), a), CredentialsOf(Apply(db', w), a);
    forall c ensures c in m <==> c in m' ensures c in m ==> m[c] == m'[c] {
      assert c in CredentialsOf(db, a) <==> c in CredentialsOf(db', a);
      assert c in CredentialsOf(db, a) ==> CredentialsOf(db, a)[c] == CredentialsOf(db', a)[c];
    }
  }

  lemma ViewAgrees(db: Db, db': Db, w: Writes, l: Lock)
    requires Agrees(db, db', l)
    ensures Agrees(Apply(db, w), Apply(db', w), l)
  {
    match l
    case OrganizationLock(o) => ViewsKeepAccounts(db, db', w, o);
    case AccountLock(a) => ViewsKeepCredentials(db, db', w, a);
    case SubjectLock(s) => ViewsKeepSubject(db, db', w, s);
    case NameLock(o, k) => ViewsKeepName(db, db', w, o, k);
    case CredentialLock(_) =>
    case CommandLock(_) =>
  }

  /** A transaction has written only inside what it holds. */
  predicate Covered(db: Db, op: Op, n: nat, p: Progress) {
    match p
    case RolledBack(_) => true
    case Running(w, _) => CoveredWrites(db, op, n, w) && CoveredChecks(db, op, n)
    case Ready(w, _) => CoveredWrites(db, op, n, w) && n == Length(op)
  }

  predicate CoveredWrites(db: Db, op: Op, n: nat, w: Writes) {
    && (w != NoWrites ==> Holds(op, n, AccountLock(op.account)))
    && (forall x :: x in w.accounts ==> CoveredAccount(db, op, n, x, w.accounts[x]))
    && (forall c :: c in w.credentials ==> CoveredCredential(db, op, n, c, w.credentials[c]))
    && (forall k :: k in w.commands ==>
          k == CommandOf(op) && n == Length(op) && k in db.commands && db.commands[k].state.Completable())
  }

  predicate CoveredAccount(db: Db, op: Op, n: nat, x: string, a: Account) {
    && x == op.account
    && if op.Create? then x !in db.accounts && a == NewAccount(op) && n > 4
       else x in db.accounts && a.organization == db.accounts[x].organization
            && a.subject == db.accounts[x].subject && a.nameKey == db.accounts[x].nameKey
  }

  predicate CoveredCredential(db: Db, op: Op, n: nat, c: string, row: Credential) {
    && row.account == op.account
    && (c in db.credentials ==> db.credentials[c].account == op.account)
    && (c !in db.credentials ==> Holds(op, n, CredentialLock(c)))
  }

  predicate CoveredChecks(db: Db, op: Op, n: nat) {
    && (op.Admit? && n > 1 ==> op.credential in db.credentials && db.credentials[op.credential].account == op.account)
    && (op.Create? && n > 2 ==> op.account !in db.accounts)
  }

  lemma CoverageGrows(db: Db, op: Op, i: nat, w: Writes)
    requires i < Length(op) && CoveredWrites(db, op, i, w)
    ensures CoveredWrites(db, op, i + 1, w)
  {
    forall x | x in w.accounts ensures CoveredAccount(db, op, i + 1, x, w.accounts[x]) {
      assert CoveredAccount(db, op, i, x, w.accounts[x]);
    }
    forall c | c in w.credentials ensures CoveredCredential(db, op, i + 1, c, w.credentials[c]) {
      assert CoveredCredential(db, op, i, c, w.credentials[c]);
    }
  }

  lemma AccountCovered(db: Db, op: Op, i: nat, w: Writes, a: Account)
    requires i + 1 < Length(op) && CoveredWrites(db, op, i, w)
    requires CoveredAccount(db, op, i + 1, op.account, a) && Holds(op, i + 1, AccountLock(op.account))
    ensures CoveredWrites(db, op, i + 1, w.(accounts := w.accounts[op.account := a]))
  {
    CoverageGrows(db, op, i, w);
    var w' := w.(accounts := w.accounts[op.account := a]);
    forall x | x in w'.accounts ensures CoveredAccount(db, op, i + 1, x, w'.accounts[x]) {
      if x != op.account { assert CoveredAccount(db, op, i + 1, x, w.accounts[x]); }
    }
  }

  lemma CredentialsCovered(db: Db, op: Op, i: nat, w: Writes, rows: map<string, Credential>)
    requires i + 1 < Length(op) && CoveredWrites(db, op, i, w)
    requires Holds(op, i + 1, AccountLock(op.account))
    requires forall c :: c in rows ==> CoveredCredential(db, op, i + 1, c, rows[c])
    ensures CoveredWrites(db, op, i + 1, w.(credentials := w.credentials + rows))
  {
    CoverageGrows(db, op, i, w);
    var w' := w.(credentials := w.credentials + rows);
    forall c | c in w'.credentials ensures CoveredCredential(db, op, i + 1, c, w'.credentials[c]) {
      if c !in rows { assert CoveredCredential(db, op, i + 1, c, w.credentials[c]); }
    }
  }

  lemma InsertCovered(db: Db, op: Op, i: nat, w: Writes, row: Credential)
    requires (op.Create? && i == 5) || (op.Rotate? && i == 2)
    requires CoveredWrites(db, op, i, w) && row.account == op.account && op.credential !in db.credentials
    ensures CoveredWrites(db, op, i + 1, w.(credentials := w.credentials[op.credential := row]))
  {
    CredentialsCovered(db, op, i, w, map[op.credential := row]);
    assert w.credentials + map[op.credential := row] == w.credentials[op.credential := row];
  }

  lemma CompletionCovered(db: Db, op: Op, i: nat, w: Writes, state: CommandState)
    requires i + 1 == Length(op) && CoveredWrites(db, op, i, w)
    requires CommandOf(op) in Apply(db, w).commands && Apply(db, w).commands[CommandOf(op)].state.Completable()
    ensures CoveredWrites(db, op, i + 1,
              w.(commands := w.commands[CommandOf(op) := Apply(db, w).commands[CommandOf(op)].(state := state)]))
  {
    CoverageGrows(db, op, i, w);
    assert w.commands == map[];
  }

  lemma CreateCovered(db: Db, op: Op, i: nat, w: Writes, f: Fetched)
    requires op.Create? && i < 8 && Covered(db, op, i, Running(w, f))
    requires !CreateStatement(db, op, i, w, f).RolledBack?
    ensures Covered(db, op, i + 1, CreateStatement(db, op, i, w, f))
  {
    if i == 4 {
      AccountCovered(db, op, i, w, NewAccount(op));
    } else if i == 5 {
      InsertCovered(db, op, i, w, Credential(op.account, op.verifier, op.validFrom, op.validUntil, op.startedAt, None, None, None));
    } else if i == 7 {
      CompletionCovered(db, op, i, w, CompletedSuccess(Receipt(op.aad, f.account, true), op.startedAt));
    } else {
      CoverageGrows(db, op, i, w);
    }
  }

  lemma RotateCovered(db: Db, op: Op, i: nat, w: Writes, f: Fetched)
    requires op.Rotate? && i < 6 && Covered(db, op, i, Running(w, f))
    requires !RotateStatement(db, op, i, w, f).RolledBack?
    ensures Covered(db, op, i + 1, RotateStatement(db, op, i, w, f))
  {
    var view := Apply(db, w);
    if i == 1 {
      forall c | c in BoundRows(view, op) ensures CoveredCredential(db, op, 2, c, BoundRows(view, op)[c]) {
        if c in w.credentials { assert CoveredCredential(db, op, 1, c, w.credentials[c]); }
      }
      CredentialsCovered(db, op, i, w, BoundRows(view, op));
    } else if i == 2 {
      InsertCovered(db, op, i, w, Credential(op.account, op.verifier, op.validFrom, op.validUntil, op.startedAt, None, None, None));
    } else if i == 3 && op.account in view.accounts {
      if op.account in w.accounts { assert CoveredAccount(db, op, 3, op.account, w.accounts[op.account]); }
      var a := view.accounts[op.account];
      AccountCovered(db, op, i, w, a.(revision := a.revision + 1, rotatedAt := Some(op.validFrom)));
    } else if i == 5 {
      CompletionCovered(db, op, i, w, CompletedSuccess(Receipt(op.aad, f.account, true), op.startedAt));
    } else {
      CoverageGrows(db, op, i, w);
    }
  }

  lemma RevokeCovered(db: Db, op: Op, i: nat, w: Writes, f: Fetched)
    requires op.Revoke? && i < 5 && Covered(db, op, i, Running(w, f))
    requires !RevokeStatement(db, op, i, w, f).RolledBack?
    ensures Covered(db, op, i + 1, RevokeStatement(db, op, i, w, f))
  {
    var view := Apply(db, w);
    CoverageGrows(db, op, i, w);
    if i == 1 && op.account in view.accounts {
      if op.account in w.accounts { assert CoveredAccount(db, op, 1, op.account, w.accounts[op.account]); }
      var a := view.accounts[op.account];
      AccountCovered(db, op, i, w, a.(status := Revoked, revision := a.revision + 1, revokedAt := Some(op.revokedAt)));
    } else if i == 2 {
      forall c | c in WithdrawnRows(view, op) ensures CoveredCredential(db, op, 3, c, WithdrawnRows(view, op)[c]) {
        if c in w.credentials { assert CoveredCredential(db, op, 2, c, w.credentials[c]); }
      }
      CredentialsCovered(db, op, i, w, WithdrawnRows(view, op));
    } else if i == 4 {
      CompletionCovered(db, op, i, w, CompletedSuccess(Receipt(op.aad, f.account, op.account in w.accounts), op.startedAt));
    }
  }

  lemma AdmitCovered(db: Db, op: Op, i: nat, w: Writes, f: Fetched)
    requires op.Admit? && i < 4 && Covered(db, op, i, Running(w, f))
    requires !AdmitStatement(db, op, i, w, f).RolledBack?
    ensures Covered(db, op, i + 1, AdmitStatement(db, op, i, w, f))
  {
    var view := Apply(db, w);
    CoverageGrows(db, op, i, w);
    if op.credential in w.credentials {
      assert CoveredCredential(db, op, i, op.credential, w.credentials[op.credential]);
    }
    if i == 2 && op.credential in view.credentials {
      var row := view.credentials[op.credential].(lastUsedAt := Some(op.now));
      CredentialsCovered(db, op, i, w, map[op.credential := row]);
      assert w.credentials + map[op.credential := row] == w.credentials[op.credential := row];
    } else if i == 3 {
      CompletionCovered(db, op, i, w, Issuing);
    }
  }

  lemma StatementCovered(db: Db, op: Op, i: nat, w: Writes, f: Fetched)
    requires i < Length(op) && Covered(db, op, i, Running(w, f))
    requires !Statement(db, op, i, w, f).RolledBack?
    ensures Covered(db, op, i + 1, Statement(db, op, i, w, f))
    ensures i + 1 == Length(op) ==> !Statement(db, op, i, w, f).Running?
    ensures i + 1 < Length(op) ==> !Statement(db, op, i, w, f).Ready?
  {
    match op
    case Create(_, _, _, _, _, _, _, _, _, _, _, _, _) => CreateCovered(db, op, i, w, f);
    case Rotate(_, _, _, _, _, _, _, _, _, _, _) => RotateCovered(db, op, i, w, f);
    case Revoke(_, _, _, _, _, _, _) => RevokeCovered(db, op, i, w, f);
    case Admit(_, _, _, _, _) => AdmitCovered(db, op, i, w, f);
  }

  lemma {:induction false} PrefixCovered(db: Db, op: Op, n: nat)
    requires n <= Length(op)
    ensures Covered(db, op, n, Prefix(db, op, n))
    ensures n == Length(op) ==> !Prefix(db, op, n).Running?
    ensures n < Length(op) ==> !Prefix(db, op, n).Ready?
  {
    if n > 0 {
      PrefixCovered(db, op, n - 1);
      var p := Prefix(db, op, n - 1);
      if p.Running? && !Statement(db, op, n - 1, p.writes, p.fetched).RolledBack? {
        StatementCovered(db, op, n - 1, p.writes, p.fetched);
      }
    }
  }

  /** Two tables agree on everything the transaction holds after `n` statements. */
  ghost predicate HeldAgree(db: Db, db': Db, op: Op, n: nat) {
    forall l :: Holds(op, n, l) ==> Agrees(db, db', l)
  }

  lemma HeldViewsAgree(db: Db, db': Db, op: Op, n: nat, w: Writes)
    requires HeldAgree(db, db', op, n)
    ensures HeldAgree(Apply(db, w), Apply(db', w), op, n)
  {
    forall l | Holds(op, n, l) ensures Agrees(Apply(db, w), Apply(db', w), l) {
      ViewAgrees(db, db', w, l);
    }
  }

  lemma HeldGrows(db: Db, db': Db, op: Op, n: nat)
    requires HeldAgree(db, db', op, n + 1)
    ensures HeldAgree(db, db', op, n)
  {
    assert forall l :: Holds(op, n, l) ==> Holds(op, n + 1, l);
  }

  /** A statement answers the same on any committed tables that agree on what its
      transaction holds once the statement has run. */
  lemma StatementStable(db: Db, db': Db, op: Op, i: nat, w: Writes, f: Fetched)
    requires i < Length(op) && Covered(db, op, i, Running(w, f))
    requires !Statement(db, op, i, w, f).RolledBack?
    requires HeldAgree(db, db', op, i + 1)
    ensures Statement(db', op, i, w, f) == Statement(db, op, i, w, f)
  {
    HeldViewsAgree(db, db', op, i + 1, w);
    match op
    case Create(_, _, _, _, _, _, _, _, _, _, _, _, _) => CreateStable(db, db', op, i, w, f);
    case Rotate(_, _, _, _, _, _, _, _, _, _, _) => RotateStable(db, db', op, i, w, f);
    case Revoke(_, _, _, _, _, _, _) => RevokeStable(db, db', op, i, w, f);
    case Admit(_, _, _, _, _) => AdmitStable(db, db', op, i, w, f);
  }

  lemma CreateStable(db: Db, db': Db, op: Op, i: nat, w: Writes, f: Fetched)
    requires op.Create? && i < 8 && HeldAgree(Apply(db, w), Apply(db', w), op, i + 1)
    requires !CreateStatement(db, op, i, w, f).RolledBack?
    ensures CreateStatement(db', op, i, w, f) == CreateStatement(db, op, i, w, f)
  {
    var v, v' := Apply(db, w), Apply(db', w);
    assert Holds(op, i + 1, OrganizationLock(op.organization));
    assert i >= 2 ==> Holds(op, i + 1, AccountLock(op.account));
    assert i >= 3 ==> Holds(op, i + 1, SubjectLock(op.subject));
    assert i >= 4 ==> Holds(op, i + 1, NameLock(op.organization, op.nameKey));
    assert i >= 5 ==> Holds(op, i + 1, CredentialLock(op.credential));
    assert i == 7 ==> Holds(op, i + 1, CommandLock(op.command));
  }

  lemma BoundRowsAgree(v: Db, v': Db, op: Op)
    requires op.Rotate? && CredentialsOf(v, op.account) == CredentialsOf(v', op.account)
    ensures BoundRows(v, op) == BoundRows(v', op)
  {
    var m, m' := BoundRows(v, op), BoundRows(v', op);
    forall c ensures c in m <==> c in m' ensures c in m ==> m[c] == m'[c] {
      assert c in CredentialsOf(v, op.account) <==> c in CredentialsOf(v', op.account);
      assert c in CredentialsOf(v, op.account) ==> CredentialsOf(v, op.account)[c] == CredentialsOf(v', op.account)[c];
    }
  }

  lemma RotateStable(db: Db, db': Db, op: Op, i: nat, w: Writes, f: Fetched)
    requires op.Rotate? && i < 6 && HeldAgree(Apply(db, w), Apply(db', w), op, i + 1)
    requires !RotateStatement(db, op, i, w, f).RolledBack?
    ensures RotateStatement(db', op, i, w, f) == RotateStatement(db, op, i, w, f)
  {
    assert Holds(op, i + 1, AccountLock(op.account));
    if i == 1 {
      BoundRowsAgree(Apply(db, w), Apply(db', w), op);
    } else if i == 2 {
      assert Holds(op, i + 1, CredentialLock(op.credential));
    } else if i == 5 {
      assert Holds(op, i + 1, CommandLock(op.command));
    }
  }

  lemma WithdrawnRowsAgree(v: Db, v': Db, op: Op)
    requires op.Revoke? && CredentialsOf(v, op.account) == CredentialsOf(v', op.account)
    ensures WithdrawnRows(v, op) == WithdrawnRows(v', op)
  {
    var m, m' := WithdrawnRows(v, op), WithdrawnRows(v', op);
    forall c ensures c in m <==> c in m' ensures c in m ==> m[c] == m'[c] {
      assert c in CredentialsOf(v, op.account) <==> c in CredentialsOf(v', op.account);
      assert c in CredentialsOf(v, op.account) ==> CredentialsOf(v, op.account)[c] == CredentialsOf(v', op.account)[c];
    }
  }

  lemma RevokeStable(db: Db, db': Db, op: Op, i: nat, w: Writes, f: Fetched)
    requires op.Revoke? && i < 5 && HeldAgree(Apply(db, w), Apply(db', w), op, i + 1)
    requires !RevokeStatement(db, op, i, w, f).RolledBack?
    ensures RevokeStatement(db', op, i, w, f) == RevokeStatement(db, op, i, w, f)
  {
    assert Holds(op, i + 1, AccountLock(op.account));
    if i == 2 {
      WithdrawnRowsAgree(Apply(db, w), Apply(db', w), op);
    } else if i == 4 {
      assert Holds(op, i + 1, CommandLock(op.command));
    }
  }

  lemma AdmitStable(db: Db, db': Db, op: Op, i: nat, w: Writes, f: Fetched)
    requires op.Admit? && i < 4 && HeldAgree(Apply(db, w), Apply(db', w), op, i + 1)
    requires Covered(db, op, i, Running(w, f))
    requires !AdmitStatement(db, op, i, w, f).RolledBack?
    ensures AdmitStatement(db', op, i, w, f) == AdmitStatement(db, op, i, w, f)
  {
    var v, v' := Apply(db, w), Apply(db', w);
    assert Holds(op, i + 1, AccountLock(op.account));
    assert i == 3 ==> Holds(op, i + 1, CommandLock(CommandOf(op)));
    var c := op.credential;
    assert c in CredentialsOf(v, op.account) <==> c in CredentialsOf(v', op.account);
    assert c in CredentialsOf(v, op.account) ==> CredentialsOf(v, op.account)[c] == CredentialsOf(v', op.account)[c];
  }

  lemma {:induction false} PrefixStable(db: Db, db': Db, op: Op, n: nat)
    requires n <= Length(op) && !Prefix(db, op, n).RolledBack?
    requires HeldAgree(db, db', op, n)
    ensures Prefix(db', op, n) == Prefix(db, op, n)
  {
    if n > 0 {
      var p := Prefix(db, op, n - 1);
      PrefixCovered(db, op, n - 1);
      HeldGrows(db, db', op, n - 1);
      PrefixStable(db, db', op, n - 1);
      StatementStable(db, db', op, n - 1, p.writes, p.fetched);
    }
  }

  // A commit or a single statement changes only what nobody else holds

  lemma CommitAgrees(db: Db, op: Op, w: Writes, l: Lock)
    requires CoveredWrites(db, op, Length(op), w) && !Holds(op, Length(op), l)
    ensures Agrees(db, Apply(db, w), l)
  {
    var db' := Apply(db, w);
    match l
    case OrganizationLock(o) =>
      forall x ensures x in AccountsOf(db, o) <==> x in AccountsOf(db', o) {
        if x in w.accounts { assert CoveredAccount(db, op, Length(op), x, w.accounts[x]); }
      }
    case AccountLock(a) =>
      forall x ensures x in CredentialsOf(db, a) <==> x in CredentialsOf(db', a)
               ensures x in CredentialsOf(db, a) ==> db.credentials[x] == db'.credentials[x] {
        if x in w.credentials { assert CoveredCredential(db, op, Length(op), x, w.credentials[x]); }
      }
      assert CredentialsOf(db, a) == CredentialsOf(db', a);
    case SubjectLock(s) =>
      forall x ensures x in AccountsWithSubject(db, s) <==> x in AccountsWithSubject(db', s) {
        if x in w.accounts { assert CoveredAccount(db, op, Length(op), x, w.accounts[x]); }
      }
    case NameLock(o, k) =>
      forall x ensures x in AccountsNamed(db, o, k) <==> x in AccountsNamed(db', o, k) {
        if x in w.accounts { assert CoveredAccount(db, op, Length(op), x, w.accounts[x]); }
      }
    case CredentialLock(_) =>
    case CommandLock(_) =>
  }

  lemma InstantAgrees(db: Db, a: Action, l: Lock)
    requires !a.Transact?
    requires (a.Fail? || a.Finish?) ==> l != CommandLock(a.key)
    requires l.CommandLock? ==> l.command in db.commands && db.commands[l.command].state.Completable()
    ensures Agrees(db, Perform(db, a).0, l)
  {
  }

  // The invariant of the interleaved system

  /** Every transaction in flight is where it would be had it started from the
      tables committed just now, no lock has two holders, and the committed tables
      are those of the serial history. */
  ghost predicate Consistent(db0: Db, s: Sys) {
    && s.db == Replay(db0, s.history)
    && Faithful(db0, s.history)
    && (forall t :: t in s.flights ==> UpToDate(s, t))
    && (forall t, u, l :: t in s.flights && u in s.flights && t != u && Holds(s.flights[t].op, s.flights[t].pc, l)
          ==> !Holds(s.flights[u].op, s.flights[u].pc, l))
  }

  predicate UpToDate(s: Sys, t: nat)
    requires t in s.flights
  {
    var f := s.flights[t];
    f.pc <= Length(f.op) && !f.progress.RolledBack? && f.progress == Prefix(s.db, f.op, f.pc)
  }

  lemma Append(db0: Db, h: seq<Entry>, e: Entry)
    requires Faithful(db0, h) && Perform(Replay(db0, h), e.action).1 == e.result
    ensures Faithful(db0, h + [e])
    ensures Replay(db0, h + [e]) == Perform(Replay(db0, h), e.action).0
  {
    assert (h + [e])[..|h + [e]| - 1] == h;
  }

  /** A statement that runs on has obtained its lock. */
  lemma WantedIsTaken(db: Db, op: Op, i: nat, w: Writes, f: Fetched)
    requires i < Length(op) && !Statement(db, op, i, w, f).RolledBack?
    ensures Wants(Apply(db, w), op, i) == StatementLock(op, i)
  {
  }

  lemma HoldsStep(op: Op, i: nat, l: Lock)
    requires i < Length(op) && Holds(op, i + 1, l)
    ensures Holds(op, i, l) || StatementLock(op, i) == Some(l)
  {
  }

  lemma StatementFails(db0: Db, s: Sys, id: nat)
    requires Consistent(db0, s) && Enabled(s, Execute(id))
    requires var f := s.flights[id];
             Statement(s.db, f.op, f.pc, f.progress.writes, f.progress.fetched).RolledBack?
    ensures Consistent(db0, Next(s, Execute(id)))
  {
    var f := s.flights[id];
    assert UpToDate(s, id);
    PrefixCovered(s.db, f.op, f.pc);
    var p := Statement(s.db, f.op, f.pc, f.progress.writes, f.progress.fetched);
    assert p == Prefix(s.db, f.op, f.pc + 1);
    PrefixStuck(s.db, f.op, f.pc + 1, Length(f.op));
    Append(db0, s.history, Entry(Transact(f.op), Transacted(p.outcome)));
    assert forall t :: t in s.flights ==> UpToDate(s, t);
  }

  lemma StatementRuns(db0: Db, s: Sys, id: nat)
    requires Consistent(db0, s) && Enabled(s, Execute(id))
    requires var f := s.flights[id];
             !Statement(s.db, f.op, f.pc, f.progress.writes, f.progress.fetched).RolledBack?
    ensures Consistent(db0, Next(s, Execute(id)))
  {
    var f := s.flights[id];
    assert UpToDate(s, id);
    PrefixCovered(s.db, f.op, f.pc);
    WantedIsTaken(s.db, f.op, f.pc, f.progress.writes, f.progress.fetched);
    var s' := Next(s, Execute(id));
    forall t | t in s'.flights ensures UpToDate(s', t) {
      assert UpToDate(s, t);
    }
    forall t, l | t in s.flights && t != id && Holds(f.op, f.pc + 1, l)
      ensures !Holds(s.flights[t].op, s.flights[t].pc, l)
    {
      HoldsStep(f.op, f.pc, l);
    }
  }

  lemma CommitKeeps(db0: Db, s: Sys, id: nat)
    requires Consistent(db0, s) && Enabled(s, Commit(id))
    ensures Consistent(db0, Next(s, Commit(id)))
  {
    var f := s.flights[id];
    assert UpToDate(s, id);
    PrefixCovered(s.db, f.op, f.pc);
    Append(db0, s.history, Entry(Transact(f.op), Transacted(f.progress.outcome)));
    var s' := Next(s, Commit(id));
    forall t | t in s'.flights ensures UpToDate(s', t) {
      assert UpToDate(s, t);
      var g := s.flights[t];
      forall l | Holds(g.op, g.pc, l) ensures Agrees(s.db, s'.db, l) {
        CommitAgrees(s.db, f.op, f.progress.writes, l);
      }
      PrefixStable(s.db, s'.db, g.op, g.pc);
    }
  }

  lemma InstantKeeps(db0: Db, s: Sys, a: Action)
    requires Consistent(db0, s) && Enabled(s, Instant(a))
    ensures Consistent(db0, Next(s, Instant(a)))
  {
    var r := Perform(s.db, a);
    Append(db0, s.history, Entry(a, r.1));
    var s' := Next(s, Instant(a));
    forall t | t in s'.flights ensures UpToDate(s', t) {
      assert UpToDate(s, t);
      var g := s.flights[t];
      PrefixCovered(s.db, g.op, g.pc);
      forall l | Holds(g.op, g.pc, l) ensures Agrees(s.db, s'.db, l) {
        if l.CommandLock? { HeldCommandIsOpen(s.db, g.op, g.pc); }
        InstantAgrees(s.db, a, l);
      }
      PrefixStable(s.db, s'.db, g.op, g.pc);
    }
  }

  lemma HeldCommandIsOpen(db: Db, op: Op, n: nat)
    requires n == Length(op) && !Prefix(db, op, n).RolledBack?
    ensures CommandOf(op) in db.commands && db.commands[CommandOf(op)].state.Completable()
  {
    PrefixCovered(db, op, n);
    PrefixCovered(db, op, n - 1);
    var p := Prefix(db, op, n - 1);
    assert Prefix(db, op, n) == Statement(db, op, n - 1, p.writes, p.fetched);
  }

  lemma EventKeeps(db0: Db, s: Sys, e: Event)
    requires Consistent(db0, s) && Enabled(s, e)
    ensures Consistent(db0, Next(s, e))
  {
    match e
    case Begin(id, op) =>
      var s' := Next(s, e);
      forall t | t in s'.flights ensures UpToDate(s', t) {
        if t != id { assert UpToDate(s, t); }
      }
    case Execute(id) =>
      var f := s.flights[id];
      if Statement(s.db, f.op, f.pc, f.progress.writes, f.progress.fetched).RolledBack? {
        StatementFails(db0, s, id);
      } else {
        StatementRuns(db0, s, id);
      }
    case Commit(id) => CommitKeeps(db0, s, id);
    case Abandon(id) =>
      assert forall t :: t in Next(s, e).flights ==> UpToDate(s, t);
    case Instant(a) => InstantKeeps(db0, s, a);
  }

  lemma {:induction false} RunKeeps(db0: Db, s: Sys, es: seq<Event>)
    requires Consistent(db0, s) && Legal(s, es)
    ensures Consistent(db0, Final(s, es))
    decreases |es|
  {
    if es != [] {
      EventKeeps(db0, s, es[0]);
      RunKeeps(db0, Next(s, es[0]), es[1..]);
    }
  }

  /** Serializability: whatever the interleaving, the committed tables are those of
      running the finished actions one at a time in history order, and every one of
      them returned what it returns in that serial run. */
  lemma Serializable(db0: Db, es: seq<Event>)
    requires Legal(Sys(db0, map[], []), es)
    ensures var s := Final(Sys(db0, map[], []), es);
            s.db == Replay(db0, s.history) && Faithful(db0, s.history)
  {
    RunKeeps(db0, Sys(db0, map[], []), es);
  }

  lemma CoveredApart(db: Db, o: Op, n: nat, v: Writes, p: Op, m: nat, w: Writes)
    requires CoveredWrites(db, o, n, v) && CoveredWrites(db, p, m, w)
    requires forall l :: Holds(o, n, l) ==> !Holds(p, m, l)
    ensures v.accounts.Keys !! w.accounts.Keys
    ensures v.credentials.Keys !! w.credentials.Keys
    ensures v.commands.Keys !! w.commands.Keys
  {
    if v != NoWrites && w != NoWrites {
      assert o.account != p.account by {
        assert Holds(o, n, AccountLock(o.account));
      }
      forall c | c in v.credentials && c in w.credentials ensures Holds(o, n, CredentialLock(c)) && Holds(p, m, CredentialLock(c)) {
        assert CoveredCredential(db, o, n, c, v.credentials[c]);
        assert CoveredCredential(db, p, m, c, w.credentials[c]);
      }
      forall k | k in v.commands ensures Holds(o, n, CommandLock(k)) {
      }
      forall x | x in v.accounts ensures x == o.account {
        assert CoveredAccount(db, o, n, x, v.accounts[x]);
      }
      forall x | x in w.accounts ensures x == p.account {
        assert CoveredAccount(db, p, m, x, w.accounts[x]);
      }
    }
  }

  /** No row is ever written by two transactions in flight. */
  lemma WritesAreDisjoint(db0: Db, es: seq<Event>, t: nat, u: nat)
    requires Legal(Sys(db0, map[], []), es)
    requires var s := Final(Sys(db0, map[], []), es); t != u && t in s.flights && u in s.flights
    ensures var s := Final(Sys(db0, map[], []), es);
            var v, w := s.flights[t].progress, s.flights[u].progress;
            !v.RolledBack? && !w.RolledBack?
            && v.writes.accounts.Keys !! w.writes.accounts.Keys
            && v.writes.credentials.Keys !! w.writes.credentials.Keys
            && v.writes.commands.Keys !! w.writes.commands.Keys
  {
    RunKeeps(db0, Sys(db0, map[], []), es);
    var s := Final(Sys(db0, map[], []), es);
    var f, g := s.flights[t], s.flights[u];
    assert UpToDate(s, t) && UpToDate(s, u);
    PrefixCovered(s.db, f.op, f.pc);
    PrefixCovered(s.db, g.op, g.pc);
    CoveredApart(s.db, f.op, f.pc, f.progress.writes, g.op, g.pc, g.progress.writes);
  }

  // Deadlock freedom

  predicate WaitsFor(s: Sys, t: nat, u: nat) {
    && t in s.flights && u in s.flights && t != u
    && Wanted(s, t).Some?
    && Holds(s.flights[u].op, s.flights[u].pc, Wanted(s, t).value)
  }

  /** How far along the global lock order a waiting transaction is. */
  function Rank(s: Sys, t: nat): nat
    requires t in s.flights
  {
    if Wanted(s, t).Some? then Class(Wanted(s, t).value) else 6
  }

  /** Locks are only ever taken in increasing class order, so a waiter is always
      strictly behind whoever it waits for. */
  lemma WaiterIsBehind(s: Sys, t: nat, u: nat)
    requires WaitsFor(s, t, u)
    ensures Rank(s, t) < Rank(s, u)
  {
    var g := s.flights[u];
    if Wanted(s, u).Some? {
      assert Wanted(s, u) == StatementLock(g.op, g.pc);
    }
  }

  lemma {:induction false} RankClimbs(s: Sys, chain: seq<nat>)
    requires |chain| > 0 && forall i :: 0 <= i < |chain| - 1 ==> WaitsFor(s, chain[i], chain[i + 1])
    requires chain[0] in s.flights
    ensures chain[|chain| - 1] in s.flights && Rank(s, chain[0]) + |chain| - 1 <= Rank(s, chain[|chain| - 1])
    decreases |chain|
  {
    if |chain| > 1 {
      assert WaitsFor(s, chain[0], chain[1]);
      WaiterIsBehind(s, chain[0], chain[1]);
      forall i | 0 <= i < |chain[1..]| - 1 ensures WaitsFor(s, chain[1..][i], chain[1..][i + 1]) {
        assert WaitsFor(s, chain[i + 1], chain[i + 2]);
      }
      RankClimbs(s, chain[1..]);
    }
  }

  /** The wait-for graph has no cycle, in any state at all. */
  lemma NoWaitCycle(s: Sys, chain: seq<nat>)
    requires |chain| > 1 && forall i :: 0 <= i < |chain| - 1 ==> WaitsFor(s, chain[i], chain[i + 1])
    ensures chain[0] != chain[|chain| - 1]
  {
    assert WaitsFor(s, chain[0], chain[1]);
    RankClimbs(s, chain);
  }

  lemma {:induction false} MostAdvanced(s: Sys, ids: set<nat>) returns (t: nat)
    requires ids != {} && forall u :: u in ids ==> u in s.flights
    ensures t in ids && forall u :: u in ids ==> Rank(s, u) <= Rank(s, t)
    decreases |ids|
  {
    var x :| x in ids;
    if ids == {x} {
      t := x;
    } else {
      assert |ids - {x}| < |ids|;
      var y := MostAdvanced(s, ids - {x});
      t := if Rank(s, x) >= Rank(s, y) then x else y;
    }
  }

  /** Some transaction in flight can always run its next statement or commit. */
  lemma AlwaysProgress(db0: Db, es: seq<Event>)
    requires Legal(Sys(db0, map[], []), es)
    requires Final(Sys(db0, map[], []), es).flights.Keys != {}
    ensures var s := Final(Sys(db0, map[], []), es);
            exists t :: t in s.flights && (Enabled(s, Execute(t)) || Enabled(s, Commit(t)))
  {
    RunKeeps(db0, Sys(db0, map[], []), es);
    var s := Final(Sys(db0, map[], []), es);
    var t := MostAdvanced(s, s.flights.Keys);
    assert UpToDate(s, t);
    if s.flights[t].progress.Running? {
      if Wanted(s, t).Some? && HeldByOther(s, t, Wanted(s, t).value) {
        var u :| u in s.flights && u != t && Holds(s.flights[u].op, s.flights[u].pc, Wanted(s, t).value);
        WaiterIsBehind(s, t, u);
      }
      assert Enabled(s, Execute(t));
    } else {
      assert Enabled(s, Commit(t));
    }
  }
}
