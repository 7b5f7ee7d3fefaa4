/** Every interleaving of lifecycle workers: claims, applications, completions, failures and
    retries of any number of workers with arbitrary clocks, together with new commands, new
    candidate accounts and arbitrary changes to the tables that mention accounts. */
module AccountLifecycleRuns {
  import opened Wrappers
  import opened AccountLifecycle

  datatype Step =
    | ClaimStep(id: int, owner: string, duration: int, now: int)
    | ApplyStep(lease: Lease, identity: Key, now: int, later: int)
    | CompleteStep(lease: Lease, now: int)
    | FailStep(lease: Lease, now: int)
    | RetryStep(lease: Lease, applied: bool, delay: int, now: int)
    | Enqueue(id: int, command: Command)
    | AddCandidate(id: int, account: Account)
    | EditTables(tables: Tables)

  /** The database and the row each account started from. */
  datatype System = System(db: Db, born: map<int, Account>)

  predicate NewCommand(c: Command) {
    c.status == Pending && c.attempt == 0 && c.lease == None && !c.applied
  }

  predicate NewCandidate(a: Account) {
    a.lifecycle == Candidate && !a.enabled && !a.everEnabled && a.validated == None
  }

  function OrElse(next: Option<Db>, db: Db): Db {
    match next case Some(d) => d case None => db
  }

  function Next(s: System, step: Step): System {
    var db := s.db;
    match step
    case ClaimStep(id, owner, duration, now) =>
      if id in db.commands && Claimable(db.commands[id], now)
      then s.(db := ClaimRow(db, id, owner, duration, now))
      else s
    case ApplyStep(lease, identity, now, later) =>
      (match ApplyCommand(db, lease, identity, now, later) case Ok(d) => s.(db := d) case Err(_) => s)
    case CompleteStep(lease, now) => s.(db := OrElse(CompleteRow(db, lease, now), db))
    case FailStep(lease, now) => s.(db := OrElse(FailRow(db, lease, now), db))
    case RetryStep(lease, applied, delay, now) => s.(db := OrElse(RetryRow(db, lease, applied, delay, now), db))
    case Enqueue(id, command) =>
      if id !in db.commands && NewCommand(command) then s.(db := db.(commands := db.commands[id := command])) else s
    case AddCandidate(id, account) =>
      if id !in db.accounts && NewCandidate(account)
      then System(db.(accounts := db.accounts[id := account]), s.born[id := account])
      else s
    case EditTables(tables) => s.(db := db.(tables := tables))
  }

  function Run(s: System, steps: seq<Step>): System {
    if steps == [] then s else Next(Run(s, steps[..|steps| - 1]), steps[|steps| - 1])
  }

  // ---- What the audit log says -----------------------------------------------------

  function History(audits: seq<Audit>, account: int): seq<Audit> {
    if audits == [] then []
    else
      var rest, last := History(audits[..|audits| - 1], account), audits[|audits| - 1];
      if last.account == account then rest + [last] else rest
  }

  function AuditCount(audits: seq<Audit>, command: int): nat {
    if audits == [] then 0
    else AuditCount(audits[..|audits| - 1], command) + (if audits[|audits| - 1].command == command then 1 else 0)
  }

  /** Replays audit rows from a lifecycle and key; a row whose old values do not match what
      has been replayed so far makes the replay fail. */
  function Replay(lifecycle: Lifecycle, key: Key, audits: seq<Audit>): Option<(Lifecycle, Key)> {
    if audits == [] then Some((lifecycle, key))
    else
      var last := audits[|audits| - 1];
      match Replay(lifecycle, key, audits[..|audits| - 1])
      case None => None
      case Some(at) =>
        if at == (last.oldLifecycle, last.oldKey) then Some((last.newLifecycle, last.newKey)) else None
  }

  lemma HistoryGrows(audits: seq<Audit>, a: Audit, account: int)
    ensures History(audits + [a], account)
            == (if a.account == account then History(audits, account) + [a] else History(audits, account))
  {
    assert (audits + [a])[..|audits|] == audits;
  }

  lemma AuditCountGrows(audits: seq<Audit>, a: Audit, command: int)
    ensures AuditCount(audits + [a], command) == AuditCount(audits, command) + if a.command == command then 1 else 0
  {
    assert (audits + [a])[..|audits|] == audits;
  }

  lemma ReplayGrows(lifecycle: Lifecycle, key: Key, audits: seq<Audit>, a: Audit)
    requires Replay(lifecycle, key, audits) == Some((a.oldLifecycle, a.oldKey))
    ensures Replay(lifecycle, key, audits + [a]) == Some((a.newLifecycle, a.newKey))
  {
    assert (audits + [a])[..|audits|] == audits;
  }

  lemma {:induction false} CountSeesRow(audits: seq<Audit>, i: nat)
    requires i < |audits|
    ensures AuditCount(audits, audits[i].command) > 0
  {
    if i < |audits| - 1 {
      CountSeesRow(audits[..|audits| - 1], i);
    }
  }

  /** The lifecycle graph, as the design states it: what each kind of command may record. */
  predicate LegalAudit(a: Audit) {
    match a.kind
    case ValidateCandidate => a.oldLifecycle == Candidate == a.newLifecycle && a.oldKey == a.newKey
    case Pause => a.oldLifecycle == Current && a.newLifecycle == Paused && a.oldKey == a.newKey
    case Resume => a.oldLifecycle == Paused && a.newLifecycle == Current && a.oldKey == a.newKey
    case CorrectIdentity =>
      a.oldLifecycle == a.newLifecycle && a.oldLifecycle in {Candidate, Current, Paused} && a.oldKey != a.newKey
    case Cutover =>
      && a.oldKey == a.newKey
      && ((a.oldLifecycle == Candidate && a.newLifecycle == Current)
          || (a.oldLifecycle in {Current, Paused} && a.newLifecycle == Retired))
    case DeleteCandidate => a.oldLifecycle == Candidate && a.newLifecycle == Deleted && a.oldKey == a.newKey
  }

  /** The row was moved on proof of the provider identity. */
  predicate ProvesIdentity(a: Audit) {
    a.kind in {ValidateCandidate, Resume, CorrectIdentity, Cutover} && a.newLifecycle != Retired
  }

  function EverProven(history: seq<Audit>): bool {
    history != [] && (ProvesIdentity(history[|history| - 1]) || EverProven(history[..|history| - 1]))
  }

  function EverActivated(history: seq<Audit>): bool {
    history != []
    && ((history[|history| - 1].kind == Cutover && history[|history| - 1].newLifecycle == Current)
        || EverActivated(history[..|history| - 1]))
  }

  lemma EverGrows(history: seq<Audit>, a: Audit)
    ensures EverProven(history + [a]) == (ProvesIdentity(a) || EverProven(history))
    ensures EverActivated(history + [a]) == ((a.kind == Cutover && a.newLifecycle == Current) || EverActivated(history))
  {
    assert (history + [a])[..|history|] == history;
  }

  // ---- Invariant ---------------------------------------------------------------------

  /** What the audit history of an account says about its row. */
  ghost predicate RowOk(row: Account, born: Account, history: seq<Audit>) {
    && Replay(born.lifecycle, born.key, history) == Some((row.lifecycle, row.key))
    && row.version == born.version + |history|
    && (row.enabled <==> row.lifecycle == Current)
    && row.validated == (if EverProven(history) then Some(row.key) else None)
    && row.everEnabled == (born.everEnabled || EverActivated(history))
    && (row.lifecycle == Deleted && born.lifecycle != Deleted ==> !row.everEnabled)
    && (forall i :: 0 <= i < |history| ==> LegalAudit(history[i]))
  }

  function ExpectedAudits(c: Command): nat {
    if !c.applied then 0 else if c.kind == Cutover && c.related != 0 then 2 else 1
  }

  ghost predicate CommandOk(c: Command, audited: nat) {
    && (c.lease.Some? <==> c.status == Processing)
    && (c.status == Succeeded ==> c.applied)
    && (c.status == Failed ==> !c.applied)
    && audited == ExpectedAudits(c)
  }

  ghost predicate AccountsOk(accounts: map<int, Account>, born: map<int, Account>, audits: seq<Audit>) {
    && accounts.Keys == born.Keys
    && (forall a :: a in accounts ==> RowOk(accounts[a], born[a], History(audits, a)))
    && (forall a :: a !in accounts ==> History(audits, a) == [])
  }

  ghost predicate CommandsOk(commands: map<int, Command>, audits: seq<Audit>) {
    && (forall id :: id in commands ==> CommandOk(commands[id], AuditCount(audits, id)))
    && (forall id :: id !in commands ==> AuditCount(audits, id) == 0)
  }

  ghost predicate Inv(s: System) {
    AccountsOk(s.db.accounts, s.born, s.db.audits) && CommandsOk(s.db.commands, s.db.audits)
  }

  /** Freshly migrated: no commands yet, and rows the table's CHECK constraint admits. */
  ghost predicate Initial(s: System) {
    && s.db.commands == map[] && s.db.audits == [] && s.born == s.db.accounts
    && forall a :: a in s.born ==>
         (s.born[a].enabled <==> s.born[a].lifecycle == Current) && s.born[a].validated == None
  }

  lemma InitialInv(s: System)
    requires Initial(s)
    ensures Inv(s)
  {
  }

  // ---- An application, one account row at a time ---------------------------------------

  /** An account row and its audit row change together. */
  function Touch(db: Db, id: int, c: Command, account: int, after: Account): Db
    requires account in db.accounts
  {
    db.(accounts := db.accounts[account := after],
        audits := db.audits + [AuditOf(id, c, account, db.accounts[account], after)])
  }

  /** How a command may move one row. */
  ghost predicate LegalMove(id: int, c: Command, account: int, before: Account, after: Account) {
    var audit := AuditOf(id, c, account, before, after);
    && after.version == before.version + 1
    && ((before.enabled <==> before.lifecycle == Current) ==> (after.enabled <==> after.lifecycle == Current))
    && (if ProvesIdentity(audit) then after.validated == Some(after.key)
        else after.validated == before.validated && after.key == before.key)
    && after.everEnabled == (before.everEnabled || (c.kind == Cutover && after.lifecycle == Current))
    && (after.lifecycle == Deleted ==> !after.everEnabled)
    && LegalAudit(audit)
  }

  lemma TouchKeepsAccounts(db: Db, born: map<int, Account>, id: int, c: Command, account: int, after: Account)
    requires AccountsOk(db.accounts, born, db.audits)
    requires account in db.accounts && LegalMove(id, c, account, db.accounts[account], after)
    ensures var t := Touch(db, id, c, account, after); AccountsOk(t.accounts, born, t.audits)
  {
    hide History, Replay, EverProven, EverActivated, LegalAudit, ProvesIdentity;
    var t := Touch(db, id, c, account, after);
    var audit := t.audits[|db.audits|];
    forall a
      ensures History(t.audits, a) == if a == account then History(db.audits, a) + [audit] else History(db.audits, a)
    {
      HistoryGrows(db.audits, audit, a);
    }
    EverGrows(History(db.audits, account), audit);
    ReplayGrows(born[account].lifecycle, born[account].key, History(db.audits, account), audit);
    assert t.audits == db.audits + [audit];
  }

  ghost predicate RetiresRelated(c: Command) {
    c.kind == Cutover && c.related != 0
  }

  /** The state in front of the target row's own change. */
  ghost function BeforeTarget(db: Db, lease: Lease): Db
    requires lease.id in db.commands
  {
    var c := db.commands[lease.id];
    if RetiresRelated(c) && c.related in db.accounts
    then Touch(db, lease.id, c, c.related, Retire(db.accounts[c.related]))
    else db
  }

  lemma FreshAudit(audits: seq<Audit>, a: Audit)
    requires forall i :: 0 <= i < |audits| ==> audits[i].command != a.command || audits[i].account != a.account
    ensures AddAudit(audits, a) == audits + [a]
  {
  }

  /** What the checks in front of a transition leave standing. */
  ghost predicate Checked(c: Command, target: Account, identity: Key) {
    && SourceAllows(c.kind, target.lifecycle)
    && (c.kind in {ValidateCandidate, Resume, Cutover} ==> identity == target.key)
    && (c.kind == CorrectIdentity ==> identity == c.requestedKey != target.key)
    && (c.kind == DeleteCandidate ==> !target.everEnabled)
  }

  lemma TransitionIsLegal(id: int, c: Command, target: Account, identity: Key)
    requires Checked(c, target, identity)
    ensures LegalMove(id, c, c.target, target, Transition(c.kind, target, c.requestedKey, identity))
  {
  }

  lemma RetirementIsLegal(id: int, c: Command, related: Account)
    requires RetiresRelated(c) && related.lifecycle in {Current, Paused}
    ensures LegalMove(id, c, c.related, related, Retire(related))
  {
  }

  /** A successful application, read off its checks. */
  lemma ApplicationParts(db: Db, lease: Lease, identity: Key, now: int, later: int, next: Db)
    requires ApplyCommand(db, lease, identity, now, later) == Ok(next)
    requires lease.id in db.commands && !db.commands[lease.id].applied
    ensures var c := db.commands[lease.id];
            && c.status == Processing && c.target in db.accounts && Checked(c, db.accounts[c.target], identity)
            && (RetiresRelated(c) ==>
                  && c.related in db.accounts && c.related != c.target
                  && db.accounts[c.related].lifecycle in {Current, Paused})
            && var target := db.accounts[c.target];
            && var after := Transition(c.kind, target, c.requestedKey, identity);
            && var audits :=
                 if RetiresRelated(c) then
                   var related := db.accounts[c.related];
                   AddAudit(db.audits, AuditOf(lease.id, c, c.related, related, Retire(related)))
                 else db.audits;
            && next.audits == AddAudit(audits, AuditOf(lease.id, c, c.target, target, after))
            && next.accounts == (if RetiresRelated(c) then db.accounts[c.related := Retire(db.accounts[c.related])]
                                 else db.accounts)[c.target := after]
            && next.commands == db.commands[lease.id := c.(applied := true)]
  {
    hide AddAudit, Transition, Unreferenced, RekeyAll, AuditOf;
  }

  /** An application that takes effect is a legal move of the related row, when the command
      retires one, followed by a legal move of the target row; no audit row is ever
      swallowed by the conflict clause. */
  lemma ApplicationShape(db: Db, lease: Lease, identity: Key, now: int, later: int, next: Db)
    requires CommandsOk(db.commands, db.audits)
    requires ApplyCommand(db, lease, identity, now, later) == Ok(next)
    requires lease.id in db.commands && !db.commands[lease.id].applied
    ensures var c := db.commands[lease.id];
            && c.status == Processing
            && c.target in db.accounts
            && (RetiresRelated(c) ==>
                  && c.related in db.accounts && c.related != c.target
                  && var related := db.accounts[c.related];
                  LegalMove(lease.id, c, c.related, related, Retire(related)))
            && var mid := BeforeTarget(db, lease);
            && mid.accounts[c.target] == db.accounts[c.target]
            && var after := Transition(c.kind, db.accounts[c.target], c.requestedKey, identity);
            && LegalMove(lease.id, c, c.target, db.accounts[c.target], after)
            && next.accounts == Touch(mid, lease.id, c, c.target, after).accounts
            && next.audits == Touch(mid, lease.id, c, c.target, after).audits
            && next.commands == db.commands[lease.id := c.(applied := true)]
  {
    hide AuditCount, ApplyCommand, Transition, Checked, LegalMove, AuditOf, Retire, AddAudit;
    ApplicationParts(db, lease, identity, now, later, next);
    var c := db.commands[lease.id];
    var target := db.accounts[c.target];
    var after := Transition(c.kind, target, c.requestedKey, identity);
    TransitionIsLegal(lease.id, c, target, identity);
    AuditNames(lease.id, c, c.target, target, after);
    assert AuditCount(db.audits, lease.id) == 0;
    forall i | 0 <= i < |db.audits|
      ensures db.audits[i].command != lease.id
    {
      CountSeesRow(db.audits, i);
    }
    var mid := BeforeTarget(db, lease);
    if RetiresRelated(c) {
      var related := db.accounts[c.related];
      RetirementIsLegal(lease.id, c, related);
      AuditNames(lease.id, c, c.related, related, Retire(related));
      FreshAudit(db.audits, AuditOf(lease.id, c, c.related, related, Retire(related)));
    }
    FreshAudit(mid.audits, AuditOf(lease.id, c, c.target, target, after));
  }

  lemma AuditNames(id: int, c: Command, account: int, before: Account, after: Account)
    ensures AuditOf(id, c, account, before, after).command == id
    ensures AuditOf(id, c, account, before, after).account == account
  {
  }

  lemma TouchKeepsCounts(db: Db, id: int, c: Command, account: int, after: Account)
    requires account in db.accounts
    ensures var t := Touch(db, id, c, account, after);
            forall other :: AuditCount(t.audits, other) == AuditCount(db.audits, other) + if other == id then 1 else 0
  {
    hide AuditCount;
    var t := Touch(db, id, c, account, after);
    forall other
      ensures AuditCount(t.audits, other) == AuditCount(db.audits, other) + if other == id then 1 else 0
    {
      AuditCountGrows(db.audits, t.audits[|db.audits|], other);
    }
  }

  lemma ApplicationKeeps(s: System, lease: Lease, identity: Key, now: int, later: int, next: Db)
    requires Inv(s)
    requires ApplyCommand(s.db, lease, identity, now, later) == Ok(next)
    requires !s.db.commands[lease.id].applied
    ensures Inv(s.(db := next))
  {
    hide AuditCount, History, Replay, ApplyCommand, Transition;
    var db := s.db;
    Holding(db, lease, identity, now, later, next);
    ApplicationShape(db, lease, identity, now, later, next);
    var c := db.commands[lease.id];
    var mid := BeforeTarget(db, lease);
    if RetiresRelated(c) {
      TouchKeepsAccounts(db, s.born, lease.id, c, c.related, Retire(db.accounts[c.related]));
      TouchKeepsCounts(db, lease.id, c, c.related, Retire(db.accounts[c.related]));
    }
    var after := Transition(c.kind, db.accounts[c.target], c.requestedKey, identity);
    TouchKeepsAccounts(mid, s.born, lease.id, c, c.target, after);
    TouchKeepsCounts(mid, lease.id, c, c.target, after);
  }

  lemma Holding(db: Db, lease: Lease, identity: Key, now: int, later: int, next: Db)
    requires ApplyCommand(db, lease, identity, now, later) == Ok(next)
    ensures Holds(db, lease, now)
    ensures db.commands[lease.id].applied ==> next == db
  {
  }

  /** One step of anyone keeps the invariant. */
  lemma NextKeeps(s: System, step: Step)
    requires Inv(s)
    ensures Inv(Next(s, step))
  {
    hide AuditCount, History, Replay, ApplyCommand;
    match step
    case ApplyStep(lease, identity, now, later) =>
      var r := ApplyCommand(s.db, lease, identity, now, later);
      if r.Ok? {
        Holding(s.db, lease, identity, now, later, r.value);
        if !s.db.commands[lease.id].applied {
          ApplicationKeeps(s, lease, identity, now, later, r.value);
        }
      }
    case AddCandidate(id, account) =>
      EmptyReplay(account.lifecycle, account.key);
    case _ =>
  }

  lemma EmptyReplay(lifecycle: Lifecycle, key: Key)
    ensures Replay(lifecycle, key, []) == Some((lifecycle, key))
  {
  }

  lemma {:induction false} RunKeeps(s: System, steps: seq<Step>)
    requires Inv(s)
    ensures Inv(Run(s, steps))
  {
    hide Inv, Next;
    if steps != [] {
      RunKeeps(s, steps[..|steps| - 1]);
      NextKeeps(Run(s, steps[..|steps| - 1]), steps[|steps| - 1]);
    }
  }

  /** The audit log is a faithful history: from a fresh start, under any interleaving,
      replaying an account's audit rows from its first row gives its lifecycle and key,
      its version has risen once per audit row, and it is enabled exactly when CURRENT. It
      carries identity evidence exactly when some audit row proved one, and then for its
      present key; it counts as ever enabled exactly when it started so or was activated.
      An account deleted by a command never was, and every audit row follows the graph. */
  lemma AuditReplays(s: System, steps: seq<Step>, account: int)
    requires Initial(s)
    requires account in Run(s, steps).db.accounts
    ensures var end := Run(s, steps);
            var row := end.db.accounts[account];
            && account in end.born
            && var history := History(end.db.audits, account);
            && Replay(end.born[account].lifecycle, end.born[account].key, history) == Some((row.lifecycle, row.key))
            && row.version == end.born[account].version + |history|
            && (row.enabled <==> row.lifecycle == Current)
            && row.validated == (if EverProven(history) then Some(row.key) else None)
            && row.everEnabled == (end.born[account].everEnabled || EverActivated(history))
            && (row.lifecycle == Deleted && end.born[account].lifecycle != Deleted ==> !row.everEnabled)
            && forall i :: 0 <= i < |history| ==> LegalAudit(history[i])
  {
    hide History, Replay, Run, AuditCount;
    InitialInv(s);
    RunKeeps(s, steps);
    var end := Run(s, steps);
    assert RowOk(end.db.accounts[account], end.born[account], History(end.db.audits, account));
  }

  /** SUCCEEDED means applied and FAILED means never applied, a lease is held exactly while
      PROCESSING, and the log holds one row per account an applied command moved and none
      for a command that has not been applied. */
  lemma CommandsAgreeWithAudits(s: System, steps: seq<Step>, id: int)
    requires Initial(s)
    requires id in Run(s, steps).db.commands
    ensures var end := Run(s, steps);
            var c := end.db.commands[id];
            && (c.status == Succeeded ==> c.applied)
            && (c.status == Failed ==> !c.applied)
            && (c.lease.Some? <==> c.status == Processing)
            && AuditCount(end.db.audits, id)
               == (if !c.applied then 0 else if c.kind == Cutover && c.related != 0 then 2 else 1)
  {
    hide History, Replay, Run, AuditCount;
    InitialInv(s);
    RunKeeps(s, steps);
    var end := Run(s, steps);
    assert CommandOk(end.db.commands[id], AuditCount(end.db.audits, id));
  }

  // ---- At most once ------------------------------------------------------------------

  /** This step is an application of command `id` that changes something. */
  predicate TakesEffect(s: System, step: Step, id: int) {
    step.ApplyStep? && step.lease.id == id && Next(s, step).db != s.db
  }

  /** How often the command's transition took effect. */
  function Effects(s: System, steps: seq<Step>, id: int): nat {
    if steps == [] then 0
    else
      var front := steps[..|steps| - 1];
      Effects(s, front, id) + if TakesEffect(Run(s, front), steps[|steps| - 1], id) then 1 else 0
  }

  /** The command row: how any step can change the marker that its transition happened. */
  lemma AppliedMarker(s: System, step: Step, id: int)
    ensures id in s.db.commands ==> id in Next(s, step).db.commands
    ensures id in s.db.commands && s.db.commands[id].applied ==>
              Next(s, step).db.commands[id].applied && !TakesEffect(s, step, id)
    ensures id in Next(s, step).db.commands && !(id in s.db.commands && s.db.commands[id].applied) ==>
              (Next(s, step).db.commands[id].applied <==> TakesEffect(s, step, id))
    ensures TakesEffect(s, step, id) ==> id in s.db.commands
  {
    hide Prepare, Transition, AddAudit, SourceAllows;
  }

  /** Under every interleaving a command's transition takes effect at most once, and the
      applied marker says exactly whether it did. */
  lemma {:induction false} AppliedAtMostOnce(s: System, steps: seq<Step>, id: int)
    requires id !in s.db.commands
    ensures var end := Run(s, steps);
            && Effects(s, steps, id) <= 1
            && (Effects(s, steps, id) == 1 <==> id in end.db.commands && end.db.commands[id].applied)
  {
    hide Next, TakesEffect;
    if steps != [] {
      var front := steps[..|steps| - 1];
      AppliedAtMostOnce(s, front, id);
      AppliedMarker(Run(s, front), steps[|steps| - 1], id);
    }
  }

  // ---- Fencing -----------------------------------------------------------------------

  /** A worker acting under this claim. */
  predicate ActsUnder(step: Step, lease: Lease) {
    match step
    case ApplyStep(l, _, _, _) => l == lease
    case CompleteStep(l, _) => l == lease
    case FailStep(l, _) => l == lease
    case RetryStep(l, _, _, _) => l == lease
    case _ => false
  }

  lemma StepFacts(s: System, step: Step, id: int)
    requires id in s.db.commands
    ensures id in Next(s, step).db.commands
    ensures var before, after := s.db.commands[id], Next(s, step).db.commands[id];
            && before.attempt <= after.attempt
            && (before.status == Succeeded || before.status == Failed ==> after == before)
  {
    hide Prepare, Transition, AddAudit, SourceAllows;
  }

  lemma {:induction false} CommandsOnlyAdvance(s: System, steps: seq<Step>, id: int)
    requires id in s.db.commands
    ensures id in Run(s, steps).db.commands
    ensures var before, after := s.db.commands[id], Run(s, steps).db.commands[id];
            && before.attempt <= after.attempt
            && (before.status == Succeeded || before.status == Failed ==> after == before)
  {
    hide Next;
    if steps != [] {
      var front := steps[..|steps| - 1];
      CommandsOnlyAdvance(s, front, id);
      StepFacts(Run(s, front), steps[|steps| - 1], id);
    }
  }

  /** Once a command has been claimed again, or has ended, everything its earlier worker
      still does leaves the database exactly as it is, now and after any further run. */
  lemma OutdatedClaimIsInert(s: System, steps: seq<Step>, lease: Lease, step: Step)
    requires lease.id in s.db.commands
    requires lease.attempt < s.db.commands[lease.id].attempt
             || s.db.commands[lease.id].status == Succeeded || s.db.commands[lease.id].status == Failed
    requires ActsUnder(step, lease)
    ensures Next(Run(s, steps), step) == Run(s, steps)
  {
    hide Run;
    CommandsOnlyAdvance(s, steps, lease.id);
    NotHeld(Run(s, steps), lease, step);
  }

  /** A step of somebody else, while the lease of a command lives: it does not act under the
      lease, and if it claims the command it does so before the lease runs out. */
  ghost predicate Bystander(step: Step, holder: Lease, expires: int) {
    !ActsUnder(step, holder) && (step.ClaimStep? && step.id == holder.id ==> step.now < expires)
  }

  /** A leased command is its holder's alone until the lease runs out: over any run of other
      workers' steps its row stays exactly as it is. */
  lemma {:induction false} LeaseGuardsTheCommand(s: System, holder: Lease, expires: int, steps: seq<Step>)
    requires holder.id in s.db.commands
    requires var c := s.db.commands[holder.id];
             c.status == Processing && c.attempt == holder.attempt && c.lease == Some(LeaseMark(holder.owner, expires))
    requires forall i :: 0 <= i < |steps| ==> Bystander(steps[i], holder, expires)
    ensures holder.id in Run(s, steps).db.commands
    ensures Run(s, steps).db.commands[holder.id] == s.db.commands[holder.id]
  {
    hide Next, Bystander;
    if steps != [] {
      var front, last := steps[..|steps| - 1], steps[|steps| - 1];
      LeaseGuardsTheCommand(s, holder, expires, front);
      BystanderLeaves(Run(s, front), holder, expires, last);
    }
  }

  lemma BystanderLeaves(s: System, holder: Lease, expires: int, step: Step)
    requires holder.id in s.db.commands && Bystander(step, holder, expires)
    requires var c := s.db.commands[holder.id];
             c.status == Processing && c.attempt == holder.attempt && c.lease == Some(LeaseMark(holder.owner, expires))
    ensures holder.id in Next(s, step).db.commands
    ensures Next(s, step).db.commands[holder.id] == s.db.commands[holder.id]
  {
    hide Prepare, Transition, AddAudit, SourceAllows;
  }

  /** A claim hands the command to exactly one worker: whatever the others do, the new claim
      holds until its lease runs out, and every earlier claim is inert from then on. */
  lemma ClaimFencesOut(s: System, claim: Step, steps: seq<Step>, lease: Lease, step: Step, t: int)
    requires claim.ClaimStep? && claim.id in s.db.commands && Claimable(s.db.commands[claim.id], claim.now)
    requires lease.id == claim.id && lease.attempt <= s.db.commands[claim.id].attempt && ActsUnder(step, lease)
    ensures var holder := Lease(claim.id, claim.owner, s.db.commands[claim.id].attempt + 1);
            var expires := claim.now + claim.duration;
            t < expires && (forall i :: 0 <= i < |steps| ==> Bystander(steps[i], holder, expires)) ==>
              Holds(Run(Next(s, claim), steps).db, holder, t)
    ensures var end := Run(Next(s, claim), steps); Next(end, step) == end
  {
    hide Run, Bystander;
    OutdatedClaimIsInert(Next(s, claim), steps, lease, step);
    var holder := Lease(claim.id, claim.owner, s.db.commands[claim.id].attempt + 1);
    if forall i :: 0 <= i < |steps| ==> Bystander(steps[i], holder, claim.now + claim.duration) {
      LeaseGuardsTheCommand(Next(s, claim), holder, claim.now + claim.duration, steps);
    }
  }

  lemma NotHeld(s: System, lease: Lease, step: Step)
    requires ActsUnder(step, lease)
    requires forall now :: !Holds(s.db, lease, now)
    ensures Next(s, step) == s
  {
  }

  // ---- Account rows ------------------------------------------------------------------

  /** An account row changes only when a live, not yet applied command moves it, and only
      rows that command names. */
  lemma RowsMoveOnlyByApplication(s: System, step: Step, account: int)
    requires Inv(s)
    requires account in s.db.accounts
    ensures account in Next(s, step).db.accounts
    ensures Next(s, step).db.accounts[account] != s.db.accounts[account] ==>
              && step.ApplyStep? && Holds(s.db, step.lease, step.now)
              && var c := s.db.commands[step.lease.id];
              && !c.applied
              && (account == c.target || (RetiresRelated(c) && account == c.related))
              && LegalMove(step.lease.id, c, account, s.db.accounts[account], Next(s, step).db.accounts[account])
  {
    hide AuditCount, History, Replay, ApplyCommand, Transition;
    var db := s.db;
    match step
    case ApplyStep(lease, identity, now, later) =>
      var r := ApplyCommand(db, lease, identity, now, later);
      if r.Ok? {
        Holding(db, lease, identity, now, later, r.value);
        if !db.commands[lease.id].applied {
          ApplicationShape(db, lease, identity, now, later, r.value);
        }
      }
    case _ =>
  }

  /** RETIRED and DELETED rows never change again. */
  lemma {:induction false} TerminalRowsStay(s: System, steps: seq<Step>, account: int)
    requires Inv(s)
    requires account in s.db.accounts
    requires s.db.accounts[account].lifecycle == Retired || s.db.accounts[account].lifecycle == Deleted
    ensures account in Run(s, steps).db.accounts
    ensures Run(s, steps).db.accounts[account] == s.db.accounts[account]
  {
    hide Next, Inv, ApplyCommand;
    if steps != [] {
      var front := steps[..|steps| - 1];
      TerminalRowsStay(s, front, account);
      RunKeeps(s, front);
      RowsMoveOnlyByApplication(Run(s, front), steps[|steps| - 1], account);
    }
  }

  function Live(accounts: map<int, Account>): set<int> {
    set a | a in accounts && (accounts[a].lifecycle == Current || accounts[a].lifecycle == Paused)
  }

  /** A cutover that names no account to retire. */
  predicate Activates(s: System, step: Step) {
    && step.ApplyStep? && step.lease.id in s.db.commands
    && s.db.commands[step.lease.id].kind == Cutover && s.db.commands[step.lease.id].related == 0
    && TakesEffect(s, step, step.lease.id)
  }

  function Activations(s: System, steps: seq<Step>): nat {
    if steps == [] then 0
    else
      var front := steps[..|steps| - 1];
      Activations(s, front) + if Activates(Run(s, front), steps[|steps| - 1]) then 1 else 0
  }

  lemma ApplicationLive(s: System, lease: Lease, identity: Key, now: int, later: int, next: Db)
    requires Inv(s)
    requires ApplyCommand(s.db, lease, identity, now, later) == Ok(next)
    requires lease.id in s.db.commands && !s.db.commands[lease.id].applied
    ensures var c := s.db.commands[lease.id];
            var before, after := Live(s.db.accounts), Live(next.accounts);
            && next != s.db
            && (c.kind != Cutover ==> after == before)
            && (c.kind == Cutover ==> c.target !in before)
            && (c.kind == Cutover && c.related == 0 ==> after == before + {c.target})
            && (RetiresRelated(c) ==> c.related in before && after == before - {c.related} + {c.target})
  {
    hide AuditCount, History, Replay, ApplyCommand;
    var db := s.db;
    Holding(db, lease, identity, now, later, next);
    ApplicationShape(db, lease, identity, now, later, next);
    ApplicationSource(db, lease, identity, now, later, next);
  }

  lemma ApplicationSource(db: Db, lease: Lease, identity: Key, now: int, later: int, next: Db)
    requires ApplyCommand(db, lease, identity, now, later) == Ok(next)
    requires lease.id in db.commands && !db.commands[lease.id].applied
    ensures var c := db.commands[lease.id];
            && c.target in db.accounts && SourceAllows(c.kind, db.accounts[c.target].lifecycle)
            && (RetiresRelated(c) ==> c.related in db.accounts
                                      && db.accounts[c.related].lifecycle in {Current, Paused})
  {
  }

  lemma ReplaceOne(live: set<int>, gone: int, come: int)
    requires come !in live
    ensures |live + {come}| == |live| + 1
    ensures gone in live ==> |live - {gone} + {come}| == |live|
  {
  }

  lemma ApplyStepLive(s: System, step: Step)
    requires Inv(s) && step.ApplyStep?
    ensures |Live(Next(s, step).db.accounts)| == |Live(s.db.accounts)| + if Activates(s, step) then 1 else 0
  {
    hide Inv, ApplyCommand, Live;
    var db, lease := s.db, step.lease;
    var r := ApplyCommand(db, lease, step.identity, step.now, step.later);
    if r.Ok? {
      Holding(db, lease, step.identity, step.now, step.later, r.value);
      if !db.commands[lease.id].applied {
        ApplicationLive(s, lease, step.identity, step.now, step.later, r.value);
        var c := db.commands[lease.id];
        if c.kind == Cutover { ReplaceOne(Live(db.accounts), c.related, c.target); }
      }
    }
  }

  lemma OtherStepLive(s: System, step: Step)
    requires !step.ApplyStep?
    ensures Live(Next(s, step).db.accounts) == Live(s.db.accounts)
  {
    hide Claimable, Holds;
  }

  lemma StepLive(s: System, step: Step)
    requires Inv(s)
    ensures |Live(Next(s, step).db.accounts)| == |Live(s.db.accounts)| + if Activates(s, step) then 1 else 0
  {
    hide Inv, Next, Live, TakesEffect;
    if step.ApplyStep? {
      ApplyStepLive(s, step);
    } else {
      OtherStepLive(s, step);
    }
  }

  /** A cutover that names a related account replaces it: over any run the number of
      CURRENT-or-PAUSED accounts grows by exactly the number of cutovers naming none. */
  lemma {:induction false} LiveAccountsConserved(s: System, steps: seq<Step>)
    requires Inv(s)
    ensures |Live(Run(s, steps).db.accounts)| == |Live(s.db.accounts)| + Activations(s, steps)
  {
    hide Next, Inv, Activates, Live;
    if steps != [] {
      var front := steps[..|steps| - 1];
      LiveAccountsConserved(s, front);
      RunKeeps(s, front);
      StepLive(Run(s, front), steps[|steps| - 1]);
    }
  }

  // ---- References --------------------------------------------------------------------

  /** Correcting an identity carries every reference along: rows under the old key come
      under the new one, rows under any other key are untouched, nothing is left behind,
      and both keys' unfinished events are now the new key's. Other commands touch no
      reference. */
  lemma IdentityCorrectionCarriesReferences(db: Db, lease: Lease, identity: Key, now: int, later: int, next: Db)
    requires ApplyCommand(db, lease, identity, now, later) == Ok(next)
    requires lease.id in db.commands && !db.commands[lease.id].applied
    ensures var c := db.commands[lease.id];
            c.kind != CorrectIdentity ==> next.tables == db.tables
    ensures var c := db.commands[lease.id];
            c.kind == CorrectIdentity ==>
              && c.target in db.accounts && c.target in next.accounts
              && var oldKey, newKey := db.accounts[c.target].key, next.accounts[c.target].key;
              && oldKey != newKey && newKey == identity
              && Carried(db.tables.facts, next.tables.facts, oldKey, newKey)
              && Carried(db.tables.tasks, next.tables.tasks, oldKey, newKey)
              && Carried(EventKeys(db.tables), EventKeys(next.tables), oldKey, newKey)
              && Carried(TransactionKeys(db.tables), TransactionKeys(next.tables), oldKey, newKey)
              && UnfinishedFor(next.tables, oldKey) == {}
              && UnfinishedFor(next.tables, newKey)
                 == UnfinishedFor(db.tables, oldKey) + UnfinishedFor(db.tables, newKey)
  {
    hide Holds, AddAudit, SourceAllows, Unreferenced;
    var c := db.commands[lease.id];
    if c.kind == CorrectIdentity {
      RekeyedEvents(db.tables, db.accounts[c.target].key, c.requestedKey);
    }
  }

  lemma RekeyedEvents(t: Tables, oldKey: Key, newKey: Key)
    requires oldKey != newKey
    ensures var u := RekeyAll(t, oldKey, newKey);
            && UnfinishedFor(u, oldKey) == {}
            && UnfinishedFor(u, newKey) == UnfinishedFor(t, oldKey) + UnfinishedFor(t, newKey)
  {
    var u := RekeyAll(t, oldKey, newKey);
    assert u.events.Keys == t.events.Keys;
    forall r | r in t.events
      ensures r !in UnfinishedFor(u, oldKey)
      ensures r in UnfinishedFor(u, newKey) <==> r in UnfinishedFor(t, oldKey) + UnfinishedFor(t, newKey)
    {
    }
  }

  ghost predicate Carried(before: map<int, Key>, after: map<int, Key>, oldKey: Key, newKey: Key) {
    && after.Keys == before.Keys
    && forall r :: r in before ==>
         && after[r] != oldKey
         && (before[r] == oldKey ==> after[r] == newKey)
         && (before[r] != oldKey ==> after[r] == before[r])
  }

  function EventKeys(t: Tables): map<int, Key> {
    map r | r in t.events :: t.events[r].key
  }

  function TransactionKeys(t: Tables): map<int, Key> {
    map r | r in t.transactions :: t.transactions[r].key
  }
}
