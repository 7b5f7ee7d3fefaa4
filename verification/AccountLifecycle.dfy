/** Leased account lifecycle commands: the rows, the guarded statements as functions of
    the database, and the repository that executes them
    (internal/companyfund/account_lifecycle_repository.go). */
module AccountLifecycle {
  import opened Wrappers
  import opened DueQueue
  import Text

  type Key = string

  datatype Lifecycle = Candidate | Current | Paused | Retired | Deleted

  datatype Kind = ValidateCandidate | Pause | Resume | CorrectIdentity | Cutover | DeleteCandidate

  datatype Account = Account(
    key: Key, lifecycle: Lifecycle, version: int, enabled: bool, everEnabled: bool, validated: Option<Key>)

  datatype Status = Pending | Processing | Succeeded | Failed

  datatype LeaseMark = LeaseMark(owner: string, expires: int)

  /** `related` is 0 when the command names no related account. */
  datatype Command = Command(
    kind: Kind, target: int, related: int, requestedKey: Key, expectedTarget: int, expectedRelated: int,
    status: Status, attempt: nat, nextAttempt: int, lease: Option<LeaseMark>, applied: bool)

  datatype Audit = Audit(
    command: int, account: int, kind: Kind, oldLifecycle: Lifecycle, newLifecycle: Lifecycle, oldKey: Key, newKey: Key)

  datatype EventRow = EventRow(key: Key, unfinished: bool)
  datatype TransactionRow = TransactionRow(key: Key, fromAccount: Option<int>, toAccount: Option<int>)

  /** The tables that mention an account by ID or by provider key. */
  datatype Tables = Tables(
    policies: map<int, int>, events: map<int, EventRow>, facts: map<int, Key>,
    transactions: map<int, TransactionRow>, tasks: map<int, Key>)

  datatype Db = Db(accounts: map<int, Account>, commands: map<int, Command>, audits: seq<Audit>, tables: Tables)

  /** What a worker remembers of its claim. */
  datatype Lease = Lease(id: int, owner: string, attempt: nat)

  datatype ApplyError =
    | LeaseLost | AccountMissing | VersionConflict | SourceRefused | IdentityMismatch | KeyUnchanged
    | RelatedConflict | UnfinishedEvents | PreviouslyEnabled | StillReferenced

  // ---- Guards ------------------------------------------------------------------

  predicate Claimable(c: Command, now: int) {
    || (c.status == Pending && c.nextAttempt <= now)
    || (c.status == Processing && c.lease.Some? && c.lease.value.expires <= now)
  }

  /** Waiting and due, or leased by somebody whose lease has run out. */
  ghost predicate IsDue(c: Command, now: int) {
    match c.status
    case Pending => c.nextAttempt <= now
    case Processing => exists owner, expires :: c.lease == Some(LeaseMark(owner, expires)) && expires <= now
    case _ => false
  }

  lemma DueIsClaimable(c: Command, now: int)
    ensures IsDue(c, now) <==> Claimable(c, now)
  {
    if c.lease.Some? { assert c.lease == Some(LeaseMark(c.lease.value.owner, c.lease.value.expires)); }
  }

  /** The rows a claim may take at `now`, when others hold `locked`. */
  function Takeable(commands: map<int, Command>, now: int, locked: set<int>): set<int> {
    set id | id in commands && Claimable(commands[id], now) && id !in locked
  }

  function NextAttempts(commands: map<int, Command>): map<int, int> {
    map id | id in commands :: commands[id].nextAttempt
  }

  /** PROCESSING under this owner and attempt, with a lease that has not expired. */
  predicate Holds(db: Db, lease: Lease, now: int) {
    && lease.id in db.commands
    && var c := db.commands[lease.id];
    && c.status == Processing && c.attempt == lease.attempt
    && c.lease.Some? && c.lease.value.owner == lease.owner && now < c.lease.value.expires
  }

  predicate SourceAllows(kind: Kind, source: Lifecycle) {
    match kind
    case ValidateCandidate => source == Candidate
    case Cutover => source == Candidate
    case DeleteCandidate => source == Candidate
    case Pause => source == Current
    case Resume => source == Paused
    case CorrectIdentity => source == Candidate || source == Current || source == Paused
  }

  predicate IdentityProven(identity: Key, expected: Key) {
    expected != "" && Text.Trim(expected) == expected && identity == expected
  }

  // ---- Row effects -------------------------------------------------------------

  function Retire(a: Account): Account {
    a.(lifecycle := Retired, enabled := false, version := a.version + 1)
  }

  function Transition(kind: Kind, a: Account, requestedKey: Key, identity: Key): Account {
    var next := a.(version := a.version + 1);
    match kind
    case ValidateCandidate => next.(validated := Some(identity))
    case Pause => next.(lifecycle := Paused, enabled := false)
    case Resume => next.(lifecycle := Current, enabled := true, validated := Some(identity))
    case CorrectIdentity => next.(key := requestedKey, validated := Some(identity))
    case Cutover => next.(lifecycle := Current, enabled := true, everEnabled := true, validated := Some(identity))
    case DeleteCandidate => next.(lifecycle := Deleted, enabled := false)
  }

  function Rekey(key: Key, oldKey: Key, newKey: Key): Key {
    if key == oldKey then newKey else key
  }

  /** The four statements that move provider references to the corrected key. */
  function RekeyEvents(t: Tables, oldKey: Key, newKey: Key): Tables {
    t.(events := map r | r in t.events :: t.events[r].(key := Rekey(t.events[r].key, oldKey, newKey)))
  }

  function RekeyFacts(t: Tables, oldKey: Key, newKey: Key): Tables {
    t.(facts := map r | r in t.facts :: Rekey(t.facts[r], oldKey, newKey))
  }

  function RekeyTransactions(t: Tables, oldKey: Key, newKey: Key): Tables {
    t.(transactions :=
      map r | r in t.transactions :: t.transactions[r].(key := Rekey(t.transactions[r].key, oldKey, newKey)))
  }

  function RekeyTasks(t: Tables, oldKey: Key, newKey: Key): Tables {
    t.(tasks := map r | r in t.tasks :: Rekey(t.tasks[r], oldKey, newKey))
  }

  function RekeyAll(t: Tables, oldKey: Key, newKey: Key): Tables {
    var facts := RekeyFacts(RekeyEvents(t, oldKey, newKey), oldKey, newKey);
    RekeyTasks(RekeyTransactions(facts, oldKey, newKey), oldKey, newKey)
  }

  function UnfinishedFor(t: Tables, key: Key): set<int> {
    set r | r in t.events && t.events[r].key == key && t.events[r].unfinished
  }

  /** Whether countAirwallexCandidateReferencesSQL would find nothing. */
  predicate Unreferenced(db: Db, command: int, account: int, key: Key) {
    && (forall r :: r in db.tables.policies ==> db.tables.policies[r] != account)
    && (forall r :: r in db.tables.events ==> db.tables.events[r].key != key)
    && (forall r :: r in db.tables.facts ==> db.tables.facts[r] != key)
    && (forall r :: r in db.tables.transactions ==>
          var tx := db.tables.transactions[r];
          tx.key != key && tx.fromAccount != Some(account) && tx.toAccount != Some(account))
    && (forall r :: r in db.tables.tasks ==> db.tables.tasks[r] != key)
    && (forall r :: r in db.commands && r != command
                    && (db.commands[r].status == Pending || db.commands[r].status == Processing) ==>
          db.commands[r].target != account && db.commands[r].related != account)
  }

  /** INSERT ... ON CONFLICT (command_id, account_id) DO NOTHING. */
  function AddAudit(audits: seq<Audit>, a: Audit): seq<Audit> {
    if exists i :: 0 <= i < |audits| && audits[i].command == a.command && audits[i].account == a.account
    then audits else audits + [a]
  }

  function AuditOf(command: int, c: Command, account: int, before: Account, after: Account): Audit {
    Audit(command, account, c.kind, before.lifecycle, after.lifecycle, before.key, after.key)
  }

  // ---- Statements ----------------------------------------------------------------

  function ClaimRow(db: Db, id: int, owner: string, duration: int, now: int): Db
    requires id in db.commands
  {
    var c := db.commands[id];
    db.(commands := db.commands[id :=
      c.(status := Processing, attempt := c.attempt + 1, lease := Some(LeaseMark(owner, now + duration)))])
  }

  /** The retirement leg of a cutover. */
  function RetireRelated(db: Db, id: int, c: Command): Result<Db, ApplyError> {
    if c.related == 0 then Ok(db)
    else if c.related !in db.accounts then Err(AccountMissing)
    else
      var related := db.accounts[c.related];
      if related.version != c.expectedRelated || (related.lifecycle != Current && related.lifecycle != Paused)
      then Err(RelatedConflict)
      else if UnfinishedFor(db.tables, related.key) != {} then Err(UnfinishedEvents)
      else Ok(db.(
          accounts := db.accounts[c.related := Retire(related)],
          audits := AddAudit(db.audits, AuditOf(id, c, c.related, related, Retire(related)))))
  }

  /** What has to hold besides the source lifecycle, and what is rewritten besides the target row. */
  function Prepare(db: Db, id: int, c: Command, identity: Key): Result<Db, ApplyError>
    requires c.target in db.accounts
  {
    var target := db.accounts[c.target];
    match c.kind
    case Pause => Ok(db)
    case ValidateCandidate => if IdentityProven(identity, target.key) then Ok(db) else Err(IdentityMismatch)
    case Resume => if IdentityProven(identity, target.key) then Ok(db) else Err(IdentityMismatch)
    case CorrectIdentity =>
      if !IdentityProven(identity, c.requestedKey) then Err(IdentityMismatch)
      else if c.requestedKey == target.key then Err(KeyUnchanged)
      else Ok(db.(tables := RekeyAll(db.tables, target.key, c.requestedKey)))
    case Cutover =>
      if !IdentityProven(identity, target.key) then Err(IdentityMismatch) else RetireRelated(db, id, c)
    case DeleteCandidate =>
      if target.everEnabled then Err(PreviouslyEnabled)
      else if !Unreferenced(db, id, c.target, target.key) then Err(StillReferenced)
      else Ok(db)
  }

  /** ApplyAccountLifecycleCommand, all or nothing. The lease is checked when the row is
      locked, at `now`, and once more when the command is marked, at `later`. */
  function ApplyCommand(db: Db, lease: Lease, identity: Key, now: int, later: int): Result<Db, ApplyError> {
    if !Holds(db, lease, now) then Err(LeaseLost)
    else
      var c := db.commands[lease.id];
      if c.applied then Ok(db)
      else if c.target !in db.accounts then Err(AccountMissing)
      else
        var target := db.accounts[c.target];
        if target.version != c.expectedTarget then Err(VersionConflict)
        else if !SourceAllows(c.kind, target.lifecycle) then Err(SourceRefused)
        else
          match Prepare(db, lease.id, c, identity)
          case Err(e) => Err(e)
          case Ok(mid) =>
            if !Holds(db, lease, later) then Err(LeaseLost)
            else
              var after := Transition(c.kind, target, c.requestedKey, identity);
              Ok(mid.(
                  accounts := mid.accounts[c.target := after],
                  audits := AddAudit(mid.audits, AuditOf(lease.id, c, c.target, target, after)),
                  commands := db.commands[lease.id := c.(applied := true)]))
  }

  // ---- When a command is applied -----------------------------------------------

  /** What an application asks of the rows it has locked. */
  datatype Check =
    | LeaseLive | TargetExists | TargetVersion | TargetLifecycle | IdentityProved | KeyNew
    | RelatedExists | RelatedState | RelatedQuiet | NeverEnabled | NothingRefers | LeaseStillLive

  /** In the order they are made. */
  const CHECKS: seq<Check> := [
    LeaseLive, TargetExists, TargetVersion, TargetLifecycle, IdentityProved, KeyNew, RelatedExists, RelatedState,
    RelatedQuiet, NeverEnabled, NothingRefers, LeaseStillLive]

  function ErrorOf(check: Check): ApplyError {
    match check
    case LeaseLive => LeaseLost
    case TargetExists => AccountMissing
    case TargetVersion => VersionConflict
    case TargetLifecycle => SourceRefused
    case IdentityProved => IdentityMismatch
    case KeyNew => KeyUnchanged
    case RelatedExists => AccountMissing
    case RelatedState => RelatedConflict
    case RelatedQuiet => UnfinishedEvents
    case NeverEnabled => PreviouslyEnabled
    case NothingRefers => StillReferenced
    case LeaseStillLive => LeaseLost
  }

  /** PROCESSING, by this owner in this attempt, until later than `at`. */
  ghost predicate LiveAt(c: Command, lease: Lease, at: int) {
    c.status == Processing && c.attempt == lease.attempt
    && exists expires :: c.lease == Some(LeaseMark(lease.owner, expires)) && at < expires
  }

  /** Some row of some table mentions the account or its key, or another unfinished command
      names it. */
  ghost predicate Mentioned(db: Db, command: int, account: int, key: Key) {
    || (exists r :: r in db.tables.policies && db.tables.policies[r] == account)
    || (exists r :: r in db.tables.facts && db.tables.facts[r] == key)
    || (exists r :: r in db.tables.tasks && db.tables.tasks[r] == key)
    || (exists r :: r in db.tables.events && db.tables.events[r].key == key)
    || (exists r :: r in db.tables.transactions && (db.tables.transactions[r].key == key
          || db.tables.transactions[r].fromAccount == Some(account)
          || db.tables.transactions[r].toAccount == Some(account)))
    || (exists r :: r in db.commands && r != command && db.commands[r].status in {Pending, Processing}
          && account in {db.commands[r].target, db.commands[r].related})
  }

  /** Whether a check passes, read off the rows; a check a kind does not make passes. */
  ghost predicate Passes(db: Db, lease: Lease, identity: Key, now: int, later: int, check: Check)
    requires lease.id in db.commands
  {
    var c := db.commands[lease.id];
    match check
    case LeaseLive => LiveAt(c, lease, now)
    case TargetExists => c.target in db.accounts
    case TargetVersion => c.target in db.accounts ==> db.accounts[c.target].version == c.expectedTarget
    case TargetLifecycle =>
      c.target in db.accounts ==>
        db.accounts[c.target].lifecycle in
          (match c.kind
           case Pause => {Current}
           case Resume => {Paused}
           case CorrectIdentity => {Candidate, Current, Paused}
           case _ => {Candidate})
    case IdentityProved =>
      (c.kind in {ValidateCandidate, Resume, Cutover} && c.target in db.accounts ==>
         identity == db.accounts[c.target].key && identity != "" && Text.Trim(identity) == identity)
      && (c.kind == CorrectIdentity ==>
            identity == c.requestedKey && identity != "" && Text.Trim(identity) == identity)
    case KeyNew => c.kind == CorrectIdentity && c.target in db.accounts ==> c.requestedKey != db.accounts[c.target].key
    case RelatedExists => c.kind == Cutover && c.related != 0 ==> c.related in db.accounts
    case RelatedState =>
      c.kind == Cutover && c.related != 0 && c.related in db.accounts ==>
        var related := db.accounts[c.related];
        related.version == c.expectedRelated && related.lifecycle in {Current, Paused}
    case RelatedQuiet =>
      c.kind == Cutover && c.related != 0 && c.related in db.accounts ==>
        forall r :: r in db.tables.events && db.tables.events[r].key == db.accounts[c.related].key ==>
          !db.tables.events[r].unfinished
    case NeverEnabled => c.kind == DeleteCandidate && c.target in db.accounts ==> !db.accounts[c.target].everEnabled
    case NothingRefers =>
      c.kind == DeleteCandidate && c.target in db.accounts ==>
        !Mentioned(db, lease.id, c.target, db.accounts[c.target].key)
    case LeaseStillLive => LiveAt(c, lease, later)
  }

  /** Every check passed, or the error is that of the first one that did not. */
  ghost predicate Answered(db: Db, lease: Lease, identity: Key, now: int, later: int, error: Option<ApplyError>)
    requires lease.id in db.commands
  {
    match error
    case None => forall k :: 0 <= k < |CHECKS| ==> Passes(db, lease, identity, now, later, CHECKS[k])
    case Some(e) => exists k: nat :: FailsFirst(db, lease, identity, now, later, 0, k) && e == ErrorOf(CHECKS[k])
  }

  lemma LiveIsHeld(db: Db, lease: Lease, at: int)
    requires lease.id in db.commands
    ensures LiveAt(db.commands[lease.id], lease, at) <==> Holds(db, lease, at)
  {
    var c := db.commands[lease.id];
    if Holds(db, lease, at) {
      assert c.lease == Some(LeaseMark(lease.owner, c.lease.value.expires));
    }
  }

  lemma MentionedIsReferenced(db: Db, command: int, account: int, key: Key)
    ensures Mentioned(db, command, account, key) <==> !Unreferenced(db, command, account, key)
  {
  }

  lemma QuietHasNone(t: Tables, key: Key)
    ensures UnfinishedFor(t, key) == {} <==>
            forall r :: r in t.events && t.events[r].key == key ==> !t.events[r].unfinished
  {
    if r :| r in t.events && t.events[r].key == key && t.events[r].unfinished {
      assert r in UnfinishedFor(t, key);
    } else {
      assert forall r :: r !in UnfinishedFor(t, key);
    }
  }

  /** Check k is the first one, from check `from` on, that fails. */
  ghost predicate FailsFirst(db: Db, lease: Lease, identity: Key, now: int, later: int, from: nat, k: nat)
    requires lease.id in db.commands
  {
    && from <= k < |CHECKS| && !Passes(db, lease, identity, now, later, CHECKS[k])
    && forall j :: from <= j < k ==> Passes(db, lease, identity, now, later, CHECKS[j])
  }

  lemma FirstBad(db: Db, lease: Lease, identity: Key, now: int, later: int, from: nat, to: nat) returns (k: nat)
    requires lease.id in db.commands && from <= to <= |CHECKS|
    ensures from <= k <= to && forall j :: from <= j < k ==> Passes(db, lease, identity, now, later, CHECKS[j])
    ensures k < to ==> FailsFirst(db, lease, identity, now, later, from, k)
  {
    hide Passes;
    k := from;
    while k < to && Passes(db, lease, identity, now, later, CHECKS[k])
      invariant from <= k <= to
      invariant forall j :: from <= j < k ==> Passes(db, lease, identity, now, later, CHECKS[j])
    {
      k := k + 1;
    }
  }

  /** Checks 4 to 10 are the transition's own. */
  lemma PreparedExactly(db: Db, lease: Lease, identity: Key, now: int, later: int)
    requires lease.id in db.commands && db.commands[lease.id].target in db.accounts
    ensures var r := Prepare(db, lease.id, db.commands[lease.id], identity);
            && (r.Ok? <==> forall k :: 4 <= k < 11 ==> Passes(db, lease, identity, now, later, CHECKS[k]))
            && (r.Err? ==>
                  exists k: nat ::
                    k < 11 && FailsFirst(db, lease, identity, now, later, 4, k) && r.error == ErrorOf(CHECKS[k]))
  {
    hide Mentioned, Unreferenced, UnfinishedFor, RekeyAll, Retire, AddAudit, LiveAt;
    var c := db.commands[lease.id];
    MentionedIsReferenced(db, lease.id, c.target, db.accounts[c.target].key);
    if c.related in db.accounts { QuietHasNone(db.tables, db.accounts[c.related].key); }
    var k := FirstBad(db, lease, identity, now, later, 4, 11);
    assert k > 4 ==> Passes(db, lease, identity, now, later, CHECKS[4]);
    assert k > 5 ==> Passes(db, lease, identity, now, later, CHECKS[5]);
    assert k > 6 ==> Passes(db, lease, identity, now, later, CHECKS[6]);
    assert k > 7 ==> Passes(db, lease, identity, now, later, CHECKS[7]);
    assert k > 8 ==> Passes(db, lease, identity, now, later, CHECKS[8]);
    assert k > 9 ==> Passes(db, lease, identity, now, later, CHECKS[9]);
    assert k > 10 ==> Passes(db, lease, identity, now, later, CHECKS[10]);
  }

  /** A command that was not applied yet is applied exactly when every check passes, and
      refused with the error of the first one that fails. */
  lemma AppliedExactly(db: Db, lease: Lease, identity: Key, now: int, later: int)
    requires lease.id in db.commands && !db.commands[lease.id].applied
    ensures var r := ApplyCommand(db, lease, identity, now, later);
            Answered(db, lease, identity, now, later, if r.Ok? then None else Some(r.error))
  {
    hide Holds, LiveAt, Prepare, Transition, AddAudit, Mentioned;
    LiveIsHeld(db, lease, now);
    LiveIsHeld(db, lease, later);
    var c := db.commands[lease.id];
    assert CHECKS[0] == LeaseLive && CHECKS[1] == TargetExists && CHECKS[2] == TargetVersion;
    assert CHECKS[3] == TargetLifecycle && CHECKS[11] == LeaseStillLive;
    if c.target in db.accounts {
      PreparedExactly(db, lease, identity, now, later);
    }
  }

  function CompleteRow(db: Db, lease: Lease, now: int): Option<Db> {
    if Holds(db, lease, now) && db.commands[lease.id].applied
    then Some(db.(commands := db.commands[lease.id := db.commands[lease.id].(status := Succeeded, lease := None)]))
    else None
  }

  function FailRow(db: Db, lease: Lease, now: int): Option<Db> {
    if Holds(db, lease, now) && !db.commands[lease.id].applied
    then Some(db.(commands := db.commands[lease.id := db.commands[lease.id].(status := Failed, lease := None)]))
    else None
  }

  function RetryRow(db: Db, lease: Lease, applied: bool, delay: int, now: int): Option<Db> {
    if Holds(db, lease, now) && db.commands[lease.id].applied == applied
    then Some(db.(commands := db.commands[lease.id :=
      db.commands[lease.id].(status := Pending, lease := None, nextAttempt := now + delay)]))
    else None
  }

  // ---- The repository --------------------------------------------------------------

  class Repository {
    var accounts: map<int, Account>
    var commands: map<int, Command>
    var audits: seq<Audit>
    var tables: Tables

    ghost function Rows(): Db
      reads this
    {
      Db(accounts, commands, audits, tables)
    }

    /** ClaimAccountLifecycleCommand; rows in `locked` are skipped. */
    method Claim(owner: string, duration: int, now: int, locked: set<int>)
      returns (claimed: Option<Lease>, applied: bool)
      modifies this
      ensures claimed == None ==> Rows() == old(Rows()) && Takeable(commands, now, locked) == {}
      ensures claimed.Some? ==>
                var id := claimed.value.id;
                && IsFirst(Takeable(old(commands), now, locked), NextAttempts(old(commands)), id)
                && Rows() == ClaimRow(old(Rows()), id, owner, duration, now)
                && claimed == Some(Lease(id, owner, old(commands[id]).attempt + 1))
                && applied == old(commands[id]).applied
      ensures claimed.Some? <==> exists id :: id in old(commands) && id !in locked && IsDue(old(commands[id]), now)
    {
      hide IsDue, Claimable;
      forall id | id in commands ensures IsDue(commands[id], now) <==> Claimable(commands[id], now) {
        DueIsClaimable(commands[id], now);
      }
      var candidates := Takeable(commands, now, locked);
      if candidates == {} {
        assert forall id :: id in commands && Claimable(commands[id], now) && id !in locked ==> id in candidates;
        return None, false;
      }
      var id := PickFirst(candidates, NextAttempts(commands));
      var c := commands[id];
      commands := commands[id :=
        c.(status := Processing, attempt := c.attempt + 1, lease := Some(LeaseMark(owner, now + duration)))];
      return Some(Lease(id, owner, c.attempt + 1)), c.applied;
    }

    method Apply(lease: Lease, identity: Key, now: int, later: int) returns (error: Option<ApplyError>)
      modifies this
      ensures match ApplyCommand(old(Rows()), lease, identity, now, later)
              case Ok(db) => error == None && Rows() == db
              case Err(e) => error == Some(e) && Rows() == old(Rows())
      ensures lease.id in old(commands) && !old(commands)[lease.id].applied ==>
                Answered(old(Rows()), lease, identity, now, later, error)
      ensures lease.id in old(commands) && old(commands)[lease.id].applied ==>
                && Rows() == old(Rows())
                && error == if LiveAt(old(commands)[lease.id], lease, now) then None else Some(LeaseLost)
      ensures lease.id !in old(commands) ==> error == Some(LeaseLost)
    {
      hide Answered, LiveAt;
      if lease.id in commands { LiveIsHeld(Rows(), lease, now); }
      if lease.id in commands && !commands[lease.id].applied {
        AppliedExactly(Rows(), lease, identity, now, later);
      }
      if lease.id !in commands { return Some(LeaseLost); }
      var c := commands[lease.id];
      if c.status != Processing || c.attempt != lease.attempt || c.lease.None?
         || c.lease.value.owner != lease.owner || c.lease.value.expires <= now {
        return Some(LeaseLost);
      }
      if c.applied { return None; }
      if c.target !in accounts { return Some(AccountMissing); }
      var target := accounts[c.target];
      if target.version != c.expectedTarget { return Some(VersionConflict); }
      if !SourceAllows(c.kind, target.lifecycle) { return Some(SourceRefused); }
      // The transaction's own view; it reaches the fields only on commit.
      var txAccounts, txAudits, txTables := accounts, audits, tables;
      match c.kind {
        case Pause =>
        case ValidateCandidate =>
          if !IdentityProven(identity, target.key) { return Some(IdentityMismatch); }
        case Resume =>
          if !IdentityProven(identity, target.key) { return Some(IdentityMismatch); }
        case CorrectIdentity =>
          if !IdentityProven(identity, c.requestedKey) { return Some(IdentityMismatch); }
          if c.requestedKey == target.key { return Some(KeyUnchanged); }
          txTables := RekeyEvents(txTables, target.key, c.requestedKey);
          txTables := RekeyFacts(txTables, target.key, c.requestedKey);
          txTables := RekeyTransactions(txTables, target.key, c.requestedKey);
          txTables := RekeyTasks(txTables, target.key, c.requestedKey);
        case Cutover =>
          if !IdentityProven(identity, target.key) { return Some(IdentityMismatch); }
          if c.related != 0 {
            if c.related !in txAccounts { return Some(AccountMissing); }
            var related := txAccounts[c.related];
            if related.version != c.expectedRelated || (related.lifecycle != Current && related.lifecycle != Paused) {
              return Some(RelatedConflict);
            }
            if UnfinishedFor(txTables, related.key) != {} { return Some(UnfinishedEvents); }
            txAccounts := txAccounts[c.related := Retire(related)];
            txAudits := AddAudit(txAudits, AuditOf(lease.id, c, c.related, related, Retire(related)));
          }
        case DeleteCandidate =>
          if target.everEnabled { return Some(PreviouslyEnabled); }
          if !Unreferenced(Db(accounts, commands, audits, tables), lease.id, c.target, target.key) {
            return Some(StillReferenced);
          }
      }
      var after := Transition(c.kind, target, c.requestedKey, identity);
      txAccounts := txAccounts[c.target := after];
      txAudits := AddAudit(txAudits, AuditOf(lease.id, c, c.target, target, after));
      if c.lease.value.expires <= later { return Some(LeaseLost); }
      accounts, audits, tables := txAccounts, txAudits, txTables;
      commands := commands[lease.id := c.(applied := true)];
      return None;
    }

    method Complete(lease: Lease, now: int) returns (ok: bool)
      modifies this`commands
      ensures match CompleteRow(old(Rows()), lease, now)
              case Some(db) => ok && Rows() == db
              case None => !ok && Rows() == old(Rows())
    {
      ok := Holds(Db(accounts, commands, audits, tables), lease, now) && commands[lease.id].applied;
      if ok {
        commands := commands[lease.id := commands[lease.id].(status := Succeeded, lease := None)];
      }
    }

    method Fail(lease: Lease, now: int) returns (ok: bool)
      modifies this`commands
      ensures match FailRow(old(Rows()), lease, now)
              case Some(db) => ok && Rows() == db
              case None => !ok && Rows() == old(Rows())
    {
      ok := Holds(Db(accounts, commands, audits, tables), lease, now) && !commands[lease.id].applied;
      if ok {
        commands := commands[lease.id := commands[lease.id].(status := Failed, lease := None)];
      }
    }

    method Retry(lease: Lease, applied: bool, delay: int, now: int) returns (ok: bool)
      modifies this`commands
      ensures match RetryRow(old(Rows()), lease, applied, delay, now)
              case Some(db) => ok && Rows() == db
              case None => !ok && Rows() == old(Rows())
    {
      ok := Holds(Db(accounts, commands, audits, tables), lease, now) && commands[lease.id].applied == applied;
      if ok {
        commands := commands[lease.id :=
          commands[lease.id].(status := Pending, lease := None, nextAttempt := now + delay)];
      }
    }
  }
}
