/** One turn of the lifecycle worker, with anything the other workers do in between
    (internal/companyfund/account_lifecycle_worker.go). */
module AccountLifecycleWorker {
  import opened Wrappers
  import opened DueQueue
  import opened AccountLifecycle
  import opened AccountLifecycleRuns

  /** What the provider answers: an identity, or an error worth retrying or not. */
  datatype Validation = Identity(key: Key) | Temporary | Permanent

  /** `LeaseGone` is the error return: the last guarded statement matched no row. */
  datatype Outcome = Idle | Finished | Rejected | Retrying | LeaseGone

  /** The database clock at each statement of the turn. */
  datatype Times = Times(claim: int, apply: int, mark: int, last: int)

  /** Commands that need no proof of identity get an empty one. */
  function Validate(kind: Kind, provider: Validation): Validation {
    if kind == Pause || kind == DeleteCandidate then Identity("") else provider
  }

  lemma {:induction false} RunAppend(s: System, a: seq<Step>, b: seq<Step>)
    ensures Run(s, a + b) == Run(Run(s, a), b)
  {
    hide Next;
    if b == [] {
      assert a + b == a;
    } else {
      RunAppend(s, a, b[..|b| - 1]);
      assert (a + b)[..|a + b| - 1] == a + b[..|b| - 1];
    }
  }

  lemma RunOne(s: System, step: Step)
    ensures Run(s, [step]) == Next(s, step)
  {
    hide Next;
    assert [step][..0] == [];
  }

  lemma NextIgnoresBorn(s: System, t: System, step: Step)
    requires s.db == t.db
    ensures Next(s, step).db == Next(t, step).db
  {
    hide ApplyCommand, CompleteRow, FailRow, RetryRow, ClaimRow, Claimable, OrElse;
  }

  /** Where accounts started from has no influence on the database. */
  lemma {:induction false} BornIsHistory(db: Db, born: map<int, Account>, other: map<int, Account>, steps: seq<Step>)
    ensures Run(System(db, born), steps).db == Run(System(db, other), steps).db
  {
    hide Next;
    if steps != [] {
      var front := steps[..|steps| - 1];
      BornIsHistory(db, born, other, front);
      NextIgnoresBorn(Run(System(db, born), front), Run(System(db, other), front), steps[|steps| - 1]);
    }
  }

  /** `trace` leads from one database to the other. */
  ghost predicate Leads(start: Db, trace: seq<Step>, end: Db) {
    Run(System(start, map[]), trace).db == end
  }

  lemma LeadsOn(start: Db, trace: seq<Step>, mid: Db, more: seq<Step>, end: Db)
    requires Leads(start, trace, mid) && Leads(mid, more, end)
    ensures Leads(start, trace + more, end)
  {
    hide Run;
    RunAppend(System(start, map[]), trace, more);
    BornIsHistory(mid, map[], Run(System(start, map[]), trace).born, more);
  }

  lemma LeadsStep(start: Db, step: Step, end: Db)
    requires Next(System(start, map[]), step).db == end
    ensures Leads(start, [step], end)
  {
    hide Run, Next;
    RunOne(System(start, map[]), step);
  }

  class Worker {
    const repository: Repository
    const owner: string
    const leaseDuration: int
    const retryDelay: int

    constructor (repository: Repository, owner: string, leaseDuration: int, retryDelay: int)
      requires owner != "" && leaseDuration > 0 && retryDelay > 0
      ensures this.repository == repository && this.owner == owner
      ensures this.leaseDuration == leaseDuration && this.retryDelay == retryDelay
    {
      this.repository, this.owner, this.leaseDuration, this.retryDelay := repository, owner, leaseDuration, retryDelay;
    }

    /** Whatever everyone else does before this worker's next statement. */
    method Others(steps: seq<Step>)
      modifies repository
      ensures Leads(old(repository.Rows()), steps, repository.Rows())
      ensures steps == [] ==> repository.Rows() == old(repository.Rows())
    {
      var start := Db(repository.accounts, repository.commands, repository.audits, repository.tables);
      var db := Run(System(start, map[]), steps).db;
      repository.accounts, repository.commands, repository.audits, repository.tables :=
        db.accounts, db.commands, db.audits, db.tables;
    }

    /** The last guarded statement of a turn. */
    method Conclude(lease: Lease, ending: Ending, now: int) returns (ok: bool, ghost step: Step)
      modifies repository
      ensures Leads(old(repository.Rows()), [step], repository.Rows())
      ensures ok <==>
              && Holds(old(repository.Rows()), lease, now)
              && Fits(old(repository.commands)[lease.id].applied, ending)
      ensures ok ==>
                && lease.id in repository.commands
                && repository.commands[lease.id].applied == old(repository.commands)[lease.id].applied
                && repository.commands[lease.id].status == EndStatus(ending)
                && (ending.Retry? ==> repository.commands[lease.id].nextAttempt == now + retryDelay)
      ensures !ok ==> repository.Rows() == old(repository.Rows())
    {
      hide Run, Leads;
      match ending
      case Complete =>
        step := CompleteStep(lease, now);
        ok := repository.Complete(lease, now);
        LeadsStep(old(repository.Rows()), step, repository.Rows());
      case Fail =>
        step := FailStep(lease, now);
        ok := repository.Fail(lease, now);
        LeadsStep(old(repository.Rows()), step, repository.Rows());
      case Retry(applied) =>
        step := RetryStep(lease, applied, retryDelay, now);
        ok := repository.Retry(lease, applied, retryDelay, now);
        LeadsStep(old(repository.Rows()), step, repository.Rows());
    }

    /** The part of a turn that only a command not yet applied goes through: ask the provider
        where an identity is needed, and apply. */
    method ValidateAndApply(lease: Lease, kind: Kind, provider: Validation, t: Times)
      returns (ending: Ending, ghost steps: seq<Step>)
      modifies repository
      ensures Leads(old(repository.Rows()), steps, repository.Rows())
      ensures var asked := kind != Pause && kind != DeleteCandidate;
              && (asked && provider == Temporary ==> ending == Retry(false))
              && (asked && provider == Permanent ==> ending == Fail)
              && (!asked || provider.Identity? ==>
                    ending == if ApplyCommand(old(repository.Rows()), lease, if asked then provider.key else "",
                                              t.apply, t.mark).Ok? then Complete else Fail)
      ensures HeldThrough(old(repository.Rows()), lease, t) && !old(repository.commands)[lease.id].applied ==>
                Holds(repository.Rows(), lease, t.last) && Fits(repository.commands[lease.id].applied, ending)
    {
      hide Run, ApplyCommand, Leads;
      ghost var db := repository.Rows();
      LeadsNowhere(db);
      steps := [];
      match Validate(kind, provider)
      case Temporary => ending := Retry(false);
      case Permanent => ending := Fail;
      case Identity(key) =>
        var error := repository.Apply(lease, key, t.apply, t.mark);
        ApplyFacts(db, lease, key, t.apply, t.mark);
        steps := [ApplyStep(lease, key, t.apply, t.mark)];
        LeadsStep(db, steps[0], repository.Rows());
        ending := if error != None then Fail else Complete;
    }

    /** The end of a turn: an applied command is completed once the registry is refreshed. */
    method RefreshAndConclude(lease: Lease, decided: Ending, refreshed: bool, more: seq<Step>, last: int)
      returns (outcome: Outcome, ghost steps: seq<Step>)
      modifies repository
      ensures Leads(old(repository.Rows()), steps, repository.Rows())
      ensures decided == Complete ==> outcome in {if refreshed then Finished else Retrying, LeaseGone}
      ensures decided == Fail ==> outcome in {Rejected, LeaseGone}
      ensures decided.Retry? ==> outcome in {Retrying, LeaseGone}
      ensures outcome != LeaseGone ==> lease.id in repository.commands
      ensures outcome == Finished ==>
                repository.commands[lease.id].status == Succeeded && repository.commands[lease.id].applied
      ensures outcome == Rejected ==>
                repository.commands[lease.id].status == Failed && !repository.commands[lease.id].applied
      ensures outcome == Retrying ==>
                && repository.commands[lease.id].status == Pending
                && repository.commands[lease.id].nextAttempt == last + retryDelay
      ensures (&& (more == [] || decided.Retry?) && Holds(old(repository.Rows()), lease, last)
               && Fits(old(repository.commands)[lease.id].applied, decided)) ==>
                outcome != LeaseGone
    {
      hide Run, Leads;
      ghost var start := repository.Rows();
      ghost var db := start;
      LeadsNowhere(start);
      steps := [];
      var ending := decided;
      if ending == Complete || ending == Fail {
        Others(more);
        steps, db := more, repository.Rows();
      }
      if ending == Complete && !refreshed { ending := Retry(true); }
      var ok, step := Conclude(lease, ending, last);
      LeadsOn(start, steps, db, [step], repository.Rows());
      steps := steps + [step];
      outcome := if !ok then LeaseGone else OutcomeOf(ending);
    }

    /** ProcessNext: claim, validate, apply, refresh, complete. `others` happen before the
        statement after the claim, `more` before the last one of a turn that applied. */
    method ProcessNext(provider: Validation, refreshed: bool, t: Times, locked: set<int>, others: seq<Step>,
                       more: seq<Step>)
      returns (outcome: Outcome, id: int, ghost trace: seq<Step>)
      modifies repository
      ensures Leads(old(repository.Rows()), trace, repository.Rows())
      ensures outcome == Idle ==> repository.Rows() == old(repository.Rows())
      ensures outcome in {Finished, Rejected, Retrying} ==> id in repository.commands
      ensures outcome == Finished ==>
                repository.commands[id].status == Succeeded && repository.commands[id].applied
      ensures outcome == Rejected ==>
                repository.commands[id].status == Failed && !repository.commands[id].applied
      ensures outcome == Retrying ==>
                && repository.commands[id].status == Pending
                && repository.commands[id].nextAttempt == t.last + retryDelay
      ensures others == [] && more == [] && WithinLease(t, leaseDuration) ==> outcome != LeaseGone
      ensures outcome == Idle <==> Takeable(old(repository.commands), t.claim, locked) == {}
      ensures outcome != Idle ==>
                && IsFirst(Takeable(old(repository.commands), t.claim, locked),
                           NextAttempts(old(repository.commands)), id)
                && id in old(repository.commands)
      ensures outcome != Idle && old(repository.commands)[id].applied ==>
                outcome in {if refreshed then Finished else Retrying, LeaseGone}
      ensures outcome != Idle && !old(repository.commands)[id].applied ==>
                var c := old(repository.commands)[id];
                var lease := Lease(id, owner, c.attempt + 1);
                var found := AfterClaim(old(repository.Rows()), lease, leaseDuration, t.claim, others);
                var asked := c.kind != Pause && c.kind != DeleteCandidate;
                && (asked && provider == Temporary ==> outcome in {Retrying, LeaseGone})
                && (asked && provider == Permanent ==> outcome in {Rejected, LeaseGone})
                && (!asked || provider.Identity? ==>
                      var r := ApplyCommand(found, lease, if asked then provider.key else "", t.apply, t.mark);
                      && (r.Err? ==> outcome in {Rejected, LeaseGone})
                      && (r.Ok? ==> outcome in {if refreshed then Finished else Retrying, LeaseGone}))
    {
      hide Run, ApplyCommand, Leads, Takeable, NextAttempts, AfterClaim;
      ghost var start := repository.Rows();
      LeadsNowhere(start);
      trace := [];
      var claimed, applied := repository.Claim(owner, leaseDuration, t.claim, locked);
      if claimed == None {
        return Idle, 0, [];
      }
      var lease := claimed.value;
      id := lease.id;
      var kind := repository.commands[id].kind;
      ghost var db := repository.Rows();
      trace := [ClaimStep(id, owner, leaseDuration, t.claim)];
      ClaimLeads(start, locked, owner, leaseDuration, t.claim, id);

      Others(others);
      LeadsOn(start, trace, db, others, repository.Rows());
      trace, db := trace + others, repository.Rows();
      LeadsTo(start, lease, leaseDuration, t.claim, others, db);

      var ending := Complete;
      if !applied {
        ghost var steps;
        ending, steps := ValidateAndApply(lease, kind, provider, t);
        LeadsOn(start, trace, db, steps, repository.Rows());
        trace, db := trace + steps, repository.Rows();
      }
      ghost var last;
      outcome, last := RefreshAndConclude(lease, ending, refreshed, more, t.last);
      LeadsOn(start, trace, db, last, repository.Rows());
      trace := trace + last;
    }
  }

  /** The database a worker finds after its claim and whatever the others did then. */
  ghost function AfterClaim(start: Db, lease: Lease, duration: int, at: int, others: seq<Step>): Db {
    Run(System(start, map[]), [ClaimStep(lease.id, lease.owner, duration, at)] + others).db
  }

  datatype Ending = Complete | Fail | Retry(applied: bool)

  predicate Fits(applied: bool, ending: Ending) {
    match ending case Complete => applied case Fail => !applied case Retry(b) => applied == b
  }

  function EndStatus(ending: Ending): Status {
    match ending case Complete => Succeeded case Fail => Failed case Retry(_) => Pending
  }

  function OutcomeOf(ending: Ending): Outcome {
    match ending case Complete => Finished case Fail => Rejected case Retry(_) => Retrying
  }

  /** No statement of the turn comes after the lease has run out. */
  predicate WithinLease(t: Times, duration: int) {
    t.apply < t.claim + duration && t.mark < t.claim + duration && t.last < t.claim + duration
  }

  lemma ApplyFacts(db: Db, lease: Lease, key: Key, now: int, later: int)
    ensures match ApplyCommand(db, lease, key, now, later)
            case Ok(d) =>
              && lease.id in db.commands
              && d.commands == db.commands[lease.id := db.commands[lease.id].(applied := true)]
            case Err(_) => Holds(db, lease, now) ==> !db.commands[lease.id].applied
  {
  }

  lemma ClaimLeads(start: Db, locked: set<int>, owner: string, duration: int, now: int, id: int)
    requires IsFirst(Takeable(start.commands, now, locked), NextAttempts(start.commands), id)
    ensures id in start.commands
    ensures Leads(start, [ClaimStep(id, owner, duration, now)], ClaimRow(start, id, owner, duration, now))
  {
    hide Leads, ClaimRow;
    LeadsStep(start, ClaimStep(id, owner, duration, now), ClaimRow(start, id, owner, duration, now));
  }

  lemma LeadsTo(start: Db, lease: Lease, duration: int, at: int, others: seq<Step>, end: Db)
    requires Leads(start, [ClaimStep(lease.id, lease.owner, duration, at)] + others, end)
    ensures end == AfterClaim(start, lease, duration, at, others)
  {
  }

  /** The lease is live at each of the turn's statements. */
  predicate HeldThrough(db: Db, lease: Lease, t: Times) {
    Holds(db, lease, t.apply) && Holds(db, lease, t.mark) && Holds(db, lease, t.last)
  }

  lemma LeadsNowhere(db: Db)
    ensures Leads(db, [], db)
  {
  }
}
