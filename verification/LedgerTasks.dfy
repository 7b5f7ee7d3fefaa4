/** Durable ledger tasks: claims, completions, retries and dead letters as guarded updates
    of one row (internal/companyfund/ledger_task_worker.go). Instants are microseconds,
    durations nanoseconds. */
module LedgerTasks {
  import opened Wrappers
  import opened DueQueue
  import opened Ordering

  datatype State = Waiting | Leased | Completed | DeadLetter

  datatype LeaseMark = LeaseMark(owner: string, expires: int)

  datatype Task = Task(
    state: State, lease: Option<LeaseMark>, attempt: nat, nextAttempt: int, slaExpires: int, subject: Option<int>)

  /** What a processor remembers of its claim. */
  datatype Lease = Lease(id: int, owner: string, attempt: nat)

  type Tasks = map<int, Task>

  const MINUTE_MICROS := 60_000_000

  function Micros(nanos: int): int {
    if nanos >= 0 then nanos / 1000 else -(-nanos / 1000)
  }

  /** A retry that names no positive delay waits a minute. */
  function RetryMicros(retryAfter: int): int {
    if retryAfter <= 0 then MINUTE_MICROS else Micros(retryAfter)
  }

  /** Durations lose what is below a microsecond, towards zero. */
  lemma MicrosTruncate(nanos: int)
    ensures Micros(-nanos) == -Micros(nanos)
    ensures 0 <= nanos ==> 1000 * Micros(nanos) <= nanos < 1000 * (Micros(nanos) + 1)
    ensures RetryMicros(nanos) == if nanos <= 0 then 60_000_000 else Micros(nanos)
  {
  }

  predicate Claimable(t: Task, now: int) {
    || (t.state == Waiting && (t.nextAttempt <= now || t.slaExpires <= now))
    || (t.state == Leased && t.lease.Some? && t.lease.value.expires <= now)
  }

  /** Waiting with its next attempt or its SLA instant reached, or leased under a lease that
      has run out. */
  ghost predicate IsDue(t: Task, now: int) {
    match t.state
    case Waiting => now >= t.nextAttempt || now >= t.slaExpires
    case Leased => exists owner, expires :: t.lease == Some(LeaseMark(owner, expires)) && now >= expires
    case _ => false
  }

  lemma DueIsClaimable(tasks: Tasks, now: int, locked: set<int>)
    ensures forall id :: id in tasks ==> (IsDue(tasks[id], now) <==> Claimable(tasks[id], now))
    ensures Takeable(tasks, now, locked) == {} <==>
            forall id :: id in tasks && id !in locked ==> !IsDue(tasks[id], now)
  {
    forall id | id in tasks
      ensures IsDue(tasks[id], now) <==> Claimable(tasks[id], now)
    {
      var t := tasks[id];
      if t.lease.Some? { assert t.lease == Some(LeaseMark(t.lease.value.owner, t.lease.value.expires)); }
    }
    if id :| id in tasks && id !in locked && IsDue(tasks[id], now) {
      assert id in Takeable(tasks, now, locked);
    } else {
      assert forall id :: id !in Takeable(tasks, now, locked);
    }
  }

  predicate Holds(tasks: Tasks, lease: Lease, now: int) {
    && lease.id in tasks
    && var t := tasks[lease.id];
    && t.state == Leased && t.attempt == lease.attempt
    && t.lease.Some? && t.lease.value.owner == lease.owner && now < t.lease.value.expires
  }

  function Takeable(tasks: Tasks, now: int, locked: set<int>): set<int> {
    set id | id in tasks && Claimable(tasks[id], now) && id !in locked
  }

  function NextAttempts(tasks: Tasks): map<int, int> {
    map id | id in tasks :: tasks[id].nextAttempt
  }

  function ClaimRow(t: Task, owner: string, duration: int, now: int): Task {
    t.(state := Leased, lease := Some(LeaseMark(owner, now + Micros(duration))), attempt := t.attempt + 1)
  }

  function CompleteRow(t: Task, subject: Option<int>): Task {
    t.(state := Completed, lease := None, subject := if subject.Some? then subject else t.subject)
  }

  function RetryRow(t: Task, retryAfter: int, now: int): Task {
    if t.slaExpires <= now then t.(state := DeadLetter, lease := None)
    else t.(state := Waiting, lease := None, nextAttempt := now + RetryMicros(retryAfter))
  }

  function DeadLetterRow(t: Task): Task {
    t.(state := DeadLetter, lease := None)
  }

  /** What the four statements make of a row, all else staying: a claim leases it and counts
      the attempt, completing ends it and keeps its subject unless another is given, retrying
      makes it wait before its SLA instant and ends it from then on, burying ends it. */
  lemma RowsBecome(t: Task, owner: string, duration: int, subject: Option<int>, now: int)
    ensures ClaimRow(t, owner, duration, now)
            == Task(Leased, Some(LeaseMark(owner, now + Micros(duration))), t.attempt + 1, t.nextAttempt,
                    t.slaExpires, t.subject)
    ensures var kept := if subject == None then t.subject else subject;
            CompleteRow(t, subject) == Task(Completed, None, t.attempt, t.nextAttempt, t.slaExpires, kept)
    ensures RetryRow(t, duration, now)
            == if now < t.slaExpires
               then Task(Waiting, None, t.attempt, now + RetryMicros(duration), t.slaExpires, t.subject)
               else Task(DeadLetter, None, t.attempt, t.nextAttempt, t.slaExpires, t.subject)
    ensures DeadLetterRow(t) == Task(DeadLetter, None, t.attempt, t.nextAttempt, t.slaExpires, t.subject)
  {
  }

  // ---- The table -------------------------------------------------------------------------

  datatype Outcome = Retrying | Dead | LeaseLost

  class TaskTable {
    var tasks: Tasks

    method Claim(owner: string, duration: int, now: int, locked: set<int>) returns (claimed: Option<Lease>)
      modifies this
      ensures claimed == None ==> tasks == old(tasks) && Takeable(tasks, now, locked) == {}
      ensures claimed.Some? ==>
                var id := claimed.value.id;
                && IsFirst(Takeable(old(tasks), now, locked), NextAttempts(old(tasks)), id)
                && tasks == old(tasks)[id := ClaimRow(old(tasks)[id], owner, duration, now)]
                && claimed == Some(Lease(id, owner, old(tasks)[id].attempt + 1))
    {
      var candidates := Takeable(tasks, now, locked);
      if candidates == {} {
        return None;
      }
      var id := PickFirst(candidates, NextAttempts(tasks));
      var t := tasks[id];
      var lease := Some(LeaseMark(owner, now + Micros(duration)));
      tasks := tasks[id := t.(state := Leased, lease := lease, attempt := t.attempt + 1)];
      return Some(Lease(id, owner, t.attempt + 1));
    }

    method Complete(lease: Lease, subject: Option<int>, now: int) returns (ok: bool)
      modifies this
      ensures ok <==> Holds(old(tasks), lease, now)
      ensures tasks == if ok then old(tasks)[lease.id := CompleteRow(old(tasks)[lease.id], subject)] else old(tasks)
    {
      ok := Holds(tasks, lease, now);
      if ok {
        var t := tasks[lease.id];
        var linked := if subject.Some? then subject else t.subject;
        tasks := tasks[lease.id := t.(state := Completed, lease := None, subject := linked)];
      }
    }

    method Retry(lease: Lease, retryAfter: int, now: int) returns (outcome: Outcome)
      modifies this
      ensures outcome == LeaseLost <==> !Holds(old(tasks), lease, now)
      ensures outcome == Dead <==> Holds(old(tasks), lease, now) && old(tasks)[lease.id].slaExpires <= now
      ensures tasks == if outcome == LeaseLost then old(tasks)
                       else old(tasks)[lease.id := RetryRow(old(tasks)[lease.id], retryAfter, now)]
    {
      var delay := if retryAfter <= 0 then MINUTE_MICROS else Micros(retryAfter);
      if !Holds(tasks, lease, now) {
        return LeaseLost;
      }
      var t := tasks[lease.id];
      if t.slaExpires <= now {
        tasks := tasks[lease.id := t.(state := DeadLetter, lease := None)];
        return Dead;
      }
      tasks := tasks[lease.id := t.(state := Waiting, lease := None, nextAttempt := now + delay)];
      return Retrying;
    }

    method Bury(lease: Lease, now: int) returns (ok: bool)
      modifies this
      ensures ok <==> Holds(old(tasks), lease, now)
      ensures tasks == if ok then old(tasks)[lease.id := DeadLetterRow(old(tasks)[lease.id])] else old(tasks)
    {
      ok := Holds(tasks, lease, now);
      if ok {
        tasks := tasks[lease.id := tasks[lease.id].(state := DeadLetter, lease := None)];
      }
    }

    /** MIN over the rows that can still move. */
    method NextDue() returns (due: Option<int>)
      ensures IsNextDue(tasks, due)
    {
      var rest := tasks.Keys;
      due := None;
      while rest != {}
        invariant rest <= tasks.Keys
        invariant forall id :: id in tasks && id !in rest && DueAt(tasks[id]).Some? ==>
                    due.Some? && due.value <= DueAt(tasks[id]).value
        invariant due.Some? ==> exists id :: id in tasks && DueAt(tasks[id]) == due
        decreases rest
      {
        ghost var some := SomeMember(rest);
        var id :| id in rest;
        var at := DueAt(tasks[id]);
        if at.Some? && (due.None? || at.value < due.value) {
          due := at;
        }
        rest := rest - {id};
      }
    }
  }

  function Least(a: int, b: int): int {
    if a <= b then a else b
  }

  function DueAt(t: Task): Option<int> {
    if t.state == Waiting then Some(Least(t.nextAttempt, t.slaExpires))
    else if t.state == Leased && t.lease.Some? then Some(t.lease.value.expires)
    else None
  }

  ghost predicate IsNextDue(tasks: Tasks, due: Option<int>) {
    && (forall id :: id in tasks && DueAt(tasks[id]).Some? ==> due.Some? && due.value <= DueAt(tasks[id]).value)
    && (due.Some? ==> exists id :: id in tasks && DueAt(tasks[id]) == due)
  }

  /** The scheduler may sleep until the next due instant without missing work: something is
      claimable at `now` exactly when the next due instant exists and has come. */
  lemma ClaimableExactlyWhenDue(tasks: Tasks, due: Option<int>, now: int)
    requires IsNextDue(tasks, due)
    ensures Takeable(tasks, now, {}) != {} <==> due.Some? && due.value <= now
  {
    if due.Some? && due.value <= now {
      var id :| id in tasks && DueAt(tasks[id]) == due;
      assert id in Takeable(tasks, now, {});
    }
    if Takeable(tasks, now, {}) != {} {
      var id := SomeMember(Takeable(tasks, now, {}));
      assert DueAt(tasks[id]).Some?;
    }
  }

  // ---- Runs ------------------------------------------------------------------------------

  datatype Action =
    | Claim(id: int, owner: string, duration: int)
    | Complete(lease: Lease, subject: Option<int>)
    | Retry(lease: Lease, retryAfter: int)
    | Bury(lease: Lease)
    | Enqueue(id: int, nextAttempt: int, slaExpires: int, subject: Option<int>)

  datatype Step = Step(now: int, action: Action)

  function Next(tasks: Tasks, step: Step): Tasks {
    var now := step.now;
    match step.action
    case Claim(id, owner, duration) =>
      if id in tasks && Claimable(tasks[id], now) then tasks[id := ClaimRow(tasks[id], owner, duration, now)] else tasks
    case Complete(lease, subject) =>
      if Holds(tasks, lease, now) then tasks[lease.id := CompleteRow(tasks[lease.id], subject)] else tasks
    case Retry(lease, retryAfter) =>
      if Holds(tasks, lease, now) then tasks[lease.id := RetryRow(tasks[lease.id], retryAfter, now)] else tasks
    case Bury(lease) =>
      if Holds(tasks, lease, now) then tasks[lease.id := DeadLetterRow(tasks[lease.id])] else tasks
    case Enqueue(id, nextAttempt, slaExpires, subject) =>
      if id in tasks then tasks else tasks[id := Task(Waiting, None, 0, nextAttempt, slaExpires, subject)]
  }

  function Run(tasks: Tasks, steps: seq<Step>): Tasks {
    if steps == [] then tasks else Next(Run(tasks, steps[..|steps| - 1]), steps[|steps| - 1])
  }

  function LeaseOf(a: Action): Option<Lease> {
    match a
    case Complete(l, _) => Some(l)
    case Retry(l, _) => Some(l)
    case Bury(l) => Some(l)
    case _ => None
  }

  ghost predicate Terminal(t: Task) {
    t.state == Completed || t.state == DeadLetter
  }

  /** One step's effect on one row: attempts never go back, the SLA instant is fixed, a
      terminal row stays, a leased row changes only through its live holder or a claim after
      expiry, and a row becomes WAITING only before its SLA instant. */
  lemma RowChanges(tasks: Tasks, step: Step, id: int)
    requires id in tasks
    ensures id in Next(tasks, step)
    ensures var before, after := tasks[id], Next(tasks, step)[id];
            && before.attempt <= after.attempt
            && after.slaExpires == before.slaExpires
            && (Terminal(before) ==> after == before)
            && (before.state == Leased && after != before ==>
                  || (step.action.Claim? && before.lease.Some? && before.lease.value.expires <= step.now)
                  || (LeaseOf(step.action).Some? && LeaseOf(step.action).value.id == id
                      && Holds(tasks, LeaseOf(step.action).value, step.now)))
            && (after.state == Waiting && before.state != Waiting ==> step.now < before.slaExpires)
  {
  }

  /** Over any run a completed or dead task stays as it is, attempts never go back, and a
      processor whose attempt is outdated, whose owner differs or whose task has ended can
      no longer change anything. */
  lemma OnlyTheHolderActs(tasks: Tasks, steps: seq<Step>, step: Step)
    requires LeaseOf(step.action).Some? && LeaseOf(step.action).value.id in tasks
    requires var lease := LeaseOf(step.action).value;
             var t := tasks[lease.id];
             Terminal(t) || lease.attempt < t.attempt
             || (lease.attempt == t.attempt && t.lease.Some? && t.lease.value.owner != lease.owner)
    ensures var end := Run(tasks, steps); Next(end, step) == end
  {
    hide Run, Next;
    var lease := LeaseOf(step.action).value;
    Fenced(tasks, steps, lease);
    NotHolding(Run(tasks, steps), step);
  }

  ghost predicate ShutOut(tasks: Tasks, lease: Lease) {
    && lease.id in tasks
    && var t := tasks[lease.id];
       Terminal(t) || lease.attempt < t.attempt
       || (lease.attempt == t.attempt && (t.lease.Some? ==> t.lease.value.owner != lease.owner))
  }

  lemma NotHolding(tasks: Tasks, step: Step)
    requires LeaseOf(step.action).Some? && ShutOut(tasks, LeaseOf(step.action).value)
    ensures Next(tasks, step) == tasks
  {
  }

  lemma ShutOutStays(tasks: Tasks, step: Step, lease: Lease)
    requires ShutOut(tasks, lease)
    ensures ShutOut(Next(tasks, step), lease)
  {
  }

  lemma {:induction false} Fenced(tasks: Tasks, steps: seq<Step>, lease: Lease)
    requires ShutOut(tasks, lease)
    ensures ShutOut(Run(tasks, steps), lease)
  {
    hide ShutOut, Next;
    if steps != [] {
      Fenced(tasks, steps[..|steps| - 1], lease);
      ShutOutStays(Run(tasks, steps[..|steps| - 1]), steps[|steps| - 1], lease);
    }
  }

  /** Completed and dead tasks never change again. */
  lemma {:induction false} TerminalStays(tasks: Tasks, steps: seq<Step>, id: int)
    requires id in tasks && Terminal(tasks[id])
    ensures id in Run(tasks, steps) && Run(tasks, steps)[id] == tasks[id]
  {
    hide Next;
    if steps != [] {
      TerminalStays(tasks, steps[..|steps| - 1], id);
      RowChanges(Run(tasks, steps[..|steps| - 1]), steps[|steps| - 1], id);
    }
  }

  /** A task held or ended once its SLA is over never waits again: it is completed, buried,
      or claimed once more. */
  lemma {:induction false} NoWaitingPastSla(tasks: Tasks, steps: seq<Step>, id: int)
    requires id in tasks && tasks[id].state != Waiting
    requires forall i :: 0 <= i < |steps| ==> tasks[id].slaExpires <= steps[i].now
    ensures id in Run(tasks, steps)
    ensures Run(tasks, steps)[id].state != Waiting && Run(tasks, steps)[id].slaExpires == tasks[id].slaExpires
  {
    hide Next;
    if steps != [] {
      NoWaitingPastSla(tasks, steps[..|steps| - 1], id);
      RowChanges(Run(tasks, steps[..|steps| - 1]), steps[|steps| - 1], id);
    }
  }

  /** A step of somebody else, while the lease of `id` lives: it does not act under the
      lease, and if it claims the task it does so before the lease runs out. */
  ghost predicate Bystander(step: Step, holder: Lease, expires: int) {
    && LeaseOf(step.action) != Some(holder)
    && (step.action.Claim? && step.action.id == holder.id ==> step.now < expires)
  }

  /** A leased row is its holder's alone until the lease runs out: over any run of other
      processors' steps it stays exactly as it is. */
  lemma {:induction false} LeaseGuardsTheRow(tasks: Tasks, holder: Lease, expires: int, steps: seq<Step>)
    requires holder.id in tasks
    requires var t := tasks[holder.id];
             t.state == Leased && t.attempt == holder.attempt && t.lease == Some(LeaseMark(holder.owner, expires))
    requires forall i :: 0 <= i < |steps| ==> Bystander(steps[i], holder, expires)
    ensures holder.id in Run(tasks, steps) && Run(tasks, steps)[holder.id] == tasks[holder.id]
  {
    hide Next;
    if steps != [] {
      var front, last := steps[..|steps| - 1], steps[|steps| - 1];
      LeaseGuardsTheRow(tasks, holder, expires, front);
      assert Bystander(last, holder, expires);
      BystanderLeaves(Run(tasks, front), holder, expires, last);
    }
  }

  lemma BystanderLeaves(tasks: Tasks, holder: Lease, expires: int, step: Step)
    requires holder.id in tasks && Bystander(step, holder, expires)
    requires var t := tasks[holder.id];
             t.state == Leased && t.attempt == holder.attempt && t.lease == Some(LeaseMark(holder.owner, expires))
    ensures holder.id in Next(tasks, step) && Next(tasks, step)[holder.id] == tasks[holder.id]
  {
  }

  /** A claim hands the task to exactly one processor: whatever the others do, the new claim
      holds until its lease runs out, and every earlier claim is inert from then on. */
  lemma ClaimFencesOut(tasks: Tasks, claim: Step, steps: seq<Step>, step: Step, t: int)
    requires claim.action.Claim? && claim.action.id in tasks && Claimable(tasks[claim.action.id], claim.now)
    requires LeaseOf(step.action).Some? && LeaseOf(step.action).value.id == claim.action.id
    requires LeaseOf(step.action).value.attempt <= tasks[claim.action.id].attempt
    ensures var holder := Lease(claim.action.id, claim.action.owner, tasks[claim.action.id].attempt + 1);
            var expires := claim.now + Micros(claim.action.duration);
            t < expires && (forall i :: 0 <= i < |steps| ==> Bystander(steps[i], holder, expires)) ==>
              Holds(Run(Next(tasks, claim), steps), holder, t)
    ensures var end := Run(Next(tasks, claim), steps); Next(end, step) == end
  {
    hide Run;
    OnlyTheHolderActs(Next(tasks, claim), steps, step);
    var holder := Lease(claim.action.id, claim.action.owner, tasks[claim.action.id].attempt + 1);
    var expires := claim.now + Micros(claim.action.duration);
    if forall i :: 0 <= i < |steps| ==> Bystander(steps[i], holder, expires) {
      LeaseGuardsTheRow(Next(tasks, claim), holder, expires, steps);
    }
  }

  // ---- ProcessNext -------------------------------------------------------------------------

  /** What processing a lease came to; a `Broken` one failed with an error of its own. */
  datatype Verdict = Done(subject: Option<int>) | Again(retryAfter: int) | Hopeless | Broken

  datatype TurnOutcome = Idle | Finished | WillRetry | Buried | Lost | Failed

  lemma {:induction false} RunAppend(tasks: Tasks, a: seq<Step>, b: seq<Step>)
    ensures Run(tasks, a + b) == Run(Run(tasks, a), b)
  {
    hide Next;
    if b == [] {
      assert a + b == a;
    } else {
      RunAppend(tasks, a, b[..|b| - 1]);
      assert (a + b)[..|a + b| - 1] == a + b[..|b| - 1];
    }
  }

  lemma RunOne(tasks: Tasks, step: Step)
    ensures Run(tasks, [step]) == Next(tasks, step)
  {
    hide Next;
    assert [step][..0] == [];
  }

  /** One turn of the processor, with whatever the others do between its claim and its last
      statement: the turn is a run like any other, and its answer is what the row says. A
      processing error ends the turn with the row still leased. */
  method ProcessNext(
      table: TaskTable, owner: string, duration: int, claimAt: int, others: seq<Step>, verdict: Verdict, endAt: int,
      locked: set<int>)
    returns (outcome: TurnOutcome, id: int, ghost trace: seq<Step>)
    modifies table
    ensures table.tasks == Run(old(table.tasks), trace)
    ensures outcome == Idle ==> table.tasks == old(table.tasks)
    ensures outcome == Idle <==>
            forall other :: other in old(table.tasks) && other !in locked ==> !IsDue(old(table.tasks)[other], claimAt)
    ensures outcome != Idle ==>
              && id in old(table.tasks) && IsDue(old(table.tasks)[id], claimAt)
              && IsFirst(Takeable(old(table.tasks), claimAt, locked), NextAttempts(old(table.tasks)), id)
    ensures outcome in {Finished, WillRetry, Buried} ==> id in table.tasks && table.tasks[id].lease == None
    ensures outcome == Finished ==>
              table.tasks[id].state == Completed && verdict.Done?
              && (verdict.subject.Some? ==> table.tasks[id].subject == verdict.subject)
    ensures outcome == WillRetry ==>
              && table.tasks[id].state == Waiting && verdict.Again? && endAt < table.tasks[id].slaExpires
              && table.tasks[id].nextAttempt == endAt + RetryMicros(verdict.retryAfter)
    ensures outcome == Buried ==>
              && table.tasks[id].state == DeadLetter
              && (verdict.Hopeless? || (verdict.Again? && table.tasks[id].slaExpires <= endAt))
    ensures outcome == Failed ==>
              && verdict.Broken? && trace != []
              && (others == [] ==> id in table.tasks && table.tasks[id].state == Leased
                                   && table.tasks[id].lease == Some(LeaseMark(owner, claimAt + Micros(duration))))
    ensures outcome != Idle && verdict.Broken? ==> outcome == Failed
    ensures others == [] && endAt < claimAt + Micros(duration) ==> outcome != Lost
    ensures outcome != Idle && !verdict.Broken? ==>
              && id in old(table.tasks) && trace != []
              && (outcome == Lost <==>
                    !Holds(Run(old(table.tasks), trace[..|trace| - 1]),
                           Lease(id, owner, old(table.tasks)[id].attempt + 1), endAt))
              && (old(table.tasks)[id].slaExpires <= endAt ==> outcome in {Finished, Buried, Lost})
  {
    hide Run;
    ghost var start := table.tasks;
    DueIsClaimable(start, claimAt, locked);
    RunNothing(start);
    var claimed := table.Claim(owner, duration, claimAt, locked);
    if claimed == None {
      return Idle, 0, [];
    }
    var lease := claimed.value;
    id := lease.id;
    RunOne(start, Step(claimAt, Action.Claim(id, owner, duration)));
    trace := [Step(claimAt, Action.Claim(id, owner, duration))];
    RunAppend(start, trace, others);
    RunNothing(table.tasks);
    table.tasks := Run(table.tasks, others);
    trace := trace + others;
    if verdict.Broken? {
      return Failed, id, trace;
    }
    ghost var before := table.tasks;
    ghost var last: Step;
    match verdict {
      case Done(subject) =>
        var ok := table.Complete(lease, subject, endAt);
        last := Step(endAt, Action.Complete(lease, subject));
        outcome := if ok then Finished else Lost;
      case Again(retryAfter) =>
        var answer := table.Retry(lease, retryAfter, endAt);
        last := Step(endAt, Action.Retry(lease, retryAfter));
        outcome := match answer case Retrying => WillRetry case Dead => Buried case LeaseLost => Lost;
      case Hopeless =>
        var ok := table.Bury(lease, endAt);
        last := Step(endAt, Action.Bury(lease));
        outcome := if ok then Buried else Lost;
    }
    RunAppend(start, trace, [last]);
    RunOne(before, last);
    SlaFixed(start, trace, id);
    assert (trace + [last])[..|trace|] == trace;
    trace := trace + [last];
  }

  lemma {:induction false} SlaFixed(tasks: Tasks, steps: seq<Step>, id: int)
    requires id in tasks
    ensures id in Run(tasks, steps) && Run(tasks, steps)[id].slaExpires == tasks[id].slaExpires
  {
    hide Next;
    if steps != [] {
      SlaFixed(tasks, steps[..|steps| - 1], id);
      RowChanges(Run(tasks, steps[..|steps| - 1]), steps[|steps| - 1], id);
    }
  }

  // ---- Turns at or after the SLA instant ---------------------------------------------------

  /** The statement a verdict ends its turn with; an error ends it with none. */
  function LastStatement(tasks: Tasks, lease: Lease, verdict: Verdict, now: int): Tasks {
    match verdict
    case Done(subject) => Next(tasks, Step(now, Action.Complete(lease, subject)))
    case Again(retryAfter) => Next(tasks, Step(now, Action.Retry(lease, retryAfter)))
    case Hopeless => Next(tasks, Step(now, Action.Bury(lease)))
    case Broken => tasks
  }

  /** A turn that ends at or after the task's SLA instant ends the task, by completing or
      burying it, if and only if processing did not fail with an error and the lease is still
      live; with only bystanders in between that is when it ends before the lease runs out. */
  lemma PastSlaTurnEnds(tasks: Tasks, claim: Step, others: seq<Step>, verdict: Verdict, endAt: int)
    requires claim.action.Claim? && claim.action.id in tasks && Claimable(tasks[claim.action.id], claim.now)
    requires tasks[claim.action.id].slaExpires <= endAt
    ensures var id := claim.action.id;
            var holder := Lease(id, claim.action.owner, tasks[id].attempt + 1);
            var expires := claim.now + Micros(claim.action.duration);
            var held := Run(Next(tasks, claim), others);
            var end := LastStatement(held, holder, verdict, endAt);
            && id in held && id in end
            && (end[id] != held[id] <==> !verdict.Broken? && Holds(held, holder, endAt))
            && (end[id] != held[id] ==> Terminal(end[id]))
            && ((forall i :: 0 <= i < |others| ==> Bystander(others[i], holder, expires)) ==>
                  (Terminal(end[id]) <==> !verdict.Broken? && endAt < expires))
  {
    hide Run;
    var id := claim.action.id;
    var holder := Lease(id, claim.action.owner, tasks[id].attempt + 1);
    var expires := claim.now + Micros(claim.action.duration);
    SlaFixed(Next(tasks, claim), others, id);
    if forall i :: 0 <= i < |others| ==> Bystander(others[i], holder, expires) {
      LeaseGuardsTheRow(Next(tasks, claim), holder, expires, others);
    }
  }

  /** Claims at 100, 110, 120 and so on, each under a lease of ten microseconds. */
  function ErringTurns(n: nat): (steps: seq<Step>)
    ensures |steps| == n
  {
    seq(n, i => Step(100 + 10 * i, Action.Claim(1, "worker", 10_000)))
  }

  /** A task whose processing always errors outlives its SLA: however often it is claimed
      after instant 50, it is leased again. */
  lemma {:induction false} ErringTaskOutlivesItsSla(n: nat)
    ensures var t := Task(Waiting, None, 0, 0, 50, None);
            var end := Run(map[1 := t], ErringTurns(n));
            && 1 in end && end[1].attempt == n && !Terminal(end[1]) && end[1].slaExpires == 50
            && (n > 0 ==> end[1].state == Leased && end[1].lease == Some(LeaseMark("worker", 100 + 10 * n)))
  {
    if n > 0 {
      ErringTaskOutlivesItsSla(n - 1);
      assert ErringTurns(n)[..n - 1] == ErringTurns(n - 1);
    }
  }

  lemma RunNothing(tasks: Tasks)
    ensures Run(tasks, []) == tasks
  {
  }
}
