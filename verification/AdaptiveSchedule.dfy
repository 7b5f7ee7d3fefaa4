/** Background loops that share one maintenance window
    (internal/adaptiveschedule/loop.go, maintenance.go). Instants are nanoseconds. */
module AdaptiveSchedule {
  import opened Wrappers
  import opened Backoff

  const DEFAULT_MAX_IDLE := 600_000_000_000
  const DEFAULT_OPEN_FOR := 5_000_000_000
  const MILLISECOND := 1_000_000

  // ---- The window --------------------------------------------------------------------------

  /** `None` is the zero time. */
  datatype Window = Window(maxIdle: int, openFor: int, openUntil: Option<int>, nextOpen: Option<int>)

  function DefaultOpenFor(maxIdle: int): int {
    if maxIdle <= 0 then DEFAULT_OPEN_FOR
    else if maxIdle < 5 * DEFAULT_OPEN_FOR then
      if maxIdle / 5 < MILLISECOND then MILLISECOND else maxIdle / 5
    else DEFAULT_OPEN_FOR
  }

  /** The defaults Allow fills in. */
  function Filled(w: Window): Window {
    var maxIdle := if w.maxIdle <= 0 then DEFAULT_MAX_IDLE else w.maxIdle;
    w.(maxIdle := maxIdle, openFor := if w.openFor <= 0 then DefaultOpenFor(maxIdle) else w.openFor)
  }

  predicate InGrace(w: Window, now: int) {
    w.openUntil.Some? && now < w.openUntil.value
  }

  predicate Opens(w: Window, now: int) {
    !InGrace(w, now) && (w.nextOpen.None? || now >= w.nextOpen.value)
  }

  /** The window after being asked at `now`. */
  function Asked(raw: Window, now: int): Window {
    var w := Filled(raw);
    if Opens(w, now) then w.(openUntil := Some(now + w.openFor), nextOpen := Some(now + w.maxIdle)) else w
  }

  predicate Allowed(raw: Window, now: int) {
    InGrace(raw, now) || Opens(raw, now)
  }

  /** The window lets through who asks before the grace period has run out, or once the next
      opening has come, and in the second case opens for the grace period, the next time a
      quiet budget later. */
  lemma AskedMeans(w: Window, now: int)
    ensures Allowed(w, now) <==>
            || (exists until :: w.openUntil == Some(until) && now < until)
            || (forall next :: w.nextOpen == Some(next) ==> next <= now)
    ensures var t := Asked(w, now);
            && (w.maxIdle > 0 ==> t.maxIdle == w.maxIdle) && (w.openFor > 0 ==> t.openFor == w.openFor)
            && (w.maxIdle <= 0 ==> t.maxIdle == 600_000_000_000)
            && (if (exists until :: w.openUntil == Some(until) && now < until) || !Allowed(w, now)
                then t.openUntil == w.openUntil && t.nextOpen == w.nextOpen
                else t.openUntil == Some(now + t.openFor) && t.nextOpen == Some(now + t.maxIdle))
  {
    if w.openUntil.Some? { assert w.openUntil == Some(w.openUntil.value); }
    if w.nextOpen.Some? { assert w.nextOpen == Some(w.nextOpen.value); }
  }

  /** The default grace period: a fifth of the quiet budget, at least a millisecond and at
      most five seconds. */
  lemma DefaultGrace(maxIdle: int)
    ensures var grace := DefaultOpenFor(maxIdle);
            && 1_000_000 <= grace <= 5_000_000_000
            && (maxIdle <= 0 ==> grace == 5_000_000_000)
            && (0 < maxIdle && 1_000_000 < grace < 5_000_000_000 ==> grace == maxIdle / 5)
            && (0 < maxIdle && grace == 1_000_000 ==> maxIdle / 5 <= 1_000_000)
            && (0 < maxIdle && grace == 5_000_000_000 ==> maxIdle >= 25_000_000_000)
  {
  }

  class MaintenanceWindow {
    var maxIdle: int
    var openFor: int
    var openUntil: Option<int>
    var nextOpen: Option<int>

    ghost function State(): Window
      reads this
    {
      Window(maxIdle, openFor, openUntil, nextOpen)
    }

    constructor (maxIdle: int)
      ensures this.maxIdle > 0 && this.openFor == DefaultOpenFor(this.maxIdle)
      ensures maxIdle > 0 ==> this.maxIdle == maxIdle
      ensures openUntil == None && nextOpen == None
    {
      var idle := if maxIdle <= 0 then DEFAULT_MAX_IDLE else maxIdle;
      this.maxIdle, openFor, openUntil, nextOpen := idle, DefaultOpenFor(idle), None, None;
    }

    method Allow(now: int) returns (allowed: bool, next: Option<int>)
      modifies this
      ensures State() == Asked(old(State()), now)
      ensures allowed == Allowed(old(State()), now) && next == nextOpen
      ensures !allowed ==> next.Some? && now < next.value
    {
      if maxIdle <= 0 { maxIdle := DEFAULT_MAX_IDLE; }
      if openFor <= 0 { openFor := DefaultOpenFor(maxIdle); }
      if openUntil.Some? && now < openUntil.value {
        return true, nextOpen;
      }
      if nextOpen.None? || now >= nextOpen.value {
        openUntil := Some(now + openFor);
        nextOpen := Some(now + maxIdle);
        return true, nextOpen;
      }
      return false, nextOpen;
    }
  }

  // ---- One pass of a loop ------------------------------------------------------------------

  datatype Config = Config(minIdle: Duration, maxIdle: Duration)

  ghost predicate ValidConfig(c: Config) {
    0 < c.minIdle <= c.maxIdle
  }

  datatype LoopState = LoopState(idle: Duration, forcedDue: Option<int>, pendingWake: bool)

  const STARTED := LoopState(0, None, false)

  datatype CycleOutcome = CycleOutcome(worked: bool, moreWork: bool, nextDue: Option<int>)

  /** What the surroundings answer during a pass: wakes drained before it, the clock at the
      gate and after the cycle, the cycle's outcome, and whether a wake ends the wait. */
  datatype Pass = Pass(drained: bool, now: int, outcome: CycleOutcome, after: int, woken: bool)

  predicate DueForced(s: LoopState, now: int) {
    s.forcedDue.Some? && now >= s.forcedDue.value
  }

  /** Whether the pass has to ask the shared window. */
  predicate AsksGate(s: LoopState, p: Pass) {
    s.idle > 0 && !(p.drained || s.pendingWake) && !DueForced(s, p.now)
  }

  function WaitUntil(now: int, due: Option<int>): Option<int> {
    if due.Some? && due.value > now then Some(due.value - now) else None
  }

  /** The shorter of a wait and the time to a deadline; a zero wait gives way to it. */
  function Sooner(wait: int, due: Option<int>): int {
    if due.Some? && (wait == 0 || due.value < wait) then due.value else wait
  }

  function IdleNext(c: Config, idle: Duration, o: CycleOutcome): Duration
    requires ValidConfig(c)
  {
    if o.moreWork then 0 else if o.worked || idle == 0 then c.minIdle else NextIdle(idle, c.minIdle, c.maxIdle)
  }

  /** How long the loop sleeps after a cycle. */
  function WaitAfter(c: Config, idle: Duration, p: Pass): int
    requires ValidConfig(c)
  {
    Sooner(IdleNext(c, idle, p.outcome) as int, WaitUntil(p.after, p.outcome.nextDue))
  }

  /** The state after a pass; `allowed` is the gate's answer when it was asked. */
  function PassState(c: Config, s: LoopState, p: Pass, allowed: bool): LoopState
    requires ValidConfig(c)
  {
    if AsksGate(s, p) && !allowed then
      if p.woken then s.(idle := c.minIdle, pendingWake := true) else s.(pendingWake := false)
    else
      var idle := IdleNext(c, s.idle, p.outcome);
      var slept := WaitAfter(c, s.idle, p) > 0;
      if slept && p.woken then LoopState(c.minIdle, p.outcome.nextDue, true)
      else LoopState(idle, p.outcome.nextDue, false)
  }

  /** When a pass has to ask the window: it has been idle, nobody woke it, and no deadline it
      was promised has come. */
  lemma AsksMeans(s: LoopState, p: Pass)
    ensures AsksGate(s, p) <==>
            && s.idle > 0 && !p.drained && !s.pendingWake
            && forall d :: s.forcedDue == Some(d) ==> p.now < d
  {
    if s.forcedDue.Some? { assert s.forcedDue == Some(s.forcedDue.value); }
  }

  /** What a cycle leaves and how long the loop sleeps after it: work resets the idle time,
      more work re-enters, a quiet cycle idles longer, a deadline ahead cuts the sleep short,
      and a wake during the sleep resets the idle time and is remembered. */
  lemma CycleMeans(c: Config, s: LoopState, p: Pass, allowed: bool)
    requires ValidConfig(c) && (AsksGate(s, p) ==> allowed)
    ensures var t, wait := PassState(c, s, p, allowed), WaitAfter(c, s.idle, p);
            && t.forcedDue == p.outcome.nextDue
            && 0 <= wait && (wait == 0 ==> p.outcome.moreWork)
            && (p.outcome.nextDue.Some? && p.after < p.outcome.nextDue.value ==>
                  p.after + wait <= p.outcome.nextDue.value)
            && (wait > 0 && p.woken ==> t.idle == c.minIdle && t.pendingWake)
            && (wait == 0 || !p.woken ==>
                  && !t.pendingWake
                  && (p.outcome.moreWork ==> t.idle == 0)
                  && (!p.outcome.moreWork && (p.outcome.worked || s.idle == 0) ==> t.idle == c.minIdle)
                  && (!p.outcome.moreWork && !p.outcome.worked && s.idle > 0 ==>
                        t.idle == NextIdle(s.idle, c.minIdle, c.maxIdle))
                  && (wait as int == t.idle as int || Some(p.after + wait) == p.outcome.nextDue))
  {
  }

  /** What a refused pass leaves: nothing but a wake that came during its sleep. */
  lemma RefusalMeans(c: Config, s: LoopState, p: Pass)
    requires ValidConfig(c) && AsksGate(s, p)
    ensures PassState(c, s, p, false)
            == LoopState(if p.woken then c.minIdle else s.idle, s.forcedDue, p.woken)
  {
  }

  class Loop {
    const config: Config
    const shared: MaintenanceWindow?
    var idle: Duration
    var forcedDue: Option<int>
    var pendingWake: bool

    ghost function State(): LoopState
      reads this
    {
      LoopState(idle, forcedDue, pendingWake)
    }

    constructor (config: Config, shared: MaintenanceWindow?)
      ensures this.config == config && this.shared == shared && State() == STARTED
    {
      this.config, this.shared, idle, forcedDue, pendingWake := config, shared, 0, None, false;
    }

    /** One iteration of Run: whether the cycle ran, and how long the loop sleeps after it. */
    method RunPass(p: Pass) returns (ran: bool, wait: int)
      requires ValidConfig(config)
      modifies this, shared
      ensures var asks := AsksGate(old(State()), p) && shared != null;
              var allowed := shared == null || Allowed(old(shared.State()), p.now);
              && ran == (asks ==> allowed)
              && State() == PassState(config, old(State()), p, allowed)
              && (shared != null ==>
                    shared.State() == if asks then Asked(old(shared.State()), p.now) else old(shared.State()))
              && (ran ==> wait == WaitAfter(config, old(State()).idle, p))
              && (!ran ==> wait > 0 && p.now + wait <= shared.State().nextOpen.value)
      ensures !ran ==>
                && (forall d :: old(forcedDue) == Some(d) ==> p.now + wait <= d)
                && (p.now + wait == shared.nextOpen.value || Some(p.now + wait) == old(forcedDue))
    {
      hide NextIdle, Asked, Allowed;
      var hadWake := p.drained || pendingWake;
      pendingWake := false;
      var dueForced := forcedDue.Some? && !(p.now < forcedDue.value);
      if shared != null && idle > 0 && !hadWake && !dueForced {
        var allowed, nextWin := shared.Allow(p.now);
        if !allowed {
          wait := nextWin.value - p.now;
          var due := WaitUntil(p.now, forcedDue);
          if due.Some? && (wait == 0 || due.value < wait) { wait := due.value; }
          if p.woken {
            idle := config.minIdle;
            pendingWake := true;
          }
          return false, wait;
        }
      }
      forcedDue := p.outcome.nextDue;
      if p.outcome.moreWork {
        idle := 0;
      } else if p.outcome.worked || idle == 0 {
        idle := config.minIdle;
      } else {
        idle := NextIdle(idle, config.minIdle, config.maxIdle);
      }
      wait := idle as int;
      var due := WaitUntil(p.after, p.outcome.nextDue);
      if due.Some? && (wait == 0 || due.value < wait) { wait := due.value; }
      if wait > 0 && p.woken {
        idle := config.minIdle;
        pendingWake := true;
      }
      return true, wait;
    }
  }

  /** MoreWork re-enters at once exactly when the cycle reported no deadline still ahead;
      with a future deadline the loop sleeps until it, unlike what the package comment
      says. */
  lemma MoreWorkReentersExactly(c: Config, s: LoopState, p: Pass, next: Pass)
    requires ValidConfig(c) && p.outcome.moreWork
    ensures WaitAfter(c, s.idle, p) == 0 <==> p.outcome.nextDue.None? || p.outcome.nextDue.value <= p.after
    ensures WaitAfter(c, s.idle, p) != 0 ==> p.after + WaitAfter(c, s.idle, p) == p.outcome.nextDue.value
    ensures WaitAfter(c, s.idle, p) == 0 ==> !AsksGate(PassState(c, s, p, true), next)
  {
  }

  /** A cycle that hit its drain limit a second before a reported deadline: the loop sleeps
      that second instead of draining on. */
  lemma MoreWorkSleeps()
    ensures var second := 1_000_000_000;
            var p := Pass(false, 0, CycleOutcome(true, true, Some(second)), 0, false);
            WaitAfter(Config(1_000_000_000, 600_000_000_000), 0, p) == second
  {
  }

  /** A loop left to itself: cycles that find nothing and waits nobody interrupts. */
  ghost predicate Quiet(p: Pass) {
    !p.drained && !p.woken && p.outcome == CycleOutcome(false, false, None)
  }

  function Passes(c: Config, s: LoopState, passes: seq<Pass>): LoopState
    requires ValidConfig(c)
  {
    if passes == [] then s else PassState(c, Passes(c, s, passes[..|passes| - 1]), passes[|passes| - 1], true)
  }

  /** From its start, n > 0 quiet cycles in a row leave a loop idling for MinIdle doubled
      n - 1 times, capped at MaxIdle, and that is how long it sleeps after the last one. */
  lemma {:induction false} QuietCyclesBackOff(c: Config, passes: seq<Pass>)
    requires ValidConfig(c) && passes != [] && forall i :: 0 <= i < |passes| ==> Quiet(passes[i])
    ensures var end := Passes(c, STARTED, passes);
            && end == LoopState(IdleAfter(|passes| - 1, c.minIdle, c.maxIdle), None, false)
            && end.idle as int == Min(c.minIdle as int * Pow2(|passes| - 1), c.maxIdle as int)
            && WaitAfter(c, Passes(c, STARTED, passes[..|passes| - 1]).idle, passes[|passes| - 1]) == end.idle as int
  {
    hide Pow2;
    IdleClosedForm(|passes| - 1, c.minIdle, c.maxIdle);
    if |passes| > 1 {
      QuietCyclesBackOff(c, passes[..|passes| - 1]);
    } else {
      assert Passes(c, STARTED, passes[..0]) == STARTED;
    }
  }

  // ---- DrainProcessOne -------------------------------------------------------------------

  datatype Attempt = Processed | Empty | Failed

  /** Processes until the queue is empty, an attempt fails, or the limit is reached; more
      work is reported exactly when every one of `limit` attempts found some. */
  method DrainProcessOne(attempts: seq<Attempt>, drainLimit: int)
    returns (worked: bool, moreWork: bool, failed: bool, used: nat)
    requires |attempts| >= (if drainLimit <= 0 then 100 else drainLimit)
    ensures var limit := if drainLimit <= 0 then 100 else drainLimit;
            && used <= limit
            && (forall i :: 0 <= i < used ==> attempts[i] == Processed)
            && (used < limit ==> attempts[used] != Processed)
            && worked == (used > 0) && moreWork == (used == limit)
            && failed == (used < limit && attempts[used] == Failed)
  {
    var limit := if drainLimit <= 0 then 100 else drainLimit;
    used := 0;
    while used < limit
      invariant used <= limit && forall i :: 0 <= i < used ==> attempts[i] == Processed
    {
      if attempts[used] == Failed { return used > 0, false, true, used; }
      if attempts[used] == Empty { return used > 0, false, false, used; }
      used := used + 1;
    }
    return true, true, false, used;
  }

  // ---- Many loops, one window ----------------------------------------------------------------

  /** The loops, each with its own configuration, and their window, with the instants at which
      the window opened and at which gated cycles were let through. */
  datatype System = System(window: Window, loops: map<int, LoopState>, openings: seq<int>, starts: seq<int>)

  datatype Turn = Turn(id: int, pass: Pass)

  function StateOf(s: System, id: int): LoopState {
    if id in s.loops then s.loops[id] else STARTED
  }

  ghost predicate AllValid(c: int -> Config) {
    forall id :: ValidConfig(c(id))
  }

  function Next(c: int -> Config, s: System, t: Turn): System
    requires AllValid(c)
  {
    var state := StateOf(s, t.id);
    var allowed := Allowed(s.window, t.pass.now);
    var loops := s.loops[t.id := PassState(c(t.id), state, t.pass, allowed)];
    if !AsksGate(state, t.pass) then s.(loops := loops)
    else System(
        Asked(s.window, t.pass.now), loops,
        if Opens(s.window, t.pass.now) then s.openings + [t.pass.now] else s.openings,
        if allowed then s.starts + [t.pass.now] else s.starts)
  }

  function Run(c: int -> Config, s: System, turns: seq<Turn>): System
    requires AllValid(c)
  {
    if turns == [] then s else Next(c, Run(c, s, turns[..|turns| - 1]), turns[|turns| - 1])
  }

  ghost predicate Monotone(turns: seq<Turn>) {
    forall i, j :: 0 <= i < j < |turns| ==> turns[i].pass.now <= turns[j].pass.now
  }

  function NewSystem(maxIdle: int): System
    requires maxIdle > 0
  {
    System(Window(maxIdle, DefaultOpenFor(maxIdle), None, None), map[], [], [])
  }

  /** `now` is the last instant the gate was asked. */
  ghost predicate Inv(c: int -> Config, s: System, maxIdle: int) {
    && maxIdle > 0 && s.window.maxIdle == maxIdle && s.window.openFor == DefaultOpenFor(maxIdle)
    && (if s.openings == [] then s.window.openUntil == None && s.window.nextOpen == None
        else
          var last := s.openings[|s.openings| - 1];
          s.window.openUntil == Some(last + s.window.openFor) && s.window.nextOpen == Some(last + maxIdle))
    && (forall i :: 0 <= i < |s.openings| - 1 ==> s.openings[i] + maxIdle <= s.openings[i + 1])
    && (forall i :: 0 <= i < |s.starts| ==> LetThrough(s, s.starts[i]))
    && (forall id :: id in s.loops ==> IdleInRange(c(id), s.loops[id].idle))
  }

  /** The instant lies in the grace period of some opening. */
  ghost predicate LetThrough(s: System, start: int) {
    exists j :: StartsIn(s, j, start)
  }

  ghost predicate StartsIn(s: System, j: int, start: int) {
    0 <= j < |s.openings| && s.openings[j] <= start < s.openings[j] + s.window.openFor
  }

  predicate IdleInRange(c: Config, idle: Duration) {
    idle == 0 || c.minIdle <= idle <= c.maxIdle
  }

  ghost predicate NotBefore(s: System, now: int) {
    s.openings != [] ==> s.openings[|s.openings| - 1] <= now
  }

  lemma PassKeepsIdle(c: Config, s: LoopState, p: Pass, allowed: bool)
    requires ValidConfig(c) && IdleInRange(c, s.idle)
    ensures IdleInRange(c, PassState(c, s, p, allowed).idle)
  {
  }

  lemma NextKeeps(c: int -> Config, s: System, t: Turn, maxIdle: int)
    requires AllValid(c) && Inv(c, s, maxIdle) && NotBefore(s, t.pass.now)
    ensures Inv(c, Next(c, s, t), maxIdle) && NotBefore(Next(c, s, t), t.pass.now)
  {
    hide PassState, AsksGate, ValidConfig;
    var state, now := StateOf(s, t.id), t.pass.now;
    PassKeepsIdle(c(t.id), state, t.pass, Allowed(s.window, now));
    var n := Next(c, s, t);
    assert Filled(s.window) == s.window && s.window.openFor > 0;
    forall i | 0 <= i < |n.starts|
      ensures LetThrough(n, n.starts[i])
    {
      if i < |s.starts| {
        assert n.starts[i] == s.starts[i];
        var j :| StartsIn(s, j, s.starts[i]);
        assert n.openings[j] == s.openings[j];
        assert StartsIn(n, j, n.starts[i]);
      } else {
        assert n.starts[i] == now && Allowed(s.window, now);
        assert StartsIn(n, |n.openings| - 1, n.starts[i]);
      }
    }
  }

  lemma MonotoneFront(turns: seq<Turn>)
    requires Monotone(turns) && |turns| > 1
    ensures Monotone(turns[..|turns| - 1])
    ensures turns[|turns| - 2].pass.now <= turns[|turns| - 1].pass.now
  {
  }

  lemma {:induction false} RunKeeps(c: int -> Config, s: System, turns: seq<Turn>, maxIdle: int)
    requires AllValid(c) && Inv(c, s, maxIdle) && Monotone(turns)
    requires turns != [] ==> NotBefore(s, turns[0].pass.now)
    ensures Inv(c, Run(c, s, turns), maxIdle)
    ensures turns != [] ==> NotBefore(Run(c, s, turns), turns[|turns| - 1].pass.now)
  {
    hide Inv, Next, Monotone;
    if turns != [] {
      var front := turns[..|turns| - 1];
      if |turns| > 1 {
        MonotoneFront(turns);
        RunKeeps(c, s, front, maxIdle);
      } else {
        assert Run(c, s, front) == s;
      }
      NextKeeps(c, Run(c, s, front), turns[|turns| - 1], maxIdle);
    }
  }

  lemma {:induction false} Spread(openings: seq<int>, maxIdle: int, i: nat, j: nat)
    requires maxIdle > 0 && i <= j < |openings|
    requires forall k :: 0 <= k < |openings| - 1 ==> openings[k] + maxIdle <= openings[k + 1]
    ensures openings[j] - openings[i] >= (j - i) * maxIdle
  {
    if i < j {
      Spread(openings, maxIdle, i, j - 1);
      assert (j - i) * maxIdle == (j - 1 - i) * maxIdle + maxIdle;
    }
  }

  lemma MulMonotone(a: int, b: int, m: int)
    requires a <= b && m >= 0
    ensures a * m <= b * m
  {
  }

  lemma FitsTimes(n: nat, maxIdle: int, span: int)
    requires maxIdle > 0 && n * maxIdle <= span
    ensures n <= span / maxIdle
  {
    var q := span / maxIdle;
    assert span < (q + 1) * maxIdle;
    if q + 1 <= n {
      MulMonotone(q + 1, n, maxIdle);
      assert false;
    }
  }

  /** However many loops share the window: under a monotone clock every gated cycle is let
      through within `openFor` of an opening, openings are at least MaxIdle apart, so any
      two openings a span T apart enclose at most T/MaxIdle + 1 of them, and every loop's
      idle time is zero or within its bounds. */
  lemma SharedWindowAlignsLoops(c: int -> Config, maxIdle: int, turns: seq<Turn>, i: nat, j: nat)
    requires AllValid(c) && maxIdle > 0 && Monotone(turns)
    requires i <= j < |Run(c, NewSystem(maxIdle), turns).openings|
    ensures var end := Run(c, NewSystem(maxIdle), turns);
            && (forall k :: 0 <= k < |end.starts| ==> LetThrough(end, end.starts[k]))
            && (forall k :: 0 <= k < |end.openings| - 1 ==> end.openings[k] + maxIdle <= end.openings[k + 1])
            && j - i + 1 <= (end.openings[j] - end.openings[i]) / maxIdle + 1
            && (forall id :: id in end.loops ==> IdleInRange(c(id), end.loops[id].idle))
  {
    hide Run, Next, LetThrough;
    RunKeeps(c, NewSystem(maxIdle), turns, maxIdle);
    var end := Run(c, NewSystem(maxIdle), turns);
    var openings := end.openings;
    Spread(openings, maxIdle, i, j);
    FitsTimes(j - i, maxIdle, openings[j] - openings[i]);
  }

  // ---- A blocked loop gets its turn ------------------------------------------------------------

  function AskedAll(w: Window, instants: seq<int>): Window {
    if instants == [] then w else Asked(AskedAll(w, instants[..|instants| - 1]), instants[|instants| - 1])
  }

  ghost predicate AskedWithin(instants: seq<int>, low: int, high: int) {
    forall i :: 0 <= i < |instants| ==> low <= instants[i] <= high
  }

  /** Whatever the other loops asked between `now` and `at`, the window lets a loop through
      at `at`. */
  ghost predicate SureOfTurn(w: Window, now: int, at: int) {
    forall instants :: AskedWithin(instants, now, at) ==> Allowed(AskedAll(w, instants), at)
  }

  /** A loop that was turned away and wakes at or after the next opening is sure to be let
      through exactly during that opening's grace period: waking in time it always is,
      whatever the other loops asked meanwhile, in whatever order their clocks were read;
      waking later it can be refused, because another loop may have used the opening. */
  lemma BlockedThenAllowed(w: Window, now: int, at: int)
    requires w.maxIdle > 0 && w.openFor > 0 && !Allowed(w, now) && w.nextOpen.value <= at
    ensures at < w.nextOpen.value + w.openFor ==> SureOfTurn(w, now, at)
    ensures w.openFor < w.maxIdle ==> (SureOfTurn(w, now, at) <==> at < w.nextOpen.value + w.openFor)
  {
    if at < w.nextOpen.value + w.openFor {
      forall instants | AskedWithin(instants, now, at)
        ensures Allowed(AskedAll(w, instants), at)
      {
        OpenedInTime(w, now, at, instants);
      }
    } else if w.openFor < w.maxIdle {
      var opening := [at - w.openFor];
      assert opening[..0] == [];
      assert AskedAll(w, opening) == Asked(w, at - w.openFor);
      assert AskedWithin(opening, now, at) && !Allowed(AskedAll(w, opening), at);
    }
  }

  lemma {:induction false} OpenedInTime(w: Window, now: int, at: int, instants: seq<int>)
    requires w.maxIdle > 0 && w.openFor > 0 && !Allowed(w, now)
    requires w.nextOpen.value <= at < w.nextOpen.value + w.openFor && AskedWithin(instants, now, at)
    ensures var end := AskedAll(w, instants);
            || end == w
            || (end.maxIdle == w.maxIdle && end.openFor == w.openFor
                && end.openUntil.Some? && at < end.openUntil.value)
  {
    if instants != [] {
      OpenedInTime(w, now, at, instants[..|instants| - 1]);
    }
  }

  /** With the default quiet budget a loop that oversleeps an opening by its whole grace of
      five seconds, and another that used it, is refused. */
  lemma OversleptOpening()
    ensures var w := Window(DEFAULT_MAX_IDLE, DEFAULT_OPEN_FOR, Some(DEFAULT_OPEN_FOR), Some(DEFAULT_MAX_IDLE));
            && !Allowed(w, DEFAULT_OPEN_FOR)
            && !Allowed(AskedAll(w, [DEFAULT_MAX_IDLE]), DEFAULT_MAX_IDLE + DEFAULT_OPEN_FOR)
  {
    assert [DEFAULT_MAX_IDLE][..0] == [];
  }
}
