/** The single-flight access-token cache: its critical sections as a class, and any number
    of concurrent authenticated requests as a small-step machine over them
    (internal/companyfund/airwallex_client.go). */
module TokenCache {
  import opened Wrappers

  datatype Token = Token(value: string, expiresAt: int, generation: nat)

  /** What a login brought, before it has a generation. */
  datatype Login = LoggedIn(value: string, expiresAt: int) | LoginFailed

  datatype Flight = Pending | Landed(token: Token) | Crashed

  /** The mutex-protected fields. Flights are known by their number; `flight` is the one in
      the air. */
  datatype Cache = Cache(token: Option<Token>, generation: nat, flight: Option<nat>, flights: seq<Flight>)

  predicate Usable(c: Cache, now: int, skew: int) {
    c.token.Some? && now < c.token.value.expiresAt - skew
  }

  datatype Decision = Use(token: Token) | Join(flight: nat) | Lead(flight: nat)

  function Decide(c: Cache, now: int, skew: int): Decision {
    if Usable(c, now, skew) then Use(c.token.value)
    else if c.flight.Some? then Join(c.flight.value)
    else Lead(|c.flights|)
  }

  /** A cached token is handed out exactly when it is there and the clock has not come within
      the skew of its expiry. */
  lemma UsedTokensAreFresh(c: Cache, now: int, skew: int)
    ensures Decide(c, now, skew).Use? <==> exists t :: c.token == Some(t) && now + skew < t.expiresAt
    ensures Decide(c, now, skew).Use? ==> c.token == Some(Decide(c, now, skew).token)
  {
    if c.token.Some? { assert c.token == Some(c.token.value); }
  }

  function AfterDecide(c: Cache, now: int, skew: int): Cache {
    if Usable(c, now, skew) || c.flight.Some? then c
    else c.(flight := Some(|c.flights|), flights := c.flights + [Pending])
  }

  function Land(c: Cache, f: nat, login: Login): Cache
    requires f < |c.flights|
  {
    match login
    case LoginFailed => c.(flight := None, flights := c.flights[f := Crashed])
    case LoggedIn(value, expiresAt) =>
      var token := Token(value, expiresAt, c.generation + 1);
      Cache(Some(token), c.generation + 1, None, c.flights[f := Landed(token)])
  }

  function Drop(c: Cache, rejected: Token): Cache {
    if c.token.Some? && c.token.value.generation == rejected.generation && c.token.value.value == rejected.value
    then c.(token := None) else c
  }

  /** The three sections that run under the mutex. */
  class Client {
    var token: Option<Token>
    var generation: nat
    var flight: Option<nat>
    var flights: seq<Flight>
    const skew: int

    ghost function State(): Cache
      reads this
    {
      Cache(token, generation, flight, flights)
    }

    constructor (skew: int)
      requires skew >= 0
      ensures State() == EMPTY && this.skew == skew
    {
      token, generation, flight, flights, this.skew := None, 0, None, [], skew;
    }

    method Access(now: int) returns (decision: Decision)
      modifies this
      ensures decision == Decide(old(State()), now, skew) && State() == AfterDecide(old(State()), now, skew)
      ensures decision.Use? <==> exists t :: old(token) == Some(t) && now + skew < t.expiresAt
      ensures decision.Use? ==> old(token) == Some(decision.token) && State() == old(State())
      ensures decision.Join? ==> old(flight) == Some(decision.flight) && State() == old(State())
      ensures decision.Lead? ==>
                && old(flight) == None && flight == Some(decision.flight) && decision.flight == |old(flights)|
                && flights == old(flights) + [Pending] && token == old(token) && generation == old(generation)
    {
      UsedTokensAreFresh(State(), now, skew);
      if token.Some? && now < token.value.expiresAt - skew {
        return Use(token.value);
      }
      if flight.Some? {
        return Join(flight.value);
      }
      var f := |flights|;
      flights := flights + [Pending];
      flight := Some(f);
      return Lead(f);
    }

    method FinishLogin(f: nat, login: Login)
      requires f < |flights|
      modifies this
      ensures State() == Land(old(State()), f, login)
      ensures flight == None && |flights| == |old(flights)| && flights[f].Pending? == false
      ensures login == LoginFailed ==> token == old(token) && generation == old(generation) && flights[f] == Crashed
      ensures login.LoggedIn? ==>
                && generation == old(generation) + 1 && flights[f] == Landed(token.value)
                && token == Some(Token(login.value, login.expiresAt, generation))
    {
      match login {
        case LoginFailed =>
          flights := flights[f := Crashed];
        case LoggedIn(value, expiresAt) =>
          generation := generation + 1;
          token := Some(Token(value, expiresAt, generation));
          flights := flights[f := Landed(token.value)];
      }
      flight := None;
    }

    method Invalidate(rejected: Token)
      modifies this
      ensures State() == Drop(old(State()), rejected)
      ensures token == None || token == old(token)
      ensures forall t :: old(token) == Some(t) ==>
                (token == None <==> t.generation == rejected.generation && t.value == rejected.value)
      ensures generation == old(generation) && flight == old(flight) && flights == old(flights)
    {
      if token.Some? && token.value.generation == rejected.generation && token.value.value == rejected.value {
        token := None;
      }
    }
  }

  const EMPTY := Cache(None, 0, None, [])

  // ---- Requests ------------------------------------------------------------------------------

  /** Where one authenticatedGET stands. `second` tells the retry from the first attempt. */
  datatype Pc =
    | Asking(second: bool)
    | Waiting(second: bool, flight: nat)
    | LoggingIn(second: bool, flight: nat)
    | Requesting(second: bool, token: Token)
    | Rejected(second: bool, token: Token)
    | Finished

  /** `used` lists the generations sent to the provider, one per business request. */
  datatype Request = Request(pc: Pc, used: seq<nat>)

  const NEW_REQUEST := Request(Asking(false), [])

  datatype System = System(cache: Cache, requests: map<int, Request>, installed: seq<nat>)

  /** One move of request `id`. `Answer` is the provider's reply to a business request,
      `GiveUp` a context that ends while waiting. */
  datatype Move =
    | Ask(now: int)
    | Wake
    | GiveUp
    | Login(login: Login)
    | Answer(unauthorized: bool)
    | Invalidate

  datatype Step = Step(id: int, move: Move)

  function RequestOf(s: System, id: int): Request {
    if id in s.requests then s.requests[id] else NEW_REQUEST
  }

  function Got(second: bool, flight: Flight): Pc {
    match flight case Landed(token) => Requesting(second, token) case _ => Finished
  }

  function Next(s: System, step: Step, skew: int): System {
    var r := RequestOf(s, step.id);
    match r.pc
    case Asking(second) =>
      if !step.move.Ask? then s
      else
        var pc := match Decide(s.cache, step.move.now, skew)
          case Use(token) => Requesting(second, token)
          case Join(f) => Waiting(second, f)
          case Lead(f) => LoggingIn(second, f);
        s.(cache := AfterDecide(s.cache, step.move.now, skew), requests := s.requests[step.id := r.(pc := pc)])
    case Waiting(second, f) =>
      if step.move.GiveUp? then s.(requests := s.requests[step.id := r.(pc := Finished)])
      else if step.move.Wake? && f < |s.cache.flights| && !s.cache.flights[f].Pending? then
        s.(requests := s.requests[step.id := r.(pc := Got(second, s.cache.flights[f]))])
      else s
    case LoggingIn(second, f) =>
      if !step.move.Login? || f >= |s.cache.flights| then s
      else
        var cache := Land(s.cache, f, step.move.login);
        System(cache, s.requests[step.id := r.(pc := Got(second, cache.flights[f]))],
               if step.move.login.LoggedIn? then s.installed + [cache.generation] else s.installed)
    case Requesting(second, token) =>
      if !step.move.Answer? then s
      else
        var sent := r.used + [token.generation];
        var pc := if step.move.unauthorized then Rejected(second, token) else Finished;
        s.(requests := s.requests[step.id := Request(pc, sent)])
    case Rejected(second, token) =>
      if !step.move.Invalidate? then s
      else
        var pc := if second then Finished else Asking(true);
        s.(cache := Drop(s.cache, token), requests := s.requests[step.id := r.(pc := pc)])
    case Finished => s
  }

  /** What a request does next: it asks for a token, waits for or leads a login, sends one
      business request with the token it got, and after a rejection of the first one drops
      that token and asks again; a second rejection and any other answer end it. */
  lemma RequestsGoOn(s: System, id: int, now: int, login: Login, skew: int)
    requires id in s.requests
    ensures var r := s.requests[id];
            && (r.pc.Asking? ==>
                  var t := Next(s, Step(id, Ask(now)), skew).requests[id];
                  && t.used == r.used && t.pc.second == r.pc.second
                  && (t.pc.Requesting? || t.pc.Waiting? || t.pc.LoggingIn?)
                  && (t.pc.Requesting? ==> s.cache.token == Some(t.pc.token) && now + skew < t.pc.token.expiresAt)
                  && (t.pc.Waiting? ==> s.cache.flight == Some(t.pc.flight))
                  && (t.pc.LoggingIn? ==> s.cache.flight == None && t.pc.flight == |s.cache.flights|))
            && (r.pc.Waiting? && r.pc.flight < |s.cache.flights| && s.cache.flights[r.pc.flight].Landed? ==>
                  Next(s, Step(id, Wake), skew).requests[id]
                  == r.(pc := Requesting(r.pc.second, s.cache.flights[r.pc.flight].token)))
            && (r.pc.Waiting? && r.pc.flight < |s.cache.flights| && s.cache.flights[r.pc.flight] == Crashed ==>
                  Next(s, Step(id, Wake), skew).requests[id].pc == Finished)
            && (r.pc.LoggingIn? && r.pc.flight < |s.cache.flights| ==>
                  var t := Next(s, Step(id, Login(login)), skew);
                  if login.LoggedIn? then
                    && t.cache.token.Some? && t.requests[id].pc == Requesting(r.pc.second, t.cache.token.value)
                    && t.cache.token.value.value == login.value && t.cache.token.value.expiresAt == login.expiresAt
                  else t.requests[id].pc == Finished && t.cache.token == s.cache.token)
            && (r.pc.Requesting? ==>
                  && Next(s, Step(id, Answer(false)), skew).requests[id]
                     == Request(Finished, r.used + [r.pc.token.generation])
                  && Next(s, Step(id, Answer(true)), skew).requests[id]
                     == Request(Rejected(r.pc.second, r.pc.token), r.used + [r.pc.token.generation]))
            && (r.pc.Rejected? ==>
                  Next(s, Step(id, Invalidate), skew).requests[id].pc == if r.pc.second then Finished else Asking(true))
  {
  }

  function Run(s: System, steps: seq<Step>, skew: int): System {
    if steps == [] then s else Next(Run(s, steps[..|steps| - 1], skew), steps[|steps| - 1], skew)
  }

  const START := System(EMPTY, map[], [])

  // ---- Invariant -----------------------------------------------------------------------------

  /** A token that was really issued: landed on some flight, and no newer than the counter. */
  ghost predicate Issued(c: Cache, t: Token) {
    t.generation <= c.generation && exists f :: 0 <= f < |c.flights| && c.flights[f] == Landed(t)
  }

  ghost predicate CacheOk(c: Cache) {
    && (forall f :: 0 <= f < |c.flights| ==> (c.flights[f].Pending? <==> c.flight == Some(f)))
    && (c.flight.Some? ==> c.flight.value < |c.flights|)
    && (forall f :: 0 <= f < |c.flights| && c.flights[f].Landed? ==> 1 <= c.flights[f].token.generation <= c.generation)
    && (forall f, g :: 0 <= f < g < |c.flights| && c.flights[f].Landed? && c.flights[g].Landed? ==>
          c.flights[f].token.generation != c.flights[g].token.generation)
    && (c.token.Some? ==> Issued(c, c.token.value) && c.token.value.generation == c.generation)
  }

  /** Nothing older than `g`, nor `g` itself, can be handed out any more. */
  ghost predicate Beyond(c: Cache, g: nat) {
    g < c.generation || (g == c.generation && c.token == None)
  }

  ghost predicate RequestOk(c: Cache, r: Request) {
    && |r.used| <= 2
    && (|r.used| == 2 ==> r.used[0] < r.used[1])
    && match r.pc
       case Asking(second) => |r.used| == (if second then 1 else 0) && (second ==> Beyond(c, r.used[0]))
       case Waiting(second, f) =>
         && |r.used| == (if second then 1 else 0) && f < |c.flights|
         && (second ==> Beyond(c, r.used[0]) && (c.flights[f].Landed? ==> r.used[0] < c.flights[f].token.generation))
       case LoggingIn(second, f) =>
         && |r.used| == (if second then 1 else 0) && c.flight == Some(f)
         && (second ==> Beyond(c, r.used[0]))
       case Requesting(second, t) =>
         && |r.used| == (if second then 1 else 0) && Issued(c, t)
         && (second ==> r.used[0] < t.generation)
       case Rejected(second, t) =>
         && |r.used| == (if second then 2 else 1) && Issued(c, t)
         && t.generation == r.used[|r.used| - 1]
       case Finished => true
  }

  ghost predicate Inv(s: System) {
    && CacheOk(s.cache)
    && (forall id :: id in s.requests ==> RequestOk(s.cache, s.requests[id]))
    && (forall i, j :: i in s.requests && j in s.requests
                       && s.requests[i].pc.LoggingIn? && s.requests[j].pc.LoggingIn? ==>
          i == j)
    && (s.cache.flight.Some? ==> exists id :: id in s.requests && s.requests[id].pc.LoggingIn?)
    && (forall i, j :: 0 <= i < j < |s.installed| ==> s.installed[i] < s.installed[j])
    && (forall i :: 0 <= i < |s.installed| ==> s.installed[i] <= s.cache.generation)
  }

  /** What one step may do to the cache, as far as other requests are concerned. */
  ghost predicate Grows(c: Cache, d: Cache) {
    && c.generation <= d.generation && |c.flights| <= |d.flights|
    && (forall f :: 0 <= f < |c.flights| && !c.flights[f].Pending? ==> d.flights[f] == c.flights[f])
    && (forall f :: 0 <= f < |c.flights| && c.flights[f].Pending? && d.flights[f].Landed? ==>
          d.flights[f].token.generation == d.generation > c.generation)
    && (c.token == None && d.token != None ==> d.generation > c.generation)
  }

  lemma IssuedStays(c: Cache, d: Cache, t: Token)
    requires Grows(c, d) && Issued(c, t)
    ensures Issued(d, t)
  {
    var f :| 0 <= f < |c.flights| && c.flights[f] == Landed(t);
    assert d.flights[f] == Landed(t);
  }

  lemma OthersKeep(c: Cache, d: Cache, r: Request)
    requires CacheOk(c) && Grows(c, d) && RequestOk(c, r)
    requires r.pc.LoggingIn? ==> d.flight == c.flight
    ensures RequestOk(d, r)
  {
    hide CacheOk, Issued;
    match r.pc
    case Requesting(_, t) => IssuedStays(c, d, t);
    case Rejected(_, t) => IssuedStays(c, d, t);
    case _ =>
  }

  lemma AskKeeps(c: Cache, now: int, skew: int)
    requires CacheOk(c)
    ensures CacheOk(AfterDecide(c, now, skew)) && Grows(c, AfterDecide(c, now, skew))
  {
    var d := AfterDecide(c, now, skew);
    assert Grows(c, d);
    if c.token.Some? { IssuedStays(c, d, c.token.value); }
  }

  lemma LandKeeps(c: Cache, f: nat, login: Login)
    requires CacheOk(c) && c.flight == Some(f)
    ensures CacheOk(Land(c, f, login)) && Grows(c, Land(c, f, login))
    ensures Land(c, f, login).flights[f].Landed? ==> Issued(Land(c, f, login), Land(c, f, login).flights[f].token)
  {
    var d := Land(c, f, login);
    assert c.flights[f].Pending?;
    assert Grows(c, d);
    if login.LoggedIn? {
      assert d.flights[f] == Landed(d.token.value);
    } else if c.token.Some? {
      IssuedStays(c, d, c.token.value);
    }
  }

  /** A rejection clears the cached token exactly when that is the token rejected; in
      particular a newer one always survives. */
  lemma RejectionClearsExactly(c: Cache, t: Token)
    requires CacheOk(c) && Issued(c, t)
    ensures CacheOk(Drop(c, t)) && Grows(c, Drop(c, t)) && Beyond(Drop(c, t), t.generation)
    ensures Drop(c, t) != c <==> c.token == Some(t)
    ensures c.token.Some? && c.token.value.generation > t.generation ==> Drop(c, t).token == c.token
  {
    var f :| 0 <= f < |c.flights| && c.flights[f] == Landed(t);
    if c.token.Some? {
      var g :| 0 <= g < |c.flights| && c.flights[g] == Landed(c.token.value);
      var d := Drop(c, t);
      if d == c { assert Issued(d, c.token.value); }
    }
  }

  /** A cache step by one request: it and everybody else stay in order. */
  lemma Assemble(s: System, id: int, cache: Cache, r: Request, installed: seq<nat>)
    requires Inv(s) && CacheOk(cache) && Grows(s.cache, cache) && RequestOk(cache, r)
    requires forall i :: i in s.requests && i != id && s.requests[i].pc.LoggingIn? ==>
               cache.flight == s.cache.flight && !r.pc.LoggingIn?
    requires cache.flight.Some? ==>
               r.pc.LoggingIn? || exists i :: i in s.requests && i != id && s.requests[i].pc.LoggingIn?
    requires installed == s.installed
             || (installed == s.installed + [cache.generation] && s.cache.generation < cache.generation)
    ensures Inv(System(cache, s.requests[id := r], installed))
  {
    hide CacheOk, Grows, RequestOk;
    var n := System(cache, s.requests[id := r], installed);
    forall i | i in n.requests
      ensures RequestOk(cache, n.requests[i])
    {
      if i != id { OthersKeep(s.cache, cache, s.requests[i]); }
    }
    if cache.flight.Some? {
      if r.pc.LoggingIn? {
        assert n.requests[id].pc.LoggingIn?;
      } else {
        var i :| i in s.requests && i != id && s.requests[i].pc.LoggingIn?;
        assert n.requests[i].pc.LoggingIn?;
      }
    }
    GenerationGrows(s.cache, cache);
  }

  lemma GenerationGrows(c: Cache, d: Cache)
    requires Grows(c, d)
    ensures c.generation <= d.generation
  {
  }

  lemma GrowsRefl(c: Cache)
    ensures Grows(c, c)
  {
  }

  /** If a flight is in the air, its leader is another request unless it is this one. */
  lemma LeaderElsewhere(s: System, id: int)
    requires Inv(s) && s.cache.flight.Some? && !RequestOf(s, id).pc.LoggingIn?
    ensures exists i :: i in s.requests && i != id && s.requests[i].pc.LoggingIn?
  {
    var i :| i in s.requests && s.requests[i].pc.LoggingIn?;
  }

  lemma NewRequestOk(s: System, id: int)
    requires Inv(s)
    ensures RequestOk(s.cache, RequestOf(s, id))
  {
  }

  lemma AskStep(s: System, id: int, now: int, skew: int)
    requires Inv(s) && RequestOf(s, id).pc.Asking?
    ensures Inv(Next(s, Step(id, Ask(now)), skew))
  {
    hide Inv;
    var r, c := RequestOf(s, id), s.cache;
    NewRequestOk(s, id);
    CacheIsOk(s);
    AskKeeps(c, now, skew);
    var d := AfterDecide(c, now, skew);
    LeadersHaveFlight(s);
    if c.flight.Some? { LeaderElsewhere(s, id); }
    var pc := match Decide(c, now, skew)
      case Use(token) => Requesting(r.pc.second, token)
      case Join(f) => Waiting(r.pc.second, f)
      case Lead(f) => LoggingIn(r.pc.second, f);
    Assemble(s, id, d, r.(pc := pc), s.installed);
  }

  lemma CacheIsOk(s: System)
    requires Inv(s)
    ensures CacheOk(s.cache)
  {
  }

  lemma LeadersHaveFlight(s: System)
    requires Inv(s)
    ensures forall i :: i in s.requests && s.requests[i].pc.LoggingIn? ==>
              s.cache.flight == Some(s.requests[i].pc.flight)
    ensures forall i, j :: i in s.requests && j in s.requests
                           && s.requests[i].pc.LoggingIn? && s.requests[j].pc.LoggingIn? ==>
              i == j
  {
  }

  lemma LandStep(s: System, id: int, login: Login, skew: int)
    requires Inv(s) && RequestOf(s, id).pc.LoggingIn?
    ensures Inv(Next(s, Step(id, Move.Login(login)), skew))
  {
    hide Inv;
    var r, c := RequestOf(s, id), s.cache;
    NewRequestOk(s, id);
    CacheIsOk(s);
    LeadersHaveFlight(s);
    var f := r.pc.flight;
    LandKeeps(c, f, login);
    var d := Land(c, f, login);
    Assemble(s, id, d, r.(pc := Got(r.pc.second, d.flights[f])),
             if login.LoggedIn? then s.installed + [d.generation] else s.installed);
  }

  /** What a step that does not log in may assume. */
  lemma Before(s: System, id: int)
    requires Inv(s) && !RequestOf(s, id).pc.LoggingIn?
    ensures CacheOk(s.cache) && Grows(s.cache, s.cache) && RequestOk(s.cache, RequestOf(s, id))
    ensures s.cache.flight.Some? ==> exists i :: i in s.requests && i != id && s.requests[i].pc.LoggingIn?
  {
    hide Grows, CacheOk, RequestOk;
    NewRequestOk(s, id);
    GrowsRefl(s.cache);
    if s.cache.flight.Some? { LeaderElsewhere(s, id); }
  }

  lemma WaitStep(s: System, id: int, move: Move, skew: int)
    requires Inv(s) && RequestOf(s, id).pc.Waiting?
    ensures Inv(Next(s, Step(id, move), skew))
  {
    hide Inv, Grows;
    var r, c := RequestOf(s, id), s.cache;
    Before(s, id);
    var f := r.pc.flight;
    if move.GiveUp? {
      Assemble(s, id, c, r.(pc := Finished), s.installed);
    } else if move.Wake? && !c.flights[f].Pending? {
      if c.flights[f].Landed? { assert Issued(c, c.flights[f].token); }
      Assemble(s, id, c, r.(pc := Got(r.pc.second, c.flights[f])), s.installed);
    }
  }

  lemma AnswerStep(s: System, id: int, move: Move, skew: int)
    requires Inv(s) && RequestOf(s, id).pc.Requesting?
    ensures Inv(Next(s, Step(id, move), skew))
  {
    hide Inv, Grows, CacheOk, Issued;
    var r, c := RequestOf(s, id), s.cache;
    Before(s, id);
    if move.Answer? {
      var sent := r.used + [r.pc.token.generation];
      var pc := if move.unauthorized then Rejected(r.pc.second, r.pc.token) else Finished;
      Assemble(s, id, c, Request(pc, sent), s.installed);
    }
  }

  lemma DropStep(s: System, id: int, move: Move, skew: int)
    requires Inv(s) && RequestOf(s, id).pc.Rejected?
    ensures Inv(Next(s, Step(id, move), skew))
  {
    hide Inv, Grows, CacheOk, Issued, Beyond;
    var r, c := RequestOf(s, id), s.cache;
    Before(s, id);
    if move.Invalidate? {
      RejectionClearsExactly(c, r.pc.token);
      Assemble(s, id, Drop(c, r.pc.token), r.(pc := if r.pc.second then Finished else Asking(true)), s.installed);
    }
  }

  lemma NextKeeps(s: System, step: Step, skew: int)
    requires Inv(s)
    ensures Inv(Next(s, step, skew))
  {
    hide Inv;
    var pc := RequestOf(s, step.id).pc;
    if pc.Asking? {
      if step.move.Ask? { AskStep(s, step.id, step.move.now, skew); }
    } else if pc.LoggingIn? {
      if step.move.Login? { LandStep(s, step.id, step.move.login, skew); }
    } else if pc.Waiting? {
      WaitStep(s, step.id, step.move, skew);
    } else if pc.Requesting? {
      AnswerStep(s, step.id, step.move, skew);
    } else if pc.Rejected? {
      DropStep(s, step.id, step.move, skew);
    }
  }

  lemma {:induction false} RunKeeps(steps: seq<Step>, skew: int)
    ensures Inv(Run(START, steps, skew))
  {
    hide Next, Inv;
    if steps == [] {
      StartOk();
    } else {
      RunKeeps(steps[..|steps| - 1], skew);
      NextKeeps(Run(START, steps[..|steps| - 1], skew), steps[|steps| - 1], skew);
    }
  }

  lemma StartOk()
    ensures Inv(START)
  {
  }

  predicate LogsIn(r: Request, flight: nat) {
    r.pc.LoggingIn? && r.pc.flight == flight
  }

  /** Under every interleaving at most one login is in flight, and while anyone waits for
      one there is someone carrying it out. */
  lemma OneLoginAtATime(steps: seq<Step>, skew: int, i: int, j: int)
    requires var end := Run(START, steps, skew); i in end.requests && j in end.requests
    ensures var end := Run(START, steps, skew);
            && (end.requests[i].pc.LoggingIn? && end.requests[j].pc.LoggingIn? ==> i == j)
            && (end.requests[i].pc.Waiting? ==>
                  var f := end.requests[i].pc.flight;
                  && f < |end.cache.flights|
                  && (end.cache.flights[f].Pending? ==>
                        exists leader :: leader in end.requests && LogsIn(end.requests[leader], f)))
  {
    hide Run;
    RunKeeps(steps, skew);
    var end := Run(START, steps, skew);
    if end.requests[i].pc.Waiting? && end.cache.flights[end.requests[i].pc.flight].Pending? {
      var leader :| leader in end.requests && end.requests[leader].pc.LoggingIn?;
      assert LogsIn(end.requests[leader], end.requests[i].pc.flight);
    }
  }

  /** Installed generations strictly increase. */
  lemma GenerationsIncrease(steps: seq<Step>, skew: int, i: int, j: int)
    requires 0 <= i < j < |Run(START, steps, skew).installed|
    ensures Run(START, steps, skew).installed[i] < Run(START, steps, skew).installed[j]
  {
    hide Run;
    RunKeeps(steps, skew);
  }

  /** One authenticated GET sends at most two business requests, and the retry never reuses
      the rejected token or an older one. */
  lemma AtMostOneRetryWithANewerToken(steps: seq<Step>, skew: int, id: int)
    requires id in Run(START, steps, skew).requests
    ensures var used := Run(START, steps, skew).requests[id].used;
            |used| <= 2 && (|used| == 2 ==> used[0] < used[1])
  {
    hide Run;
    RunKeeps(steps, skew);
  }

  /** In every reachable state a rejection of some request's token clears the cache exactly
      when that very token is cached. */
  lemma RejectionsSpareNewerTokens(steps: seq<Step>, skew: int, id: int)
    requires id in Run(START, steps, skew).requests && Run(START, steps, skew).requests[id].pc.Rejected?
    ensures var end := Run(START, steps, skew);
            var after := Next(end, Step(id, Invalidate), skew).cache.token;
            var rejected := end.requests[id].pc.token;
            && after == (if end.cache.token == Some(rejected) then None else end.cache.token)
            && (end.cache.token.Some? && end.cache.token.value.generation > rejected.generation ==>
                  after == end.cache.token)
  {
    hide Run;
    RunKeeps(steps, skew);
    var end := Run(START, steps, skew);
    assert RequestOk(end.cache, end.requests[id]);
    RejectionClearsExactly(end.cache, end.requests[id].pc.token);
  }
}
