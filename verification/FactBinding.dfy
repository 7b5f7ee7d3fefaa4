/** Provider facts are stored before anything that refers to them
    (internal/companyfund/provider_event_worker.go, provider_event_worker_facts.go,
    provider_event_worker_types.go). */
module FactBinding {
  import opened Wrappers
  import Text

  const MAX_REFERENCE_BYTES := 128
  const MAX_KEY_BYTES := 256

  datatype Scope = TransactionTotal | DirectItem | ConversionGroup | DerivedFromParent
  datatype Allocation = NotApplicable | Unproven | ProvenDerivable

  /** `sound` stands for the checks a fact makes on its own content. A zero event ID and an
      empty digest are left for the worker to fill in. */
  datatype Fact = Fact(
    reference: string, channel: string, sourceEvent: int, digest: string, scope: Scope, allocation: Allocation,
    sound: bool)

  /** `event`, `latest`, `digest` and `routing` say which delivery a movement came from; an
      empty one is left for the worker to fill in. */
  datatype Movement = Movement(
    key: string, channel: string, factId: Option<int>, event: string, latest: Option<int>, digest: string,
    routing: Option<int>)

  datatype Binding = Binding(movementKey: string, factReference: string)

  /** `sound` stands for the task's own checks. */
  datatype Deferred = Deferred(factReference: string, proposalKey: string, sound: bool)

  datatype Normalized = Normalized(
    facts: seq<Fact>, movements: seq<Movement>, bindings: seq<Binding>, deferred: seq<Deferred>, ignored: bool)

  datatype Lease = Lease(id: int, channel: string, event: string, digest: string, routing: Option<int>)

  // ---- validate ----------------------------------------------------------------------------

  predicate RequiredString(s: string, maxBytes: nat) {
    Text.Trim(s) != "" && |s| <= maxBytes
  }

  /** A name has something other than spaces in it, and at most so many bytes. */
  lemma NamedExactly(s: string)
    ensures RequiredString(s, MAX_REFERENCE_BYTES) <==> !Text.AllSpace(s) && |s| <= 128
    ensures RequiredString(s, MAX_KEY_BYTES) <==> !Text.AllSpace(s) && |s| <= 256
  {
    hide Text.Trim;
    Text.BlankIsAllSpace(s);
  }

  function References(facts: seq<Fact>): (r: seq<string>)
    ensures |r| == |facts| && forall i :: 0 <= i < |facts| ==> r[i] == facts[i].reference
  {
    seq(|facts|, i requires 0 <= i < |facts| => facts[i].reference)
  }

  function Keys(movements: seq<Movement>): (r: seq<string>)
    ensures |r| == |movements| && forall i :: 0 <= i < |movements| ==> r[i] == movements[i].key
  {
    seq(|movements|, i requires 0 <= i < |movements| => movements[i].key)
  }

  function BoundKeys(bindings: seq<Binding>): (r: seq<string>)
    ensures |r| == |bindings| && forall i :: 0 <= i < |bindings| ==> r[i] == bindings[i].movementKey
  {
    seq(|bindings|, i requires 0 <= i < |bindings| => bindings[i].movementKey)
  }

  function ProposalKeys(deferred: seq<Deferred>): (r: seq<string>)
    ensures |r| == |deferred| && forall i :: 0 <= i < |deferred| ==> r[i] == deferred[i].proposalKey
  {
    seq(|deferred|, i requires 0 <= i < |deferred| => deferred[i].proposalKey)
  }

  ghost predicate Distinct(s: seq<string>) {
    forall i, j :: 0 <= i < j < |s| ==> s[i] != s[j]
  }

  ghost predicate Valid(n: Normalized) {
    && (n.ignored ==> n.facts == [] && n.movements == [] && n.bindings == [] && n.deferred == [])
    && (!n.ignored ==> n.facts != [] || n.movements != [])
    && (forall i :: 0 <= i < |n.facts| ==> RequiredString(n.facts[i].reference, MAX_REFERENCE_BYTES))
    && Distinct(References(n.facts))
    && (forall i :: 0 <= i < |n.movements| ==> Text.Trim(n.movements[i].key) != "")
    && Distinct(Keys(n.movements))
    && (forall i :: 0 <= i < |n.bindings| ==>
          && RequiredString(n.bindings[i].movementKey, MAX_KEY_BYTES)
          && RequiredString(n.bindings[i].factReference, MAX_REFERENCE_BYTES)
          && n.bindings[i].movementKey in Keys(n.movements)
          && n.bindings[i].factReference in References(n.facts))
    && Distinct(BoundKeys(n.bindings))
    && (forall i :: 0 <= i < |n.deferred| ==>
          && RequiredString(n.deferred[i].factReference, MAX_REFERENCE_BYTES)
          && n.deferred[i].factReference in References(n.facts) && n.deferred[i].sound
          && n.deferred[i].proposalKey !in Keys(n.movements))
    && Distinct(ProposalKeys(n.deferred))
  }

  /** Collects names, refusing the first one seen before. */
  method AllDistinct(names: seq<string>) returns (ok: bool)
    ensures ok <==> Distinct(names)
  {
    var seen: set<string> := {};
    for i := 0 to |names|
      invariant forall x :: x in seen <==> x in names[..i]
      invariant Distinct(names[..i])
    {
      if names[i] in seen {
        var j :| 0 <= j < i && names[j] == names[i];
        return false;
      }
      assert names[..i + 1] == names[..i] + [names[i]];
      seen := seen + {names[i]};
    }
    assert names[..|names|] == names;
    return true;
  }

  method Validate(n: Normalized) returns (ok: bool)
    ensures ok <==> Valid(n)
  {
    hide Distinct, RequiredString, Text.Trim;
    if n.ignored && (n.facts != [] || n.movements != [] || n.bindings != [] || n.deferred != []) { return false; }
    if !n.ignored && n.facts == [] && n.movements == [] { return false; }
    for i := 0 to |n.facts|
      invariant forall j :: 0 <= j < i ==> RequiredString(n.facts[j].reference, MAX_REFERENCE_BYTES)
    {
      if !RequiredString(n.facts[i].reference, MAX_REFERENCE_BYTES) { return false; }
    }
    ok := AllDistinct(References(n.facts));
    if !ok { return; }
    for i := 0 to |n.movements|
      invariant forall j :: 0 <= j < i ==> Text.Trim(n.movements[j].key) != ""
    {
      if Text.Trim(n.movements[i].key) == "" { return false; }
    }
    ok := AllDistinct(Keys(n.movements));
    if !ok { return; }
    for i := 0 to |n.bindings|
      invariant forall j :: 0 <= j < i ==>
                  && RequiredString(n.bindings[j].movementKey, MAX_KEY_BYTES)
                  && RequiredString(n.bindings[j].factReference, MAX_REFERENCE_BYTES)
                  && n.bindings[j].movementKey in Keys(n.movements)
                  && n.bindings[j].factReference in References(n.facts)
    {
      var b := n.bindings[i];
      if !RequiredString(b.movementKey, MAX_KEY_BYTES) || !RequiredString(b.factReference, MAX_REFERENCE_BYTES)
         || b.movementKey !in Keys(n.movements) || b.factReference !in References(n.facts) {
        return false;
      }
    }
    ok := AllDistinct(BoundKeys(n.bindings));
    if !ok { return; }
    for i := 0 to |n.deferred|
      invariant forall j :: 0 <= j < i ==>
                  && RequiredString(n.deferred[j].factReference, MAX_REFERENCE_BYTES)
                  && n.deferred[j].factReference in References(n.facts) && n.deferred[j].sound
                  && n.deferred[j].proposalKey !in Keys(n.movements)
    {
      var d := n.deferred[i];
      if !RequiredString(d.factReference, MAX_REFERENCE_BYTES) || d.factReference !in References(n.facts) || !d.sound
         || d.proposalKey in Keys(n.movements) {
        return false;
      }
    }
    ok := AllDistinct(ProposalKeys(n.deferred));
  }

  // ---- prepareProviderEventFacts -------------------------------------------------------------

  predicate Provenance(lease: Lease, f: Fact) {
    && f.channel == lease.channel && (f.sourceEvent == 0 || f.sourceEvent == lease.id)
    && (f.digest == "" || f.digest == lease.digest) && f.sound
  }

  function Bound(lease: Lease, f: Fact): Fact {
    f.(sourceEvent := lease.id, digest := lease.digest)
  }

  /** The fact a reference names. */
  ghost predicate Names(n: Normalized, reference: string, f: Fact) {
    f in n.facts && f.reference == reference
  }

  /** A bound fact named by the first `upto` bindings is no unproven total, is proven
      derivable when it is bound more than once, and its movement is of the event's channel. */
  ghost predicate BindingsSound(lease: Lease, n: Normalized, upto: nat)
    requires upto <= |n.bindings|
  {
    && (forall i, f :: 0 <= i < upto && Names(n, n.bindings[i].factReference, f) && f.scope == TransactionTotal ==>
          f.allocation == ProvenDerivable)
    && (forall i, j, f :: 0 <= i < j < upto && SharesFact(n, i, j, f) ==> f.allocation == ProvenDerivable)
    && (forall i, m :: 0 <= i < upto && m in n.movements && m.key == n.bindings[i].movementKey ==>
          m.channel == lease.channel)
  }

  ghost predicate SharesFact(n: Normalized, i: nat, j: nat, f: Fact)
    requires i < |n.bindings| && j < |n.bindings|
  {
    n.bindings[i].factReference == n.bindings[j].factReference && Names(n, n.bindings[i].factReference, f)
  }

  /** Whether preparation succeeds: no movement brings its own fact ID, provenance matches
      the leased event, and the bindings are sound. */
  ghost predicate Prepares(lease: Lease, n: Normalized) {
    && (forall i :: 0 <= i < |n.movements| ==> n.movements[i].factId == None)
    && (forall i :: 0 <= i < |n.facts| ==> Provenance(lease, n.facts[i]))
    && BindingsSound(lease, n, |n.bindings|)
  }

  lemma NamesOne(n: Normalized, f: Fact, g: Fact)
    requires Valid(n) && f in n.facts && g in n.facts && f.reference == g.reference
    ensures f == g
  {
    var i :| 0 <= i < |n.facts| && n.facts[i] == f;
    var j :| 0 <= j < |n.facts| && n.facts[j] == g;
    assert References(n.facts)[i] == References(n.facts)[j];
  }

  lemma KeyedOne(n: Normalized, i: nat, j: nat)
    requires Valid(n) && i < |n.movements| && j < |n.movements| && n.movements[i].key == n.movements[j].key
    ensures i == j
  {
    assert Keys(n.movements)[i] == Keys(n.movements)[j];
  }

  method Prepare(lease: Lease, n: Normalized)
    returns (ok: bool, indexByKey: map<string, nat>, factByReference: map<string, Fact>)
    requires Valid(n)
    ensures ok <==> Prepares(lease, n)
    ensures ok ==> IndexesMovements(n, indexByKey) && IndexesFacts(lease, n, factByReference)
  {
    hide Valid, BindingsSound, Text.Trim;
    indexByKey, factByReference := map[], map[];
    for i := 0 to |n.movements|
      invariant forall j :: 0 <= j < i ==> n.movements[j].factId == None
      invariant forall j :: 0 <= j < i ==> n.movements[j].key in indexByKey
      invariant forall k :: k in indexByKey ==> indexByKey[k] < i && n.movements[indexByKey[k]].key == k
    {
      if n.movements[i].factId != None { return false, map[], map[]; }
      indexByKey := indexByKey[n.movements[i].key := i];
    }
    for i := 0 to |n.facts|
      invariant forall j :: 0 <= j < i ==> Provenance(lease, n.facts[j])
      invariant forall j :: 0 <= j < i ==> n.facts[j].reference in factByReference
      invariant forall k :: k in factByReference ==>
                  exists j :: 0 <= j < i && n.facts[j].reference == k && factByReference[k] == Bound(lease, n.facts[j])
    {
      if !Provenance(lease, n.facts[i]) { return false, map[], map[]; }
      factByReference := factByReference[n.facts[i].reference := Bound(lease, n.facts[i])];
    }
    ok := CheckBindings(lease, n, indexByKey, factByReference);
  }

  ghost predicate IndexesMovements(n: Normalized, indexByKey: map<string, nat>) {
    && (forall i :: 0 <= i < |n.movements| ==> n.movements[i].key in indexByKey)
    && (forall k :: k in indexByKey ==> indexByKey[k] < |n.movements| && n.movements[indexByKey[k]].key == k)
  }

  ghost predicate IndexesFacts(lease: Lease, n: Normalized, factByReference: map<string, Fact>) {
    && (forall i :: 0 <= i < |n.facts| ==> n.facts[i].reference in factByReference)
    && (forall k :: k in factByReference ==>
          exists i :: 0 <= i < |n.facts| && n.facts[i].reference == k && factByReference[k] == Bound(lease, n.facts[i]))
  }

  lemma OneBinding(lease: Lease, n: Normalized, k: nat, f: Fact, m: Movement, repeated: bool)
    requires Valid(n) && k < |n.bindings|
    requires Names(n, n.bindings[k].factReference, f) && m in n.movements && m.key == n.bindings[k].movementKey
    requires BindingsSound(lease, n, k)
    requires repeated <==> exists i :: 0 <= i < k && n.bindings[i].factReference == n.bindings[k].factReference
    ensures BindingsSound(lease, n, k + 1)
            <==> && (f.scope == TransactionTotal ==> f.allocation == ProvenDerivable)
                 && (repeated ==> f.allocation == ProvenDerivable) && m.channel == lease.channel
  {
    hide Valid;
    forall g | Names(n, n.bindings[k].factReference, g) ensures g == f { NamesOne(n, f, g); }
    forall x | x in n.movements && x.key == m.key ensures x == m {
      var i :| 0 <= i < |n.movements| && n.movements[i] == x;
      var j :| 0 <= j < |n.movements| && n.movements[j] == m;
      KeyedOne(n, i, j);
    }
    if repeated {
      var i :| 0 <= i < k && n.bindings[i].factReference == n.bindings[k].factReference;
      assert SharesFact(n, i, k, f);
    }
  }

  /** The tables answer every lookup a valid result's binding makes. */
  lemma Lookups(lease: Lease, n: Normalized, k: nat, indexByKey: map<string, nat>, factByReference: map<string, Fact>)
      returns (source: nat)
    requires Valid(n) && k < |n.bindings| && IndexesMovements(n, indexByKey) && IndexesFacts(lease, n, factByReference)
    ensures var b := n.bindings[k];
            && b.factReference in factByReference && source < |n.facts| && n.facts[source].reference == b.factReference
            && factByReference[b.factReference] == Bound(lease, n.facts[source])
            && b.movementKey in indexByKey && indexByKey[b.movementKey] < |n.movements|
            && n.movements[indexByKey[b.movementKey]].key == b.movementKey
  {
    hide Distinct, RequiredString, Text.Trim;
    var b := n.bindings[k];
    var i :| 0 <= i < |n.facts| && References(n.facts)[i] == b.factReference;
    assert n.facts[i].reference in factByReference;
    var m :| 0 <= m < |n.movements| && Keys(n.movements)[m] == b.movementKey;
    assert n.movements[m].key in indexByKey;
    source :| 0 <= source < |n.facts| && n.facts[source].reference == b.factReference
              && factByReference[b.factReference] == Bound(lease, n.facts[source]);
  }

  method CheckBindings(lease: Lease, n: Normalized, indexByKey: map<string, nat>, factByReference: map<string, Fact>)
    returns (ok: bool)
    requires Valid(n) && IndexesMovements(n, indexByKey) && IndexesFacts(lease, n, factByReference)
    ensures ok <==> BindingsSound(lease, n, |n.bindings|)
  {
    hide BindingsSound, Valid, IndexesMovements, IndexesFacts;
    var counts: map<string, nat> := map[];
    NoBindings(lease, n);
    for k := 0 to |n.bindings|
      invariant BindingsSound(lease, n, k)
      invariant forall r :: r in counts <==> exists i :: 0 <= i < k && n.bindings[i].factReference == r
      invariant forall r :: r in counts ==> counts[r] >= 1
    {
      var b := n.bindings[k];
      ghost var source := Lookups(lease, n, k, indexByKey, factByReference);
      var fact := factByReference[b.factReference];
      var movement := n.movements[indexByKey[b.movementKey]];
      var count := (if b.factReference in counts then counts[b.factReference] else 0) + 1;
      OneBinding(lease, n, k, n.facts[source], movement, b.factReference in counts);
      if (fact.scope == TransactionTotal && fact.allocation != ProvenDerivable)
         || (count > 1 && fact.allocation != ProvenDerivable) || movement.channel != lease.channel {
        Unsound(lease, n, k + 1);
        return false;
      }
      counts := counts[b.factReference := count];
    }
    return true;
  }

  lemma NoBindings(lease: Lease, n: Normalized)
    ensures BindingsSound(lease, n, 0)
  {
  }

  lemma Unsound(lease: Lease, n: Normalized, k: nat)
    requires k <= |n.bindings| && !BindingsSound(lease, n, k)
    ensures !BindingsSound(lease, n, |n.bindings|)
  {
  }

  // ---- persistNormalizedProviderFacts --------------------------------------------------------

  datatype Effect =
    | StoreFact(fact: Fact, id: int)
    | EnqueueTask(task: Deferred, factId: int)
    | UpsertMovement(movement: Movement)

  /** How the repository answers: the ID it gives each fact (none when the insert fails) and
      which enqueues and upserts fail. */
  datatype Repository = Repository(ids: map<string, int>, enqueueFails: set<string>, upsertFails: set<string>)

  predicate Answers(n: Normalized, r: Repository, count: nat)
    requires count <= |n.facts|
  {
    forall i :: 0 <= i < count ==> n.facts[i].reference in r.ids && r.ids[n.facts[i].reference] > 0
  }

  function IdOf(r: Repository, reference: string): int {
    if reference in r.ids then r.ids[reference] else 0
  }

  /** The ID the bindings give the movement of that key. */
  function IdFor(bindings: seq<Binding>, r: Repository, key: string): Option<int> {
    if bindings == [] then None
    else
      var last := bindings[|bindings| - 1];
      if last.movementKey == key then Some(IdOf(r, last.factReference)) else IdFor(bindings[..|bindings| - 1], r, key)
  }

  function FactEffects(lease: Lease, n: Normalized, r: Repository): (e: seq<Effect>)
    ensures |e| == |n.facts|
  {
    seq(|n.facts|, i requires 0 <= i < |n.facts| => StoreFact(Bound(lease, n.facts[i]), IdOf(r, n.facts[i].reference)))
  }

  function TaskEffects(n: Normalized, r: Repository): (e: seq<Effect>)
    ensures |e| == |n.deferred|
  {
    seq(|n.deferred|, i requires 0 <= i < |n.deferred| =>
      EnqueueTask(n.deferred[i], IdOf(r, n.deferred[i].factReference)))
  }

  function BoundMovements(n: Normalized, r: Repository, count: nat): (m: seq<Movement>)
    requires count <= |n.bindings|
    ensures |m| == |n.movements|
  {
    seq(|n.movements|, i requires 0 <= i < |n.movements| =>
      n.movements[i].(factId := IdFor(n.bindings[..count], r, n.movements[i].key)))
  }

  /** What a movement may say about its delivery: nothing, or what the lease says. */
  predicate MovementProvenance(lease: Lease, m: Movement) {
    && m.channel == lease.channel && (m.event == "" || m.event == lease.event)
    && (m.latest == None || m.latest == Some(lease.id)) && (m.digest == "" || m.digest == lease.digest)
  }

  /** bindProviderEventMovementProvenance on a movement it accepts. */
  function Attributed(lease: Lease, m: Movement): Movement {
    m.(event := lease.event, latest := Some(lease.id), digest := lease.digest, routing := lease.routing)
  }

  function MovementEffects(lease: Lease, movements: seq<Movement>): (e: seq<Effect>)
    ensures |e| == |movements|
  {
    seq(|movements|, i requires 0 <= i < |movements| => UpsertMovement(Attributed(lease, movements[i])))
  }

  /** All the work of an event, facts first. */
  function AllEffects(lease: Lease, n: Normalized, r: Repository): (e: seq<Effect>)
    ensures |e| == |n.facts| + |n.deferred| + |n.movements|
  {
    FactEffects(lease, n, r) + TaskEffects(n, r) + MovementEffects(lease, BoundMovements(n, r, |n.bindings|))
  }

  /** The first `count` movements may carry the leased event's provenance. */
  predicate MovementsOfEvent(lease: Lease, n: Normalized, count: nat)
    requires count <= |n.movements|
  {
    forall i :: 0 <= i < count ==> MovementProvenance(lease, n.movements[i])
  }

  /** Nothing stands in the way of storing everything. */
  ghost predicate Succeeds(lease: Lease, n: Normalized, r: Repository) {
    && Valid(n)
    && (n.ignored ||
        (&& Prepares(lease, n) && Answers(n, r, |n.facts|) && MovementsOfEvent(lease, n, |n.movements|)
         && (forall i :: 0 <= i < |n.deferred| ==> n.deferred[i].proposalKey !in r.enqueueFails)
         && (forall i :: 0 <= i < |n.movements| ==> n.movements[i].key !in r.upsertFails)))
  }

  class Worker {
    var log: seq<Effect>

    /** Inserts the facts in order until one fails. */
    method StoreFacts(lease: Lease, n: Normalized, r: Repository) returns (ok: bool, ids: map<string, int>)
      modifies this
      ensures exists k :: 0 <= k <= |n.facts| && log == old(log) + AllEffects(lease, n, r)[..k] && Answers(n, r, k)
                && (ok ==> k == |n.facts|)
      ensures ok <==> Answers(n, r, |n.facts|)
      ensures ok ==> forall i :: 0 <= i < |n.facts| ==> n.facts[i].reference in ids
      ensures forall k :: k in ids ==> ids[k] == IdOf(r, k)
    {
      hide Bound;
      ghost var effects := AllEffects(lease, n, r);
      assert effects[..0] == [];
      ids := map[];
      for i := 0 to |n.facts|
        invariant log == old(log) + effects[..i]
        invariant Answers(n, r, i)
        invariant forall k :: k in ids ==> ids[k] == IdOf(r, k)
        invariant forall j :: 0 <= j < i ==> n.facts[j].reference in ids
      {
        var f := n.facts[i];
        if f.reference !in r.ids || r.ids[f.reference] <= 0 {
          return false, ids;
        }
        assert effects[i] == FactEffects(lease, n, r)[i];
        log := log + [StoreFact(Bound(lease, f), r.ids[f.reference])];
        assert effects[..i + 1] == effects[..i] + [effects[i]];
        ids := ids[f.reference := r.ids[f.reference]];
      }
      return true, ids;
    }

    method Persist(lease: Lease, n: Normalized, r: Repository) returns (movements: Option<seq<Movement>>)
      requires Valid(n)
      modifies this
      ensures !Prepares(lease, n) ==> movements == None && log == old(log)
      ensures exists k :: 0 <= k <= |n.facts| + |n.deferred| && log == old(log) + AllEffects(lease, n, r)[..k]
                && (k > 0 ==> Prepares(lease, n)) && Answers(n, r, if k < |n.facts| then k else |n.facts|)
                && (movements.Some? ==> k == |n.facts| + |n.deferred|)
      ensures movements.Some? <==>
                && Prepares(lease, n) && Answers(n, r, |n.facts|)
                && forall i :: 0 <= i < |n.deferred| ==> n.deferred[i].proposalKey !in r.enqueueFails
      ensures movements.Some? ==> movements.value == BoundMovements(n, r, |n.bindings|)
    {
      hide Valid, Prepares, BindingsSound, IdFor, AllEffects, BoundMovements, IndexesMovements, IndexesFacts;
      var ok, indexByKey, factByReference := Prepare(lease, n);
      ghost var effects := AllEffects(lease, n, r);
      assert effects[..0] == [];
      if !ok {
        return None;
      }
      var stored, ids := StoreFacts(lease, n, r);
      if !stored {
        return None;
      }
      var bound := n.movements;
      assert n.bindings[..0] == [];
      Unbound(lease, n, r);
      for i := 0 to |n.bindings|
        invariant bound == BoundMovements(n, r, i)
        invariant log == old(log) + effects[..|n.facts|]
      {
        var b := n.bindings[i];
        ghost var source := Lookups(lease, n, i, indexByKey, factByReference);
        var index := indexByKey[b.movementKey];
        var id := ids[b.factReference];
        OneMoreBound(n, r, i, index, id);
        bound := bound[index := bound[index].(factId := Some(id))];
      }
      for i := 0 to |n.deferred|
        invariant log == old(log) + effects[..|n.facts| + i]
        invariant forall j :: 0 <= j < i ==> n.deferred[j].proposalKey !in r.enqueueFails
      {
        var d := n.deferred[i];
        if d.proposalKey in r.enqueueFails {
          return None;
        }
        DeferredKnown(n, i);
        TaskPlace(lease, n, r, i);
        log := log + [EnqueueTask(d, ids[d.factReference])];
        assert effects[..|n.facts| + i + 1] == effects[..|n.facts| + i] + [effects[|n.facts| + i]];
      }
      return Some(bound);
    }

    /** The part of the worker that follows normalization: validate, persist, and per
        movement bind its provenance and upsert it. The effects are always a prefix of the
        facts-first order, only movements of the leased event are among them, and all of it
        is stored exactly when nothing is wrong. */
    method Process(lease: Lease, n: Normalized, r: Repository) returns (ok: bool)
      modifies this
      ensures ok <==> Succeeds(lease, n, r)
      ensures exists k :: 0 <= k <= |AllEffects(lease, n, r)| && log == old(log) + AllEffects(lease, n, r)[..k]
                && (k > 0 ==> Valid(n) && Prepares(lease, n)) && Answers(n, r, if k < |n.facts| then k else |n.facts|)
                && MovementsOfEvent(lease, n, if k < |n.facts| + |n.deferred| then 0 else k - |n.facts| - |n.deferred|)
                && (ok ==> k == |AllEffects(lease, n, r)|)
    {
      hide Valid, Prepares, BoundMovements, AllEffects, Answers, MovementProvenance;
      NoneAnswered(n, r);
      ghost var effects := AllEffects(lease, n, r);
      assert effects[..0] == [];
      var valid := Validate(n);
      if !valid {
        return false;
      }
      if n.ignored {
        NothingInIgnored(n);
        return true;
      }
      var movements := Persist(lease, n, r);
      if movements.None? {
        return false;
      }
      var start := |n.facts| + |n.deferred|;
      for i := 0 to |movements.value|
        invariant log == old(log) + effects[..start + i]
        invariant MovementsOfEvent(lease, n, i)
        invariant forall j :: 0 <= j < i ==> n.movements[j].key !in r.upsertFails
      {
        MovementPlace(lease, n, r, i);
        if !MovementProvenance(lease, movements.value[i]) {
          return false;
        }
        var movement := Attributed(lease, movements.value[i]);
        if movement.key in r.upsertFails {
          return false;
        }
        log := log + [UpsertMovement(movement)];
        assert effects[..start + i + 1] == effects[..start + i] + [effects[start + i]];
      }
      assert effects[..|effects|] == effects;
      return true;
    }
  }

  lemma NoneAnswered(n: Normalized, r: Repository)
    ensures Answers(n, r, 0)
  {
  }

  lemma MovementPlace(lease: Lease, n: Normalized, r: Repository, i: nat)
    requires i < |n.movements|
    ensures AllEffects(lease, n, r)[|n.facts| + |n.deferred| + i]
            == UpsertMovement(Attributed(lease, BoundMovements(n, r, |n.bindings|)[i]))
    ensures var m := BoundMovements(n, r, |n.bindings|)[i];
            m.key == n.movements[i].key && (MovementProvenance(lease, m) <==> MovementProvenance(lease, n.movements[i]))
  {
    hide IdFor;
    var movements := BoundMovements(n, r, |n.bindings|);
    assert AllEffects(lease, n, r)[|n.facts| + |n.deferred| + i] == MovementEffects(lease, movements)[i];
  }

  lemma TaskPlace(lease: Lease, n: Normalized, r: Repository, i: nat)
    requires i < |n.deferred|
    ensures AllEffects(lease, n, r)[|n.facts| + i] == EnqueueTask(n.deferred[i], IdOf(r, n.deferred[i].factReference))
  {
    assert AllEffects(lease, n, r)[|n.facts| + i] == TaskEffects(n, r)[i];
  }

  lemma NothingInIgnored(n: Normalized)
    requires Valid(n) && n.ignored
    ensures n.facts == [] && n.deferred == [] && n.movements == []
  {
  }

  lemma Unbound(lease: Lease, n: Normalized, r: Repository)
    requires Prepares(lease, n)
    ensures BoundMovements(n, r, 0) == n.movements
  {
    hide BindingsSound;
    forall i | 0 <= i < |n.movements| ensures BoundMovements(n, r, 0)[i] == n.movements[i] {}
  }

  lemma OneMoreBound(n: Normalized, r: Repository, i: nat, index: nat, id: int)
    requires Valid(n) && i < |n.bindings| && index < |n.movements|
    requires n.movements[index].key == n.bindings[i].movementKey && id == IdOf(r, n.bindings[i].factReference)
    ensures var before := BoundMovements(n, r, i);
            BoundMovements(n, r, i + 1) == before[index := before[index].(factId := Some(id))]
  {
    hide Valid;
    assert n.bindings[..i + 1][..i] == n.bindings[..i];
    forall j | 0 <= j < |n.movements| && n.movements[j].key == n.movements[index].key ensures j == index {
      KeyedOne(n, j, index);
    }
  }

  lemma DeferredKnown(n: Normalized, i: nat)
    requires Valid(n) && i < |n.deferred|
    ensures exists j :: 0 <= j < |n.facts| && n.facts[j].reference == n.deferred[i].factReference
  {
    hide Distinct, RequiredString, Text.Trim;
    var references := References(n.facts);
    assert n.deferred[i].factReference in references;
    var j :| 0 <= j < |references| && references[j] == n.deferred[i].factReference;
  }

  // ---- What the order guarantees ---------------------------------------------------------------

  /** The fact ID an effect refers to. */
  function Refers(e: Effect): Option<int> {
    match e
    case StoreFact(_, _) => None
    case EnqueueTask(_, id) => Some(id)
    case UpsertMovement(m) => m.factId
  }

  lemma {:induction false} IdForIsBinding(bindings: seq<Binding>, r: Repository, key: string) returns (i: nat)
    requires IdFor(bindings, r, key).Some?
    ensures i < |bindings| && bindings[i].movementKey == key
    ensures IdFor(bindings, r, key) == Some(IdOf(r, bindings[i].factReference))
  {
    var last := |bindings| - 1;
    if bindings[last].movementKey == key {
      i := last;
    } else {
      i := IdForIsBinding(bindings[..last], r, key);
    }
  }

  /** The reference an effect names: a task its own, a movement its binding's. */
  ghost predicate WantsFact(n: Normalized, e: Effect, reference: string) {
    match e
    case StoreFact(_, _) => false
    case EnqueueTask(task, _) => task.factReference == reference
    case UpsertMovement(m) => Binding(m.key, reference) in n.bindings
  }

  /** The normalized fact of that reference, with the leased event's provenance. */
  ghost predicate BoundFact(lease: Lease, n: Normalized, reference: string, fact: Fact) {
    exists f :: Names(n, reference, f) && fact == Bound(lease, f)
  }

  /** However far an event gets before something fails, whatever has been stored refers only
      to a fact ID stored before it, and the fact stored under that ID is the one the task
      or the movement's binding names. */
  lemma FactsPrecedeReferences(lease: Lease, n: Normalized, r: Repository, k: nat, i: nat)
    requires Valid(n) && i < k <= |AllEffects(lease, n, r)|
    requires Answers(n, r, if k < |n.facts| then k else |n.facts|)
    requires Refers(AllEffects(lease, n, r)[i]).Some?
    ensures var effects := AllEffects(lease, n, r);
            exists j :: 0 <= j < i && effects[j].StoreFact?
                        && effects[j].id == Refers(effects[i]).value > 0
                        && WantsFact(n, effects[i], effects[j].fact.reference)
                        && BoundFact(lease, n, effects[j].fact.reference, effects[j].fact)
  {
    hide Valid, BoundFact;
    var effects := AllEffects(lease, n, r);
    var f, d := |n.facts|, |n.deferred|;
    FactsReferToNothing(lease, n, r);
    if i < f + d {
      TaskPlace(lease, n, r, i - f);
      DeferredKnown(n, i - f);
      var j :| 0 <= j < f && n.facts[j].reference == n.deferred[i - f].factReference;
      FactPlace(lease, n, r, j);
      assert WantsFact(n, effects[i], effects[j].fact.reference);
    } else {
      var m := i - f - d;
      MovementPlace(lease, n, r, m);
      assert n.bindings[..|n.bindings|] == n.bindings;
      var b := IdForIsBinding(n.bindings, r, n.movements[m].key);
      BoundFactKnown(n, b);
      var j :| 0 <= j < f && n.facts[j].reference == n.bindings[b].factReference;
      FactPlace(lease, n, r, j);
      assert n.bindings[b] == Binding(n.movements[m].key, n.facts[j].reference);
      assert WantsFact(n, effects[i], effects[j].fact.reference);
    }
  }

  lemma FactPlace(lease: Lease, n: Normalized, r: Repository, j: nat)
    requires j < |n.facts|
    ensures AllEffects(lease, n, r)[j] == StoreFact(Bound(lease, n.facts[j]), IdOf(r, n.facts[j].reference))
    ensures BoundFact(lease, n, n.facts[j].reference, Bound(lease, n.facts[j]))
  {
    assert AllEffects(lease, n, r)[j] == FactEffects(lease, n, r)[j];
    assert Names(n, n.facts[j].reference, n.facts[j]);
  }

  /** Everything stored for an event names that event: each fact its ID and payload digest,
      each movement its provider ID, ID, digest and routing action; nothing else about either
      changes, but for the fact ID of a bound movement. */
  lemma StoredNamesItsEvent(lease: Lease, n: Normalized, r: Repository, i: nat)
    requires i < |AllEffects(lease, n, r)|
    ensures var e := AllEffects(lease, n, r)[i];
            var f, d := |n.facts|, |n.deferred|;
            && (i < f ==>
                  e.StoreFact? && e.fact == n.facts[i].(sourceEvent := e.fact.sourceEvent, digest := e.fact.digest))
            && (e.StoreFact? ==> i < f && e.fact.sourceEvent == lease.id && e.fact.digest == lease.digest)
            && (f <= i < f + d ==> e.EnqueueTask? && e.task == n.deferred[i - f])
            && (e.UpsertMovement? ==>
                  var m := e.movement;
                  && f + d <= i && m.event == lease.event && m.latest == Some(lease.id) && m.digest == lease.digest
                  && m.routing == lease.routing
                  && m.key == n.movements[i - f - d].key && m.channel == n.movements[i - f - d].channel)
            && (f + d <= i ==> e.UpsertMovement?)
  {
    hide IdFor;
    var f, d := |n.facts|, |n.deferred|;
    if i < f {
      FactPlace(lease, n, r, i);
    } else if i < f + d {
      TaskPlace(lease, n, r, i - f);
    } else {
      MovementPlace(lease, n, r, i - f - d);
    }
  }

  /** Which facts and movements may name a delivery: none, or the leased one. */
  lemma ProvenanceExactly(lease: Lease, f: Fact, m: Movement)
    ensures Provenance(lease, f) <==>
            && f.sound && f.channel == lease.channel && f.sourceEvent in {0, lease.id} && f.digest in {"", lease.digest}
    ensures MovementProvenance(lease, m) <==>
            && m.channel == lease.channel && m.event in {"", lease.event} && m.latest in {None, Some(lease.id)}
            && m.digest in {"", lease.digest}
  {
  }

  lemma FactsReferToNothing(lease: Lease, n: Normalized, r: Repository)
    ensures forall i :: 0 <= i < |n.facts| ==> Refers(AllEffects(lease, n, r)[i]) == None
  {
    forall i | 0 <= i < |n.facts|
      ensures Refers(AllEffects(lease, n, r)[i]) == None
    {
      assert AllEffects(lease, n, r)[i] == FactEffects(lease, n, r)[i];
    }
  }

  lemma BoundFactKnown(n: Normalized, b: nat)
    requires Valid(n) && b < |n.bindings|
    ensures exists j :: 0 <= j < |n.facts| && n.facts[j].reference == n.bindings[b].factReference
  {
    hide Distinct, RequiredString, Text.Trim;
    var references := References(n.facts);
    assert n.bindings[b].factReference in references;
    var j :| 0 <= j < |references| && references[j] == n.bindings[b].factReference;
  }

  /** A movement carries a fact ID exactly when a binding names it, and then it is that
      binding's fact, which is no unproven total and, if several movements share it, is
      proven derivable. */
  lemma MovementsCarryTheirFacts(lease: Lease, n: Normalized, r: Repository, m: nat)
    requires Valid(n) && Prepares(lease, n) && m < |n.movements|
    ensures var id := BoundMovements(n, r, |n.bindings|)[m].factId;
            && (id.Some? <==> exists b :: 0 <= b < |n.bindings| && n.bindings[b].movementKey == n.movements[m].key)
            && forall b, f :: 0 <= b < |n.bindings| && n.bindings[b].movementKey == n.movements[m].key
                              && Names(n, n.bindings[b].factReference, f) ==>
                 && id == Some(IdOf(r, f.reference))
                 && (f.scope == TransactionTotal ==> f.allocation == ProvenDerivable)
                 && ((exists c :: 0 <= c < |n.bindings| && c != b && n.bindings[c].factReference == f.reference) ==>
                       f.allocation == ProvenDerivable)
  {
    hide Valid;
    assert n.bindings[..|n.bindings|] == n.bindings;
    var key := n.movements[m].key;
    var id := IdFor(n.bindings, r, key);
    if id.Some? {
      var b := IdForIsBinding(n.bindings, r, key);
    }
    forall b | 0 <= b < |n.bindings| && n.bindings[b].movementKey == key
      ensures id == Some(IdOf(r, n.bindings[b].factReference))
    {
      OnlyBinding(n, r, n.bindings, b, key);
    }
    forall b, f | 0 <= b < |n.bindings| && n.bindings[b].movementKey == key && Names(n, n.bindings[b].factReference, f)
                  && exists c :: 0 <= c < |n.bindings| && c != b && n.bindings[c].factReference == f.reference
      ensures f.allocation == ProvenDerivable
    {
      var c :| 0 <= c < |n.bindings| && c != b && n.bindings[c].factReference == f.reference;
      assert SharesFact(n, if b < c then b else c, if b < c then c else b, f);
    }
  }

  lemma {:induction false} OnlyBinding(n: Normalized, r: Repository, prefix: seq<Binding>, b: nat, key: string)
    requires Valid(n) && prefix <= n.bindings && b < |prefix| && prefix[b].movementKey == key
    ensures IdFor(prefix, r, key) == Some(IdOf(r, prefix[b].factReference))
  {
    hide RequiredString, Text.Trim;
    var last := |prefix| - 1;
    if b < last {
      assert BoundKeys(n.bindings)[b] != BoundKeys(n.bindings)[last];
      OnlyBinding(n, r, prefix[..last], b, key);
    }
  }
}
