/** `ORDER BY next_attempt_at, id ... LIMIT 1` over the rows a claim may take. */
module DueQueue {
  import opened Ordering

  /** `id` comes first by (due, id). */
  predicate IsFirst(candidates: set<int>, due: map<int, int>, id: int)
    requires candidates <= due.Keys
  {
    && id in candidates
    && forall other :: other in candidates ==> due[id] < due[other] || (due[id] == due[other] && id <= other)
  }

  method PickFirst(candidates: set<int>, due: map<int, int>) returns (id: int)
    requires candidates != {} && candidates <= due.Keys
    ensures IsFirst(candidates, due, id)
    ensures id in candidates && forall other :: other in candidates ==> due[id] <= due[other]
    ensures forall other :: other in candidates && other < id ==> due[id] < due[other]
  {
    var rest := candidates;
    ghost var first := SomeMember(rest);
    id :| id in rest;
    rest := rest - {id};
    while rest != {}
      invariant rest <= candidates && id in candidates
      invariant IsFirst(candidates - rest, due, id)
      decreases rest
    {
      ghost var some := SomeMember(rest);
      var other :| other in rest;
      if due[other] < due[id] || (due[other] == due[id] && other < id) {
        id := other;
      }
      rest := rest - {other};
    }
    assert candidates - rest == candidates;
  }
}
