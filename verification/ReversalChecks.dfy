/** When a reversal may be linked to the movement it reverses
    (internal/companyfund/ledger_task_processor.go). */
module ReversalChecks {
  import opened Wrappers

  datatype Direction = Inflow | Outflow | InternalTransfer | Unsupported

  datatype Movement = Movement(currency: string, amount: real, direction: Direction, from: Option<int>, to: Option<int>)

  datatype Conflict = ValueConflict | DirectionAccountConflict

  /** validateAirwallexReversalSemantics. */
  function ReversalConflict(proposal: Movement, target: Movement): Option<Conflict> {
    if proposal.currency != target.currency || proposal.amount <= 0.0 || proposal.amount > target.amount
    then Some(ValueConflict)
    else
      match target.direction
      case Outflow =>
        if proposal.direction != Inflow || target.from == None || proposal.to == None || target.from != proposal.to
        then Some(DirectionAccountConflict) else None
      case Inflow =>
        if proposal.direction != Outflow || target.to == None || proposal.from == None || target.to != proposal.from
        then Some(DirectionAccountConflict) else None
      case InternalTransfer =>
        if proposal.direction != InternalTransfer || target.from == None || target.to == None || proposal.from == None
           || proposal.to == None || target.from != proposal.to || target.to != proposal.from
        then Some(DirectionAccountConflict) else None
      case Unsupported => Some(DirectionAccountConflict)
  }

  /** The company accounts a movement's direction needs are there. */
  predicate Complete(m: Movement) {
    match m.direction
    case Inflow => m.to.Some?
    case Outflow => m.from.Some?
    case InternalTransfer => m.from.Some? && m.to.Some?
    case Unsupported => false
  }

  /** Value enters, or leaves, that company account. */
  predicate Enters(m: Movement, account: int) {
    m.direction != Outflow && m.to == Some(account)
  }

  predicate Leaves(m: Movement, account: int) {
    m.direction != Inflow && m.from == Some(account)
  }

  /** Value enters and leaves every account the other way round. */
  ghost predicate Opposite(proposal: Movement, target: Movement) {
    && (forall account :: Enters(proposal, account) <==> Leaves(target, account))
    && (forall account :: Leaves(proposal, account) <==> Enters(target, account))
  }

  /** What one unit of the movement adds to an account. */
  function Flow(m: Movement, account: int): int {
    (if Enters(m, account) then 1 else 0) - if Leaves(m, account) then 1 else 0
  }

  /** A reversal is accepted exactly when it takes back part or all of the value, in the same
      currency, the opposite way through every company account; so with the movement it
      reverses it adds up to nothing, unit by unit, in each of them. */
  lemma ReversalRunsBackwards(proposal: Movement, target: Movement)
    ensures ReversalConflict(proposal, target) == None
            <==> && proposal.currency == target.currency && 0.0 < proposal.amount <= target.amount
                 && Complete(proposal) && Complete(target) && Opposite(proposal, target)
    ensures ReversalConflict(proposal, target) == Some(ValueConflict)
            <==> proposal.currency != target.currency || !(0.0 < proposal.amount <= target.amount)
    ensures ReversalConflict(proposal, target) == None ==>
              forall account :: Flow(proposal, account) == -Flow(target, account)
  {
    if Complete(proposal) && Complete(target) && Opposite(proposal, target) {
      if target.direction != Outflow { assert Enters(target, target.to.value); }
      if target.direction != Inflow { assert Leaves(target, target.from.value); }
      if proposal.direction != Outflow { assert Enters(proposal, proposal.to.value); }
      if proposal.direction != Inflow { assert Leaves(proposal, proposal.from.value); }
    }
  }
}
