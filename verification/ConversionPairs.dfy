/** Pairing the two legs of a provider conversion
    (internal/companyfund/ledger_task_processor.go, repository.go,
    transaction_linkage_repository.go). */
module ConversionPairs {
  import opened Wrappers
  import opened Ordering
  import LedgerTasks

  datatype Leg = NoLeg | Sell | Buy
  datatype GroupState = NoState | Incomplete | Complete

  // ---- Evidence that two tasks are one conversion --------------------------------------

  /** A proposed ledger row; `valid` when it passes the transaction upsert's own validation. */
  datatype Proposal = Proposal(
    key: string, internalTransfer: bool, from: Option<int>, to: Option<int>, currency: string, amount: real, leg: Leg,
    valid: bool)

  /** Tasks are stored with the account they belong to. */
  type AccountKey = s: string | s != "" witness "account"

  /** A pairing task; `readable` when its stored payload still matches its digest. */
  datatype PairTask = PairTask(
    account: AccountKey, conversionPair: bool, dead: bool, fact: int, subject: string, sourceConversion: bool,
    referenceKey: string, groupKey: string, evidence: string, readable: bool, proposal: Proposal)

  datatype Fact = Fact(
    providerTransaction: string, sourceReference: string, fromCurrency: string, toCurrency: string, rate: Option<real>,
    amount: Option<real>, currency: string)

  datatype Conflict = RelationshipEvidence | AccountDirection | PairFact | LegValue | LegCurrency

  predicate OnOneAccount(p: Proposal) {
    p.internalTransfer && p.from.Some? && p.to.Some? && p.from == p.to
  }

  predicate LegMatchesFact(p: Proposal, f: Fact) {
    p.leg != NoLeg && p.currency == if p.leg == Buy then f.toCurrency else f.fromCurrency
  }

  /** validateAirwallexConversionPairEvidence: the first conflict found. */
  function PairConflict(lease: PairTask, peer: PairTask, leaseFact: Fact, peerFact: Fact): Option<Conflict> {
    if !lease.sourceConversion || peer.sourceConversion != lease.sourceConversion
       || peer.referenceKey != lease.referenceKey || peer.groupKey != lease.groupKey || peer.evidence != lease.evidence
    then Some(RelationshipEvidence)
    else if !lease.proposal.internalTransfer || !peer.proposal.internalTransfer
            || lease.proposal.from.None? || lease.proposal.to.None?
            || peer.proposal.from.None? || peer.proposal.to.None?
            || lease.proposal.from != lease.proposal.to || peer.proposal.from != peer.proposal.to
            || lease.proposal.from != peer.proposal.from
    then Some(AccountDirection)
    else if leaseFact.providerTransaction != lease.subject || peerFact.providerTransaction != peer.subject
            || leaseFact.sourceReference == "" || leaseFact.sourceReference != lease.groupKey
            || peerFact.sourceReference != leaseFact.sourceReference
            || leaseFact.fromCurrency == "" || leaseFact.toCurrency == ""
            || leaseFact.fromCurrency == leaseFact.toCurrency
            || peerFact.fromCurrency != leaseFact.fromCurrency || peerFact.toCurrency != leaseFact.toCurrency
            || leaseFact.rate.None? || peerFact.rate.None?
            || leaseFact.rate.value <= 0.0 || leaseFact.rate != peerFact.rate
    then Some(PairFact)
    else if leaseFact.amount.None? || peerFact.amount.None?
            || leaseFact.currency != lease.proposal.currency || peerFact.currency != peer.proposal.currency
            || leaseFact.amount.value != lease.proposal.amount || peerFact.amount.value != peer.proposal.amount
    then Some(LegValue)
    else if !LegMatchesFact(lease.proposal, leaseFact) || !LegMatchesFact(peer.proposal, peerFact)
    then Some(LegCurrency)
    else None
  }

  /** What the evidence has to show, in the order the conflicts are looked for. */
  ghost predicate Shows(lease: PairTask, peer: PairTask, leaseFact: Fact, peerFact: Fact, conflict: Conflict) {
    var p, q := lease.proposal, peer.proposal;
    match conflict
    case RelationshipEvidence =>
      && lease.sourceConversion && peer.sourceConversion && lease.referenceKey == peer.referenceKey
      && lease.groupKey == peer.groupKey && lease.evidence == peer.evidence
    case AccountDirection =>
      p.internalTransfer && q.internalTransfer && p.from.Some? && p.from == p.to == q.from == q.to
    case PairFact =>
      && leaseFact.providerTransaction == lease.subject && peerFact.providerTransaction == peer.subject
      && leaseFact.sourceReference == peerFact.sourceReference == lease.groupKey != ""
      && leaseFact.fromCurrency == peerFact.fromCurrency != "" && leaseFact.toCurrency == peerFact.toCurrency != ""
      && leaseFact.fromCurrency != leaseFact.toCurrency
      && leaseFact.rate.Some? && leaseFact.rate == peerFact.rate && leaseFact.rate.value > 0.0
    case LegValue =>
      && leaseFact.amount == Some(p.amount) && peerFact.amount == Some(q.amount)
      && leaseFact.currency == p.currency && peerFact.currency == q.currency
    case LegCurrency =>
      && (|| (p.leg == Sell && p.currency == leaseFact.fromCurrency)
          || (p.leg == Buy && p.currency == leaseFact.toCurrency))
      && (|| (q.leg == Sell && q.currency == peerFact.fromCurrency)
          || (q.leg == Buy && q.currency == peerFact.toCurrency))
  }

  /** The evidence is accepted exactly when all of that is shown, and otherwise the conflict
      reported is the first part that is not. */
  lemma ConflictsExactly(lease: PairTask, peer: PairTask, leaseFact: Fact, peerFact: Fact)
    ensures var found := PairConflict(lease, peer, leaseFact, peerFact);
            var evidence := Shows(lease, peer, leaseFact, peerFact, RelationshipEvidence);
            var accounts := Shows(lease, peer, leaseFact, peerFact, AccountDirection);
            var facts := Shows(lease, peer, leaseFact, peerFact, PairFact);
            var values := Shows(lease, peer, leaseFact, peerFact, LegValue);
            var currencies := Shows(lease, peer, leaseFact, peerFact, LegCurrency);
            && (found == Some(RelationshipEvidence) <==> !evidence)
            && (found == Some(AccountDirection) <==> evidence && !accounts)
            && (found == Some(PairFact) <==> evidence && accounts && !facts)
            && (found == Some(LegValue) <==> evidence && accounts && facts && !values)
            && (found == Some(LegCurrency) <==> evidence && accounts && facts && values && !currencies)
            && (found == None <==> evidence && accounts && facts && values && currencies)
  {
  }

  /** It does not matter which leg's task is being processed: the verdict, down to the code
      of the conflict, is the same either way round. And when it is accepted for opposite
      legs, one account sells the conversion's first currency and buys its second. */
  lemma PairEvidenceIsSymmetric(a: PairTask, b: PairTask, aFact: Fact, bFact: Fact)
    ensures PairConflict(a, b, aFact, bFact) == PairConflict(b, a, bFact, aFact)
    ensures PairConflict(a, b, aFact, bFact) == None && a.proposal.leg != b.proposal.leg ==>
              var (sell, buy) := if a.proposal.leg == Sell then (a, b) else (b, a);
              && sell.proposal.leg == Sell && buy.proposal.leg == Buy
              && OnOneAccount(sell.proposal) && OnOneAccount(buy.proposal) && sell.proposal.from == buy.proposal.from
              && sell.proposal.currency == aFact.fromCurrency && buy.proposal.currency == aFact.toCurrency
              && sell.proposal.currency != buy.proposal.currency
              && sell.groupKey == buy.groupKey != ""
  {
  }

  // ---- Ledger rows -----------------------------------------------------------------------

  /** A transaction row, known by its unique movement key. */
  datatype Row = Row(account: string, group: string, leg: Leg, state: GroupState, pair: Option<string>)

  type Rows = map<string, Row>

  datatype Upsert = Upsert(key: string, account: string, group: string, leg: Leg, state: GroupState)

  function ResolveState(existing: GroupState, incoming: GroupState): GroupState {
    if existing == Complete || incoming == Complete then Complete
    else if incoming != NoState then incoming
    else existing
  }

  /** Why an upsert refuses: another identity is stored under the key, which quarantines the
      movement, or anything else, which is a plain error. */
  datatype Refusal = Quarantined | UpsertFailed

  /** The stored row belongs to another account. */
  predicate Foreign(rows: Rows, u: Upsert) {
    u.key in rows && u.account != "" && rows[u.key].account != "" && rows[u.key].account != u.account
  }

  /** The stored row is already linked to another group, or as another leg. */
  predicate LinkedElsewhere(rows: Rows, u: Upsert) {
    && u.key in rows
    && ((u.group != "" && rows[u.key].group != "" && rows[u.key].group != u.group)
        || (u.leg != NoLeg && rows[u.key].leg != NoLeg && rows[u.key].leg != u.leg))
  }

  /** The identity and linkage part of an upsert: account, group and leg are set once,
      COMPLETE is never undone. The account is checked first. */
  function UpsertRow(rows: Rows, u: Upsert): Result<Rows, Refusal> {
    if u.key !in rows then Ok(rows[u.key := Row(u.account, u.group, u.leg, u.state, None)])
    else if Foreign(rows, u) then Err(Quarantined)
    else if LinkedElsewhere(rows, u) then Err(UpsertFailed)
    else
      var row := rows[u.key];
      Ok(rows[u.key := row.(
           account := if u.account == "" then row.account else u.account,
           group := if u.group == "" then row.group else u.group,
           leg := if u.leg == NoLeg then row.leg else u.leg,
           state := ResolveState(row.state, u.state))])
  }

  /** A row that keeps what is set in the stored row and in the upsert: COMPLETE if either is,
      and otherwise in the state the upsert names, if it names one. */
  ghost predicate Joins(was: Row, u: Upsert, r: Row) {
    && r.account in {was.account, u.account} && (r.account == "" ==> was.account == u.account == "")
    && (was.account != "" ==> r.account == was.account) && (u.account != "" ==> r.account == u.account)
    && r.group in {was.group, u.group} && (r.group == "" ==> was.group == u.group == "")
    && (was.group != "" ==> r.group == was.group) && (u.group != "" ==> r.group == u.group)
    && r.leg in {was.leg, u.leg} && (r.leg == NoLeg ==> was.leg == u.leg == NoLeg)
    && (was.leg != NoLeg ==> r.leg == was.leg) && (u.leg != NoLeg ==> r.leg == u.leg)
    && (r.state == Complete <==> Complete in {was.state, u.state})
    && (r.state != Complete ==> r.state == if u.state == NoState then was.state else u.state)
    && r.pair == was.pair
  }

  /** An upsert goes through exactly when there is such a row, and that is the row stored; an
      account that differs is what quarantines it. */
  lemma UpsertJoins(rows: Rows, u: Upsert)
    ensures u.key in rows ==> (UpsertRow(rows, u).Ok? <==> exists r :: Joins(rows[u.key], u, r))
    ensures UpsertRow(rows, u).Ok? ==>
              var after := UpsertRow(rows, u).value;
              && u.key in after && after == rows[u.key := after[u.key]]
              && (if u.key in rows then Joins(rows[u.key], u, after[u.key])
                  else after[u.key] == Row(u.account, u.group, u.leg, u.state, None))
    ensures UpsertRow(rows, u) == Err(Quarantined) <==>
            u.key in rows && "" !in {u.account, rows[u.key].account} && u.account != rows[u.key].account
  {
    if UpsertRow(rows, u).Ok? && u.key in rows {
      assert Joins(rows[u.key], u, UpsertRow(rows, u).value[u.key]);
    }
  }

  function InGroup(rows: Rows, account: string, group: string): set<string> {
    set k | k in rows && rows[k].account == account && rows[k].group == group
  }

  function Legs(rows: Rows, keys: set<string>, leg: Leg): set<string> {
    set k | k in keys && k in rows && rows[k].leg == leg
  }

  /** Exactly two rows, one SELL and one BUY. */
  predicate Balanced(rows: Rows, keys: set<string>) {
    |keys| == 2 && |Legs(rows, keys, Sell)| == 1 && |Legs(rows, keys, Buy)| == 1
  }

  /** The other member of a two-row group. */
  predicate PeerIs(keys: set<string>, k: string, peer: string) {
    peer in keys && peer != k
  }

  /** The rows the completing statement touches: those not paired with anyone else. */
  function Touched(rows: Rows, keys: set<string>): set<string> {
    set k | k in keys && k in rows && (rows[k].pair == None || PeerIs(keys, k, rows[k].pair.value))
  }

  function PeerOf(keys: set<string>, k: string): string
    requires |keys| == 2 && k in keys
  {
    ThereIsAPeer(keys, k);
    var peer :| PeerIs(keys, k, peer);
    peer
  }

  lemma ThereIsAPeer(keys: set<string>, k: string)
    requires |keys| == 2 && k in keys
    ensures exists peer :: PeerIs(keys, k, peer)
    ensures forall p, q :: PeerIs(keys, k, p) && PeerIs(keys, k, q) ==> p == q
  {
    var rest := keys - {k};
    assert |rest| == 1;
    var some := SomeMember(rest);
    if forall peer :: !PeerIs(keys, k, peer) {
      assert forall x :: x in rest ==> PeerIs(keys, k, x);
    }
    forall p, q | PeerIs(keys, k, p) && PeerIs(keys, k, q)
      ensures p == q
    {
      if p != q {
        assert {p, q} <= rest;
        SubsetSize({p, q}, rest);
      }
    }
  }

  lemma SubsetSize(a: set<string>, b: set<string>)
    requires a <= b
    ensures |a| <= |b|
  {
    assert b == a + (b - a);
  }

  /** completeAirwallexConversionGroupSQL. */
  function CompleteStatement(rows: Rows, account: string, group: string): (Rows, nat) {
    var keys := InGroup(rows, account, group);
    if !Balanced(rows, keys) then (rows, 0)
    else
      var touched := Touched(rows, keys);
      (map k | k in rows ::
         if k in touched then rows[k].(state := Complete, pair := Some(PeerOf(keys, k))) else rows[k],
       |touched|)
  }

  /** completeAirwallexConversionGroupTx inside its transaction: anything but two updated
      rows rolls everything back. */
  function ConversionTx(rows: Rows, first: Upsert, second: Upsert): Option<Rows> {
    match UpsertBoth(rows, first, second)
    case Err(_) => None
    case Ok(both) =>
      var (done, count) := CompleteStatement(both, first.account, first.group);
      if count == 2 then Some(done) else None
  }

  function UpsertBoth(rows: Rows, first: Upsert, second: Upsert): Result<Rows, Refusal> {
    match UpsertRow(rows, first)
    case Err(refusal) => Err(refusal)
    case Ok(one) => UpsertRow(one, second)
  }

  // ---- processConversion -----------------------------------------------------------------

  datatype Outcome =
    | Linked(key: string)
    | RetryLater
    | GroupConflict
    | EvidenceConflict(conflict: Conflict)
    | LegConflict
    | ProposalInvalid
    | GroupInvalid
    | FactMissing
    | UpsertError

  /** FactMissing and UpsertError are errors: the task stays leased and is claimed again. */
  function TurnVerdict(outcome: Outcome, subject: int, retryAfter: int): LedgerTasks.Verdict {
    match outcome
    case Linked(_) => LedgerTasks.Done(Some(subject))
    case RetryLater => LedgerTasks.Again(retryAfter)
    case FactMissing | UpsertError => LedgerTasks.Broken
    case _ => LedgerTasks.Hopeless
  }

  lemma TurnsEnd(outcome: Outcome, subject: int, retryAfter: int)
    ensures var verdict := TurnVerdict(outcome, subject, retryAfter);
            && (verdict == LedgerTasks.Done(Some(subject)) <==> outcome.Linked?)
            && (verdict == LedgerTasks.Again(retryAfter) <==> outcome == RetryLater)
            && (verdict == LedgerTasks.Broken <==> outcome in {FactMissing, UpsertError})
            && (verdict == LedgerTasks.Hopeless <==>
                  || outcome.EvidenceConflict?
                  || outcome in {GroupConflict, LegConflict, ProposalInvalid, GroupInvalid})
  {
  }

  function Peers(tasks: map<int, PairTask>, id: int): set<int>
    requires id in tasks
  {
    set k | k in tasks && k != id && tasks[k].account == tasks[id].account && tasks[k].conversionPair
            && tasks[k].groupKey == tasks[id].groupKey && !tasks[k].dead
  }

  function LinkUpsert(lease: PairTask, p: Proposal): Upsert {
    Upsert(p.key, lease.account, lease.groupKey, p.leg, Incomplete)
  }

  /** The two proposals in movement-key order. */
  function Ordered(a: Upsert, b: Upsert): (Upsert, Upsert) {
    if LexLess(b.key, a.key) then (b, a) else (a, b)
  }

  lemma OrderedByKey(a: Upsert, b: Upsert)
    ensures var (first, second) := Ordered(a, b);
            && (first, second) in {(a, b), (b, a)} && !LexLess(second.key, first.key)
            && (first == b && first.key != a.key ==> LexLess(b.key, a.key))
  {
    hide LexLess;
    LexStrictTotal();
  }

  predicate FactsLoaded(tasks: map<int, PairTask>, id: int, peer: int, facts: map<int, Fact>)
    requires id in tasks && peer in tasks
  {
    tasks[id].fact in facts && tasks[peer].fact in facts
  }

  /** What the evidence check says about the two tasks and their stored facts. */
  function Evidence(tasks: map<int, PairTask>, id: int, peer: int, facts: map<int, Fact>): Option<Conflict>
    requires id in tasks && peer in tasks && FactsLoaded(tasks, id, peer, facts)
  {
    PairConflict(tasks[id], tasks[peer], facts[tasks[id].fact], facts[tasks[peer].fact])
  }

  predicate OppositeProposals(p: Proposal, q: Proposal) {
    p.leg != q.leg && p.leg != NoLeg && q.leg != NoLeg
  }

  /** The two tasks' own evidence lets them be one conversion. */
  predicate Agreed(tasks: map<int, PairTask>, id: int, peer: int, facts: map<int, Fact>)
    requires id in tasks && peer in tasks
  {
    && tasks[peer].readable && FactsLoaded(tasks, id, peer, facts) && Evidence(tasks, id, peer, facts) == None
    && OppositeProposals(tasks[id].proposal, tasks[peer].proposal)
    && tasks[id].proposal.valid && tasks[peer].proposal.valid
  }

  lemma AgreedExactly(tasks: map<int, PairTask>, id: int, peer: int, facts: map<int, Fact>)
    requires id in tasks && peer in tasks
    ensures var lease, other := tasks[id], tasks[peer];
            Agreed(tasks, id, peer, facts) <==>
            && other.readable && {lease.fact, other.fact} <= facts.Keys
            && PairConflict(lease, other, facts[lease.fact], facts[other.fact]) == None
            && {lease.proposal.leg, other.proposal.leg} == {Sell, Buy}
            && lease.proposal.valid && other.proposal.valid
  {
    hide PairConflict;
    var legs := {tasks[id].proposal.leg, tasks[peer].proposal.leg};
    assert tasks[id].proposal.leg in legs && tasks[peer].proposal.leg in legs;
    assert tasks[id].fact in {tasks[id].fact, tasks[peer].fact};
    if legs == {Sell, Buy} {
      assert Sell in legs && Buy in legs;
    }
  }

  /** The two proposals as they are upserted, in movement-key order. */
  function InOrder(tasks: map<int, PairTask>, id: int, peer: int): (Upsert, Upsert)
    requires id in tasks && peer in tasks
  {
    Ordered(LinkUpsert(tasks[id], tasks[id].proposal), LinkUpsert(tasks[id], tasks[peer].proposal))
  }

  /** An upsert whose other checks may refuse first: `others` says for which keys, and how. */
  function UpsertChecked(rows: Rows, u: Upsert, others: map<string, Refusal>): Result<Rows, Refusal> {
    if u.key in others then Err(others[u.key]) else UpsertRow(rows, u)
  }

  function BothChecked(rows: Rows, first: Upsert, second: Upsert, others: map<string, Refusal>): Result<Rows, Refusal> {
    match UpsertChecked(rows, first, others)
    case Err(refusal) => Err(refusal)
    case Ok(one) => UpsertChecked(one, second, others)
  }

  /** Both proposals upserted. */
  function Stored(rows: Rows, tasks: map<int, PairTask>, id: int, peer: int, others: map<string, Refusal>)
    : Result<Rows, Refusal>
    requires id in tasks && peer in tasks
  {
    var (first, second) := InOrder(tasks, id, peer);
    BothChecked(rows, first, second, others)
  }

  /** The whole transaction. */
  function Committed(rows: Rows, tasks: map<int, PairTask>, id: int, peer: int): Option<Rows>
    requires id in tasks && peer in tasks
  {
    var (first, second) := InOrder(tasks, id, peer);
    ConversionTx(rows, first, second)
  }

  /** The group both rows were stored in is exactly one SELL and one BUY, and neither row is
      paired with a third. */
  predicate Completes(both: Rows, account: string, group: string) {
    var keys := InGroup(both, account, group);
    Balanced(both, keys) && |Touched(both, keys)| == 2
  }

  /** Every outcome with the only live peer found, each with its exact condition. */
  ghost predicate Verdict(outcome: Outcome, rows: Rows, tasks: map<int, PairTask>, id: int, peer: int,
                          facts: map<int, Fact>, others: map<string, Refusal>)
    requires id in tasks && peer in tasks
  {
    var readable := tasks[peer].readable;
    var loaded := FactsLoaded(tasks, id, peer, facts);
    var evident := readable && loaded && Evidence(tasks, id, peer, facts) == None;
    var opposite := OppositeProposals(tasks[id].proposal, tasks[peer].proposal);
    var agreed := Agreed(tasks, id, peer, facts);
    var stored := Stored(rows, tasks, id, peer, others);
    var completes := stored.Ok? && Completes(stored.value, tasks[id].account, tasks[id].groupKey);
    && outcome != RetryLater
    && (outcome == GroupConflict <==> !readable || (agreed && stored == Err(Quarantined)))
    && (outcome == UpsertError <==> agreed && stored == Err(UpsertFailed))
    && (outcome == FactMissing <==> readable && !loaded)
    && (outcome.EvidenceConflict? <==> readable && loaded && !evident)
    && (outcome.EvidenceConflict? ==> Evidence(tasks, id, peer, facts) == Some(outcome.conflict))
    && (outcome == LegConflict <==> evident && !opposite)
    && (outcome == ProposalInvalid <==> evident && opposite && !agreed)
    && (outcome == GroupInvalid <==> agreed && stored.Ok? && !completes)
    && (outcome.Linked? <==> agreed && completes)
    && (outcome.Linked? ==> outcome.key == tasks[id].proposal.key)
  }

  /** The two movement keys are stored rows of the group, COMPLETE and pointing at each
      other, with the legs proposed; every other row is as it was. */
  ghost predicate PairedWith(before: Rows, after: Rows, k: string, leg: Leg, peer: string, peerLeg: Leg) {
    && k != peer && after.Keys == before.Keys + {k, peer}
    && after[k].state == Complete && after[k].pair == Some(peer) && after[k].leg == leg
    && after[peer].state == Complete && after[peer].pair == Some(k) && after[peer].leg == peerLeg
    && after[k].account == after[peer].account && after[k].group == after[peer].group != ""
    && forall other :: other in before && other != k && other != peer ==> after[other] == before[other]
  }

  /** loadAirwallexConversionPeer: the only live peer, if it can be read. */
  method LoadPeer(tasks: map<int, PairTask>, id: int) returns (peer: Option<int>, conflict: bool)
    requires id in tasks
    ensures conflict <==>
            || |Peers(tasks, id)| > 1
            || (|Peers(tasks, id)| == 1 && exists p :: p in Peers(tasks, id) && !tasks[p].readable)
    ensures !conflict ==> (peer == None <==> Peers(tasks, id) == {})
    ensures !conflict && peer.Some? ==>
              && Peers(tasks, id) == {peer.value} && peer.value in tasks && tasks[peer.value].readable
              && tasks[peer.value].account == tasks[id].account && tasks[peer.value].groupKey == tasks[id].groupKey
    ensures |Peers(tasks, id)| == 1 ==> forall p, q :: p in Peers(tasks, id) && q in Peers(tasks, id) ==> p == q
    ensures !conflict ==>
              forall k :: k in tasks && k != id && peer != Some(k) && tasks[k].conversionPair
                          && tasks[k].account == tasks[id].account && tasks[k].groupKey == tasks[id].groupKey ==>
                tasks[k].dead
    ensures !conflict && peer.Some? ==> peer.value != id && tasks[peer.value].conversionPair && !tasks[peer.value].dead
  {
    var peers := Peers(tasks, id);
    assert forall k :: k in tasks && k != id && k !in peers && tasks[k].conversionPair
                       && tasks[k].account == tasks[id].account && tasks[k].groupKey == tasks[id].groupKey ==>
             tasks[k].dead;
    if peers == {} { return None, false; }
    if |peers| != 1 { return None, true; }
    OnlyMember(peers);
    var p: int :| peers == {p};
    assert forall q :: q in peers ==> q in {p};
    assert p in Peers(tasks, id);
    return Some(p), !tasks[p].readable;
  }

  datatype TxEnd = Refused(refusal: Refusal) | Unbalanced | Joined

  class Ledger {
    var rows: Rows

    /** The transaction: both upserts and the completing statement, or nothing. */
    method StorePair(first: Upsert, second: Upsert, others: map<string, Refusal>) returns (end: TxEnd)
      requires first.group == second.group != "" && first.account == second.account != ""
      requires first.leg != second.leg && first.leg != NoLeg && second.leg != NoLeg
      requires first.state == Incomplete && second.state == Incomplete
      modifies this
      ensures var stored := BothChecked(old(rows), first, second, others);
              && (end.Refused? <==> stored.Err?) && (end.Refused? ==> stored == Err(end.refusal))
              && (end.Joined? <==> stored.Ok? && Completes(stored.value, first.account, first.group))
      ensures !end.Joined? ==> rows == old(rows)
      ensures end.Joined? ==>
                && ConversionTx(old(rows), first, second) == Some(rows)
                && PairedWith(old(rows), rows, first.key, first.leg, second.key, second.leg)
      ensures PairInv(old(rows)) ==> PairInv(rows)
    {
      hide CompleteStatement, UpsertRow, PairedWith, PairInv, Completes;
      // The transaction's view; the field changes only on commit.
      var one := UpsertChecked(rows, first, others);
      if one.Err? { return Refused(one.error); }
      var both := UpsertChecked(one.value, second, others);
      if both.Err? { return Refused(both.error); }
      var (done, count) := CompleteStatement(both.value, first.account, first.group);
      CountsTwo(both.value, first.account, first.group);
      if count != 2 { return Unbalanced; }
      CommittedConversionPairsItsLegs(rows, first, second);
      rows := done;
      return Joined;
    }

    /** What follows once the only live peer has been read. */
    method ProcessPair(tasks: map<int, PairTask>, id: int, peerId: int, facts: map<int, Fact>,
                       others: map<string, Refusal>)
      returns (outcome: Outcome)
      requires id in tasks && peerId in tasks && tasks[peerId].readable
      modifies this
      ensures Verdict(outcome, old(rows), tasks, id, peerId, facts, others)
      ensures !outcome.Linked? ==> rows == old(rows)
      ensures outcome.Linked? ==>
                && Committed(old(rows), tasks, id, peerId) == Some(rows)
                && PairedWith(old(rows), rows, tasks[id].proposal.key, tasks[id].proposal.leg,
                              tasks[peerId].proposal.key, tasks[peerId].proposal.leg)
      ensures PairInv(old(rows)) ==> PairInv(rows)
    {
      hide PairConflict, PairedWith, PairInv, Completes, LexLess, BothChecked, ConversionTx;
      var lease, peer := tasks[id], tasks[peerId];
      if lease.fact !in facts || peer.fact !in facts { return FactMissing; }
      var conflict := PairConflict(lease, peer, facts[lease.fact], facts[peer.fact]);
      if conflict.Some? { return EvidenceConflict(conflict.value); }
      if lease.proposal.leg == peer.proposal.leg || lease.proposal.leg == NoLeg || peer.proposal.leg == NoLeg {
        return LegConflict;
      }
      var first := Upsert(lease.proposal.key, lease.account, lease.groupKey, lease.proposal.leg, Incomplete);
      var second := Upsert(peer.proposal.key, lease.account, lease.groupKey, peer.proposal.leg, Incomplete);
      if LexLess(second.key, first.key) {
        first, second := second, first;
      }
      if !lease.proposal.valid || !peer.proposal.valid { return ProposalInvalid; }
      AcceptedGroupIsNamed(lease, peer, facts[lease.fact], facts[peer.fact]);
      var end := StorePair(first, second, others);
      match end
      case Refused(Quarantined) => return GroupConflict;
      case Refused(UpsertFailed) => return UpsertError;
      case Unbalanced => return GroupInvalid;
      case Joined =>
        FromEitherSide(old(rows), rows, first, second);
        return Linked(lease.proposal.key);
    }

    /** processConversion. Either both legs are stored, COMPLETE and pointing at each other,
        or the ledger is untouched; and each way out has its exact condition. */
    method ProcessConversion(tasks: map<int, PairTask>, id: int, facts: map<int, Fact>, others: map<string, Refusal>)
      returns (outcome: Outcome)
      requires id in tasks && tasks[id].conversionPair
      modifies this
      ensures outcome == RetryLater <==> Peers(tasks, id) == {}
      ensures |Peers(tasks, id)| > 1 ==> outcome == GroupConflict
      ensures |Peers(tasks, id)| == 1 ==>
                forall peer :: peer in Peers(tasks, id) ==>
                  Verdict(outcome, old(rows), tasks, id, peer, facts, others)
      ensures !outcome.Linked? ==> rows == old(rows)
      ensures outcome.Linked? ==>
                exists peer :: peer in Peers(tasks, id)
                  && Committed(old(rows), tasks, id, peer) == Some(rows)
                  && PairedWith(old(rows), rows, tasks[id].proposal.key, tasks[id].proposal.leg,
                                tasks[peer].proposal.key, tasks[peer].proposal.leg)
      ensures PairInv(old(rows)) ==> PairInv(rows)
    {
      hide PairedWith, PairInv, Completes, Committed, Stored, Evidence, OppositeProposals;
      var found, unclear := LoadPeer(tasks, id);
      if unclear { return GroupConflict; }
      if found == None { return RetryLater; }
      assert found.value in Peers(tasks, id);
      outcome := ProcessPair(tasks, id, found.value, facts, others);
    }
  }

  lemma CountsTwo(both: Rows, account: string, group: string)
    ensures CompleteStatement(both, account, group).1 == 2 <==> Completes(both, account, group)
  {
  }

  lemma AcceptedGroupIsNamed(lease: PairTask, peer: PairTask, leaseFact: Fact, peerFact: Fact)
    requires PairConflict(lease, peer, leaseFact, peerFact) == None
    ensures lease.groupKey != ""
  {
  }

  lemma FromEitherSide(before: Rows, after: Rows, first: Upsert, second: Upsert)
    requires PairedWith(before, after, first.key, first.leg, second.key, second.leg)
    ensures PairedWith(before, after, second.key, second.leg, first.key, first.leg)
  {
    assert before.Keys + {first.key, second.key} == before.Keys + {second.key, first.key};
  }

  lemma OnlyMember(s: set<int>)
    requires |s| == 1
    ensures exists x :: s == {x}
  {
    var x := SomeMember(s);
    assert |s - {x}| == 0;
    assert s == {x};
  }

  // ---- Every reachable ledger --------------------------------------------------------------

  ghost predicate Paired(rows: Rows, k: string)
    requires k in rows
  {
    && rows[k].pair.Some? && rows[k].group != "" && rows[k].account != ""
    && var peer := rows[k].pair.value;
    && peer in rows && peer != k && rows[peer].state == Complete && rows[peer].pair == Some(k)
    && rows[peer].account == rows[k].account && rows[peer].group == rows[k].group
    && ((rows[k].leg == Sell && rows[peer].leg == Buy) || (rows[k].leg == Buy && rows[peer].leg == Sell))
  }

  /** Complete legs come in pairs; the others are not paired. */
  ghost predicate PairInv(rows: Rows) {
    forall k :: k in rows ==> if rows[k].state == Complete then Paired(rows, k) else rows[k].pair == None
  }

  /** An upsert keeps the invariant exactly when it does not itself declare a row COMPLETE
      that was not. */
  lemma UpsertKeepsExactly(rows: Rows, u: Upsert)
    requires PairInv(rows) && UpsertRow(rows, u).Ok?
    ensures PairInv(UpsertRow(rows, u).value)
            <==> u.state != Complete || (u.key in rows && rows[u.key].state == Complete)
  {
    var after := UpsertRow(rows, u).value;
    if u.state != Complete || (u.key in rows && rows[u.key].state == Complete) {
      forall k | k in after
        ensures if after[k].state == Complete then Paired(after, k) else after[k].pair == None
      {
        if k in rows && rows[k].state == Complete {
          assert Paired(rows, k);
          var peer := rows[k].pair.value;
          assert Paired(rows, peer);
        }
      }
    } else {
      assert after[u.key].state == Complete && after[u.key].pair == None;
    }
  }

  /** The condition is needed: a first upsert that says COMPLETE stores a complete leg
      without a peer. */
  lemma CompleteOnArrivalIsUnpaired(rows: Rows, key: string)
    requires PairInv(rows) && key !in rows
    ensures var u := Upsert(key, "acct", "conversion:1", Sell, Complete);
            UpsertRow(rows, u).Ok? && !PairInv(UpsertRow(rows, u).value)
  {
    UpsertKeepsExactly(rows, Upsert(key, "acct", "conversion:1", Sell, Complete));
  }

  /** In a ledger whose complete legs are paired, the completing statement updates two rows
      or none, and two exactly when the group is one SELL and one BUY. */
  lemma CompletionIsTotal(rows: Rows, account: string, group: string)
    requires PairInv(rows)
    ensures var (done, count) := CompleteStatement(rows, account, group);
            && (count == 2 <==> Balanced(rows, InGroup(rows, account, group)))
            && (count != 2 ==> count == 0 && done == rows)
  {
    var keys := InGroup(rows, account, group);
    if Balanced(rows, keys) {
      forall k | k in keys
        ensures k in Touched(rows, keys)
      {
        if rows[k].state == Complete { assert Paired(rows, k); }
      }
      assert Touched(rows, keys) == keys;
    }
  }

  lemma OppositeLegs(rows: Rows, keys: set<string>, k: string, peer: string)
    requires Balanced(rows, keys) && k in keys && PeerIs(keys, k, peer) && keys <= rows.Keys
    ensures (rows[k].leg == Sell && rows[peer].leg == Buy) || (rows[k].leg == Buy && rows[peer].leg == Sell)
  {
    var sells, buys := Legs(rows, keys, Sell), Legs(rows, keys, Buy);
    assert sells * buys == {};
    assert |sells + buys| == 2;
    SubsetSize(sells + buys, keys);
    Whole(sells + buys, keys);
    if rows[k].leg == rows[peer].leg {
      var same := if rows[k].leg == Sell then sells else buys;
      assert {k, peer} <= same;
      SubsetSize({k, peer}, same);
    }
  }

  lemma Whole(a: set<string>, b: set<string>)
    requires a <= b && |a| == |b|
    ensures a == b
  {
    assert b == a + (b - a);
    assert |b - a| == 0;
  }

  lemma CompletionKeeps(rows: Rows, account: string, group: string)
    requires PairInv(rows) && group != "" && account != ""
    ensures PairInv(CompleteStatement(rows, account, group).0)
  {
    var keys := InGroup(rows, account, group);
    CompletionIsTotal(rows, account, group);
    if Balanced(rows, keys) {
      var done := CompleteStatement(rows, account, group).0;
      assert |Touched(rows, keys)| == 2;
      Whole(Touched(rows, keys), keys);
      forall k | k in done
        ensures if done[k].state == Complete then Paired(done, k) else done[k].pair == None
      {
        if k in keys {
          ThereIsAPeer(keys, k);
          var peer := PeerOf(keys, k);
          assert PeerIs(keys, k, peer) && PeerIs(keys, peer, k);
          ThereIsAPeer(keys, peer);
          OppositeLegs(rows, keys, k, peer);
        } else if rows[k].state == Complete {
          assert Paired(rows, k);
          var peer := rows[k].pair.value;
          assert Paired(rows, peer);
          assert peer !in keys;
        }
      }
    }
  }

  datatype Step =
    | Store(upsert: Upsert)
    | Convert(first: Upsert, second: Upsert)
    | Rekey(oldKey: string, newKey: AccountKey)

  function Rekeyed(rows: Rows, oldKey: string, newKey: AccountKey): Rows {
    map k | k in rows :: if rows[k].account == oldKey then rows[k].(account := newKey) else rows[k]
  }

  /** Re-keying an account moves each of its groups to the new key, and no other row. */
  lemma RekeyMoves(rows: Rows, oldKey: string, newKey: AccountKey, account: string, group: string)
    ensures var after := Rekeyed(rows, oldKey, newKey);
            && after.Keys == rows.Keys
            && (account == newKey ==>
                  InGroup(after, account, group) == InGroup(rows, newKey, group) + InGroup(rows, oldKey, group))
            && (account == oldKey != newKey ==> InGroup(after, account, group) == {})
            && (account !in {oldKey, newKey} ==> InGroup(after, account, group) == InGroup(rows, account, group))
            && forall k :: k in rows ==> after[k] == rows[k].(account := after[k].account)
  {
  }

  function Next(rows: Rows, step: Step): Rows {
    match step
    case Store(u) => (match UpsertRow(rows, u) case Ok(r) => r case Err(_) => rows)
    case Convert(first, second) =>
      if first.group == "" || first.account == "" then rows
      else (match ConversionTx(rows, first, second) case Some(r) => r case None => rows)
    case Rekey(oldKey, newKey) => Rekeyed(rows, oldKey, newKey)
  }

  function Run(rows: Rows, steps: seq<Step>): Rows {
    if steps == [] then rows else Next(Run(rows, steps[..|steps| - 1]), steps[|steps| - 1])
  }

  /** No upsert declares its row COMPLETE: pairing is left to the completing statement. */
  ghost predicate LeavesPairing(step: Step) {
    match step
    case Store(u) => u.state != Complete
    case Convert(first, second) => first.state != Complete && second.state != Complete
    case Rekey(_, _) => true
  }

  lemma NextKeeps(rows: Rows, step: Step)
    requires PairInv(rows) && LeavesPairing(step)
    ensures PairInv(Next(rows, step))
  {
    hide PairInv, UpsertRow, CompleteStatement, Rekeyed;
    match step
    case Store(u) =>
      if UpsertRow(rows, u).Ok? { UpsertKeepsExactly(rows, u); }
    case Convert(first, second) =>
      if first.group != "" && first.account != "" && ConversionTx(rows, first, second).Some? {
        UpsertKeepsExactly(rows, first);
        var one := UpsertRow(rows, first).value;
        UpsertKeepsExactly(one, second);
        CompletionKeeps(UpsertRow(one, second).value, first.account, first.group);
      }
    case Rekey(oldKey, newKey) => RekeyKeeps(rows, oldKey, newKey);
  }

  lemma RekeyKeeps(rows: Rows, oldKey: string, newKey: AccountKey)
    requires PairInv(rows)
    ensures PairInv(Rekeyed(rows, oldKey, newKey))
  {
    var after := Rekeyed(rows, oldKey, newKey);
    forall k | k in after
      ensures if after[k].state == Complete then Paired(after, k) else after[k].pair == None
    {
      if rows[k].state == Complete {
        assert Paired(rows, k);
        assert Paired(rows, rows[k].pair.value);
      }
    }
  }

  /** In every reachable ledger each COMPLETE leg has a peer of the opposite leg, in the same
      group of the same account, that points back at it; nothing else is paired. */
  lemma {:induction false} CompleteLegsArePaired(rows: Rows, steps: seq<Step>, k: string)
    requires PairInv(rows)
    requires forall i :: 0 <= i < |steps| ==> LeavesPairing(steps[i])
    requires k in Run(rows, steps)
    ensures var end := Run(rows, steps);
            if end[k].state == Complete then Paired(end, k) else end[k].pair == None
  {
    hide Run, Paired, LeavesPairing;
    RunKeeps(rows, steps);
  }

  lemma {:induction false} RunKeeps(rows: Rows, steps: seq<Step>)
    requires PairInv(rows)
    requires forall i :: 0 <= i < |steps| ==> LeavesPairing(steps[i])
    ensures PairInv(Run(rows, steps))
  {
    hide PairInv, Next, LeavesPairing;
    if steps != [] {
      RunKeeps(rows, steps[..|steps| - 1]);
      NextKeeps(Run(rows, steps[..|steps| - 1]), steps[|steps| - 1]);
    }
  }

  /** Two upserts of opposite legs that both go through store two different rows. */
  lemma BothStored(rows: Rows, first: Upsert, second: Upsert)
    requires first.group == second.group != "" && first.account == second.account != ""
    requires first.leg != second.leg && first.leg != NoLeg && second.leg != NoLeg
    requires UpsertBoth(rows, first, second).Ok?
    ensures var both := UpsertBoth(rows, first, second).value;
            && first.key != second.key && both.Keys == rows.Keys + {first.key, second.key}
            && first.key in InGroup(both, first.account, first.group) && both[first.key].leg == first.leg
            && second.key in InGroup(both, first.account, first.group) && both[second.key].leg == second.leg
            && forall other :: other in rows && other != first.key && other != second.key ==> both[other] == rows[other]
  {
  }

  /** The completing statement that updates two rows makes exactly the group's two members
      point at each other. */
  lemma CompletedPair(rows: Rows, account: string, group: string, k: string, peer: string)
    requires k != peer && k in InGroup(rows, account, group) && peer in InGroup(rows, account, group)
    requires CompleteStatement(rows, account, group).1 == 2
    ensures CompleteStatement(rows, account, group).0
            == rows[k := rows[k].(state := Complete, pair := Some(peer))]
                   [peer := rows[peer].(state := Complete, pair := Some(k))]
  {
    hide Touched;
    var keys := InGroup(rows, account, group);
    CountsTwo(rows, account, group);
    TouchedAll(rows, keys);
    Whole({k, peer}, keys);
    ThereIsAPeer(keys, k);
    ThereIsAPeer(keys, peer);
    assert PeerIs(keys, k, peer) && PeerIs(keys, peer, k);
  }

  /** A committed conversion leaves its two proposals COMPLETE and pointing at each other,
      and touches no other row. */
  lemma CommittedConversionPairsItsLegs(rows: Rows, first: Upsert, second: Upsert)
    requires first.group == second.group != "" && first.account == second.account != ""
    requires first.leg != second.leg && first.leg != NoLeg && second.leg != NoLeg
    requires first.state == Incomplete && second.state == Incomplete
    requires ConversionTx(rows, first, second).Some?
    ensures PairedWith(rows, ConversionTx(rows, first, second).value, first.key, first.leg, second.key, second.leg)
    ensures PairInv(rows) ==> PairInv(ConversionTx(rows, first, second).value)
  {
    hide PairInv, UpsertRow, CompleteStatement;
    BothStored(rows, first, second);
    var both := UpsertBoth(rows, first, second).value;
    CompletedPair(both, first.account, first.group, first.key, second.key);
    if PairInv(rows) {
      UpsertKeepsExactly(rows, first);
      UpsertKeepsExactly(UpsertRow(rows, first).value, second);
      CompletionKeeps(both, first.account, first.group);
    }
  }

  lemma TouchedAll(rows: Rows, keys: set<string>)
    requires |keys| == 2 && |Touched(rows, keys)| == 2
    ensures Touched(rows, keys) == keys
  {
    Whole(Touched(rows, keys), keys);
  }

  // ---- Refused conversions -----------------------------------------------------------------

  /** Which conversions the upserts refuse, and how: the first proposal whose stored row
      belongs to another account quarantines, the first whose row is linked elsewhere fails,
      and two proposals for one key fail whatever is stored. */
  lemma RefusedExactly(rows: Rows, tasks: map<int, PairTask>, id: int, peer: int)
    requires id in tasks && peer in tasks && tasks[id].groupKey != ""
    requires OppositeProposals(tasks[id].proposal, tasks[peer].proposal)
    ensures var (first, second) := InOrder(tasks, id, peer);
            var stored := Stored(rows, tasks, id, peer, map[]);
            var foreign := Foreign(rows, first)
                           || (!LinkedElsewhere(rows, first) && first.key != second.key && Foreign(rows, second));
            && (stored == Err(Quarantined) <==> foreign)
            && (stored == Err(UpsertFailed) <==>
                  && !foreign
                  && (LinkedElsewhere(rows, first) || first.key == second.key || LinkedElsewhere(rows, second)))
            && (stored.Ok? <==>
                  && first.key != second.key && !Foreign(rows, first) && !Foreign(rows, second)
                  && !LinkedElsewhere(rows, first) && !LinkedElsewhere(rows, second))
  {
    hide LexLess;
  }

  const SOLD := Fact("sale", "g2", "USD", "EUR", Some(0.9), Some(100.0), "USD")
  const BOUGHT := Fact("purchase", "g2", "USD", "EUR", Some(0.9), Some(90.0), "EUR")
  const SALE := Proposal("k", true, Some(1), Some(1), "USD", 100.0, Sell, true)
  const PURCHASE := Proposal("l", true, Some(1), Some(1), "EUR", 90.0, Buy, true)

  /** A task of group g2 and the other leg's, both sound. */
  const TWO_LEGS: map<int, PairTask> := map[
    1 := PairTask("acct", true, false, 1, "sale", true, "g2", "g2", "review", true, SALE),
    2 := PairTask("acct", true, false, 2, "purchase", true, "g2", "g2", "review", true, PURCHASE)]

  /** The leg's key is already stored in group g1: the evidence agrees, and the turn ends in
      an error, neither buried nor retried. */
  lemma AnotherGroupIsAnError()
    ensures var rows := map["k" := Row("acct", "g1", Sell, Incomplete, None)];
            && Peers(TWO_LEGS, 1) == {2}
            && Verdict(UpsertError, rows, TWO_LEGS, 1, 2, map[1 := SOLD, 2 := BOUGHT], map[])
            && TurnVerdict(UpsertError, 7, 60) == LedgerTasks.Broken
  {
    hide LexLess, Completes;
    var rows := map["k" := Row("acct", "g1", Sell, Incomplete, None)];
    assert Agreed(TWO_LEGS, 1, 2, map[1 := SOLD, 2 := BOUGHT]);
    RefusedExactly(rows, TWO_LEGS, 1, 2);
    assert "k" != "l" by { assert "k"[0] != "l"[0]; }
  }

  // ---- Crash between the commit and the task's completion ----------------------------------

  /** The transaction on its own result is the identity. */
  lemma CommitTwice(rows: Rows, first: Upsert, second: Upsert)
    requires first.group == second.group != "" && first.account == second.account != ""
    requires first.leg != second.leg && first.leg != NoLeg && second.leg != NoLeg
    requires first.state == Incomplete && second.state == Incomplete
    requires ConversionTx(rows, first, second).Some?
    ensures var done := ConversionTx(rows, first, second).value;
            && UpsertRow(done, first) == Ok(done) && UpsertRow(done, second) == Ok(done)
            && ConversionTx(done, first, second) == Some(done) && ConversionTx(done, second, first) == Some(done)
  {
    hide CompleteStatement;
    BothStored(rows, first, second);
    var both := UpsertBoth(rows, first, second).value;
    var done := ConversionTx(rows, first, second).value;
    var a, b := first.key, second.key;
    CompletedPair(both, first.account, first.group, a, b);
    assert done[a].account == first.account && done[b].account == first.account;
    assert done[a].group == first.group && done[b].group == first.group;
    assert UpsertRow(done, first) == Ok(done) by { assert done[a := done[a]] == done; }
    assert UpsertRow(done, second) == Ok(done) by { assert done[b := done[b]] == done; }
    TwoMembers(both, done, first.account, first.group, a, b);
    CompletedPair(done, first.account, first.group, a, b);
    assert done[a := done[a]][b := done[b]] == done;
  }

  /** Completing a group leaves its members as they are counted. */
  lemma TwoMembers(both: Rows, done: Rows, account: string, group: string, a: string, b: string)
    requires a != b && a in InGroup(both, account, group) && b in InGroup(both, account, group)
    requires CompleteStatement(both, account, group).1 == 2
    requires done == both[a := both[a].(state := Complete, pair := Some(b))]
                         [b := both[b].(state := Complete, pair := Some(a))]
    ensures InGroup(done, account, group) == {a, b} && CompleteStatement(done, account, group).1 == 2
  {
    CountsTwo(both, account, group);
    var keys := InGroup(both, account, group);
    Whole({a, b}, keys);
    assert InGroup(done, account, group) == keys;
    assert Legs(done, keys, Sell) == Legs(both, keys, Sell) && Legs(done, keys, Buy) == Legs(both, keys, Buy);
    assert Touched(done, keys) == keys;
    CountsTwo(done, account, group);
  }

  /** Recovery: when the conversion was committed and the task's completion was lost, running
      it again, or running the peer's task, is linked and changes no row. */
  lemma RerunIsIdle(rows: Rows, tasks: map<int, PairTask>, id: int, peer: int, facts: map<int, Fact>)
    requires id in tasks && tasks[id].conversionPair && !tasks[id].dead && tasks[id].readable
    requires Peers(tasks, id) == {peer} && peer in tasks && Agreed(tasks, id, peer, facts)
    requires Committed(rows, tasks, id, peer).Some?
    ensures var done := Committed(rows, tasks, id, peer).value;
            && Verdict(Linked(tasks[id].proposal.key), done, tasks, id, peer, facts, map[])
            && Committed(done, tasks, id, peer) == Some(done)
            && Peers(tasks, peer) == {id}
            && Verdict(Linked(tasks[peer].proposal.key), done, tasks, peer, id, facts, map[])
            && Committed(done, tasks, peer, id) == Some(done)
  {
    hide LexLess, CompleteStatement, UpsertRow, PairConflict, Completes;
    assert peer in Peers(tasks, id);
    assert forall k :: k in Peers(tasks, peer) && k != id ==> k in Peers(tasks, id);
    AcceptedGroupIsNamed(tasks[id], tasks[peer], facts[tasks[id].fact], facts[tasks[peer].fact]);
    PairEvidenceIsSymmetric(tasks[id], tasks[peer], facts[tasks[id].fact], facts[tasks[peer].fact]);
    var (first, second) := InOrder(tasks, id, peer);
    CommitTwice(rows, first, second);
    var done := ConversionTx(rows, first, second).value;
    CountsTwo(done, first.account, first.group);
  }
}
