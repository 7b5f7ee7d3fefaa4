/** Crash-recoverable paged ingestion (internal/companyfund/airwallex_reconciler.go) and
    the size limit of its durable store (sync_run_adapter.go, sync_run_types.go).

    A provider listing is copied page by page into a durable inbox. The durable
    checkpoint is rewritten after every item and after every page; an attempt may
    stop between any two steps and a later attempt resumes from the checkpoint. */
module Reconciler {
  import opened Wrappers
  import Text

  const MAX_PAGE_SIZE: nat := 1000
  const MAX_PAGE: nat := 2000
  const MAX_EVENT_ID_BYTES: nat := 256
  const MAX_CHECKPOINT_BYTES: nat := 16384
  const MAX_COUNTER_DIGITS: nat := 19
  const EVENT_PREFIX := "airwallex-financial-transaction:v1:"

  type EventId = string
  type HexDigest = s: string | |s| == 64 witness seq(64, _ => '0')

  /** A listed transaction: a snapshot known by the digest of its identity tuple,
      or one whose ID or raw payload `ownedEventInput` refuses. */
  datatype Item = Snapshot(digest: HexDigest) | Malformed

  /** Page n of a fixed listing is `pages[n]`; it claims a next page unless it is the last.
      Past the end there are empty pages without a next one. */
  type Listing = pages: seq<seq<Item>> | pages != [] witness [[]]

  function PageAt(pages: Listing, n: nat): seq<Item> {
    if n < |pages| then pages[n] else []
  }

  datatype Config = Config(pageSize: nat, maxPages: nat) {
    predicate Valid() {
      1 <= pageSize <= MAX_PAGE_SIZE && 1 <= maxPages <= MAX_PAGE + 1
    }
  }

  datatype Checkpoint = Checkpoint(
    nextPage: int, inFlightPage: Option<int>, inFlight: seq<EventId>,
    seen: int, created: int, existing: int)

  const ZERO_CHECKPOINT := Checkpoint(0, None, [], 0, 0, 0)

  datatype Durable = Durable(inbox: set<EventId>, checkpoint: Checkpoint, completed: bool)

  datatype Outcome =
    | Completed
    | SafetyLimit
    | PageOutOfBounds
    | PageTooLarge
    | ItemRefused
    | CheckpointRefused
    | CheckpointNotSaved

  /** Where an attempt stands between two of its steps. */
  datatype Pc =
    | Fetch
    | AtItem(i: nat)
    | Ingested(i: nat, id: EventId, inserted: bool)
    | PageEnd
    | Done(outcome: Outcome)

  /** The memory of an attempt; it is gone after a crash. */
  datatype Attempt =
    | NoAttempt
    | Attempt(page: nat, fetched: nat, processed: set<EventId>, cp: Checkpoint, pc: Pc)

  /** `lost` is history: fresh ingests whose checkpoint was never written. */
  datatype System = System(d: Durable, a: Attempt, lost: nat)

  function EventOf(item: Item): EventId {
    match item
    case Snapshot(digest) => EVENT_PREFIX + digest
    case Malformed => ""
  }

  function EventIds(items: seq<Item>): (ids: seq<EventId>)
    ensures |ids| == |items|
  {
    seq(|items|, i requires 0 <= i < |items| => EventOf(items[i]))
  }

  function Elems(ids: seq<EventId>): set<EventId> {
    set id | id in ids
  }

  /** First occurrences, in order. */
  function Distinct(ids: seq<EventId>): seq<EventId> {
    if ids == [] then []
    else
      var front := Distinct(ids[..|ids| - 1]);
      if ids[|ids| - 1] in front then front else front + [ids[|ids| - 1]]
  }

  function IdsBefore(pages: Listing, n: nat): set<EventId>
    requires n <= |pages|
  {
    if n == 0 then {} else IdsBefore(pages, n - 1) + Elems(EventIds(pages[n - 1]))
  }

  /** Distinct items per page, summed over the first n pages. */
  function DistinctBefore(pages: Listing, n: nat): nat
    requires n <= |pages|
  {
    if n == 0 then 0 else DistinctBefore(pages, n - 1) + |Distinct(EventIds(pages[n - 1]))|
  }

  /** The bounds a configuration and a checkpoint have to keep, in numbers. */
  lemma BoundsInNumbers(cfg: Config, cp: Checkpoint, id: EventId)
    ensures cfg.Valid() <==> 1 <= cfg.pageSize <= 1000 && 1 <= cfg.maxPages <= 2001
    ensures CheckpointValid(cp) ==>
              && 0 <= cp.nextPage <= 2001 && |cp.inFlight| <= 1000
              && !(cp.seen < 0 || cp.created < 0 || cp.existing < 0)
    ensures CheckpointValid(cp) && cp.inFlightPage.Some? ==> 0 <= cp.inFlightPage.value <= 2000
    ensures CheckpointValid(cp) && EncodedBytes(cp) <= 16384 ==> Writable(cp)
    ensures StoredBytes(cp) <= 16384 <==> Readable(cp)
    ensures ValidEventId(id) <==>
            !Text.Blank(id) && |id| <= 256 && "airwallex-financial-transaction:v1:" <= id
  {
  }

  // ---- Opening a run ---------------------------------------------------------

  predicate ValidEventId(id: EventId) {
    !Text.Blank(id) && |id| <= MAX_EVENT_ID_BYTES && EVENT_PREFIX <= id
  }

  predicate CheckpointValid(cp: Checkpoint) {
    && 0 <= cp.nextPage <= MAX_PAGE + 1
    && 0 <= cp.seen && 0 <= cp.created && 0 <= cp.existing
    && (cp.inFlightPage == None ==> cp.inFlight == [])
    && (cp.inFlightPage.Some? ==> 0 <= cp.inFlightPage.value <= MAX_PAGE && |cp.inFlight| <= MAX_PAGE_SIZE)
    && (forall i :: 0 <= i < |cp.inFlight| ==> ValidEventId(cp.inFlight[i]))
    && (forall i, j :: 0 <= i < j < |cp.inFlight| ==> cp.inFlight[i] != cp.inFlight[j])
  }

  // ---- The size of a checkpoint ------------------------------------------------

  /** Decimal digits of a counter, which as a 64-bit integer has at most 19. */
  function Digits(n: nat, most: nat): (d: nat)
    ensures 1 <= d && (1 <= most ==> d <= most)
    ensures n < 10 ==> d <= 1
    ensures n < 100 ==> d <= 2
    ensures n < 1000 ==> d <= 3
    ensures n < 10000 ==> d <= 4
  {
    if n < 10 || most <= 1 then 1 else 1 + Digits(n / 10, most - 1)
  }

  function Width(n: int): (w: nat)
    ensures w >= 1 && (0 <= n ==> w <= MAX_COUNTER_DIGITS) && (0 <= n < 10000 ==> w <= 4)
  {
    if n < 0 then 1 + Digits(-n, MAX_COUNTER_DIGITS) else Digits(n, MAX_COUNTER_DIGITS)
  }

  lemma {:induction false} DigitsAreWritten(n: nat, most: nat)
    requires |Text.Itoa(n)| <= most
    ensures Digits(n, most) == |Text.Itoa(n)|
  {
    if n >= 10 {
      DigitsAreWritten(n / 10, most - 1);
    }
  }

  /** A counter takes the bytes of its decimal digits. */
  lemma WidthIsWritten(n: nat)
    requires |Text.Itoa(n)| <= 19
    ensures Width(n) == |Text.Itoa(n)|
  {
    DigitsAreWritten(n, 19);
  }

  /** The IDs in quotes, each with a comma or the closing bracket. */
  function QuotedBytes(ids: seq<EventId>): nat {
    if ids == [] then 0 else QuotedBytes(ids[..|ids| - 1]) + |ids[|ids| - 1]| + 3
  }

  /** A JSON array of the IDs, which need no escaping; no IDs are written as null. */
  function ListBytes(ids: seq<EventId>): nat {
    if ids == [] then |"null"| else 1 + QuotedBytes(ids)
  }

  const FIELD_NAMES :=
    "{'CandidatesSeen':,'EventsCreated':,'EventsExisting':,'InFlightEventIDs':,'InFlightPageNum':,'NextPageNum':}"

  /** The canonical encoding: compact JSON (the field names are in double quotes there). */
  function EncodedBytes(cp: Checkpoint): nat {
    |FIELD_NAMES| + Width(cp.seen) + Width(cp.created) + Width(cp.existing) + ListBytes(cp.inFlight)
    + (if cp.inFlightPage == None then |"null"| else Width(cp.inFlightPage.value)) + Width(cp.nextPage)
  }

  /** What the database returns for it: one more blank after each colon and each comma. */
  function StoredBytes(cp: Checkpoint): nat {
    EncodedBytes(cp) + 6 + 5 + if cp.inFlight == [] then 0 else |cp.inFlight| - 1
  }

  /** The adapter encodes it and sends it to the database. */
  predicate Writable(cp: Checkpoint) {
    CheckpointValid(cp) && EncodedBytes(cp) <= MAX_CHECKPOINT_BYTES
  }

  /** The stored text can be read back. */
  predicate Readable(cp: Checkpoint) {
    StoredBytes(cp) <= MAX_CHECKPOINT_BYTES
  }

  /** The next open accepts it. */
  predicate Opens(cp: Checkpoint) {
    Readable(cp) && CheckpointValid(cp)
  }

  /** Writing succeeds only if the text written can be read back; when it cannot, it has been
      written all the same. */
  predicate Saves(cp: Checkpoint) {
    Writable(cp) && Readable(cp)
  }

  function Saved(d: Durable, cp: Checkpoint): Durable {
    if Writable(cp) then d.(checkpoint := cp) else d
  }

  function ResumePage(cp: Checkpoint): int {
    if cp.inFlightPage.Some? then cp.inFlightPage.value else cp.nextPage
  }

  /** validateAirwallexFinancialTransactionsCheckpoint: the page to fetch first. */
  method ValidateCheckpoint(cp: Checkpoint) returns (page: Option<int>)
    ensures page == if CheckpointValid(cp) then Some(ResumePage(cp)) else None
  {
    if cp.nextPage < 0 || cp.nextPage > MAX_PAGE + 1 || cp.seen < 0 || cp.created < 0 || cp.existing < 0 {
      return None;
    }
    var resume := cp.nextPage;
    if cp.inFlightPage.Some? {
      if cp.inFlightPage.value < 0 || cp.inFlightPage.value > MAX_PAGE || |cp.inFlight| > MAX_PAGE_SIZE {
        return None;
      }
      resume := cp.inFlightPage.value;
    } else if |cp.inFlight| != 0 {
      return None;
    }
    var seen := {};
    for k := 0 to |cp.inFlight|
      invariant seen == Elems(cp.inFlight[..k])
      invariant forall i :: 0 <= i < k ==> ValidEventId(cp.inFlight[i])
      invariant forall i, j :: 0 <= i < j < k ==> cp.inFlight[i] != cp.inFlight[j]
    {
      var id := cp.inFlight[k];
      if !ValidEventId(id) || id in seen {
        assert id in seen ==> id in cp.inFlight[..k];
        return None;
      }
      assert id !in cp.inFlight[..k];
      assert cp.inFlight[..k + 1] == cp.inFlight[..k] + [id];
      seen := seen + {id};
    }
    return Some(resume);
  }

  function Open(s: System): System {
    if s.d.completed then s
    else
      var cp := s.d.checkpoint;
      if Opens(cp) && 0 <= ResumePage(cp) then
        s.(a := Attempt(ResumePage(cp), 0, Elems(cp.inFlight), cp, Fetch))
      else
        s.(a := Attempt(0, 0, {}, cp, Done(CheckpointRefused)))
  }

  // ---- One step of an attempt ------------------------------------------------

  function RecordItem(cp: Checkpoint, page: nat, id: EventId, inserted: bool): Checkpoint {
    Checkpoint(
      cp.nextPage, Some(page), cp.inFlight + [id], cp.seen + 1,
      if inserted then cp.created + 1 else cp.created,
      if inserted then cp.existing else cp.existing + 1)
  }

  function RecordPage(cp: Checkpoint, page: nat): Checkpoint {
    cp.(inFlightPage := None, inFlight := [], nextPage := if page < MAX_PAGE then page + 1 else page)
  }

  /** An attempt's item position lies in its page. */
  predicate InListing(pages: Listing, a: Attempt) {
    && a.Attempt?
    && (a.pc.AtItem? ==> a.pc.i <= |PageAt(pages, a.page)|)
    && (a.pc.Ingested? ==> a.pc.i < |PageAt(pages, a.page)|)
  }

  function Next(cfg: Config, pages: Listing, s: System): System
    requires InListing(pages, s.a)
  {
    var d, a := s.d, s.a;
    match a.pc
    case Fetch =>
      if a.fetched >= cfg.maxPages then s.(a := a.(pc := Done(SafetyLimit)))
      else if a.page > MAX_PAGE then s.(a := a.(pc := Done(PageOutOfBounds)))
      else if |PageAt(pages, a.page)| > cfg.pageSize then s.(a := a.(pc := Done(PageTooLarge)))
      else s.(a := a.(fetched := a.fetched + 1, pc := AtItem(0)))
    case AtItem(i) =>
      if i == |PageAt(pages, a.page)| then s.(a := a.(pc := PageEnd))
      else if PageAt(pages, a.page)[i].Malformed? then s.(a := a.(pc := Done(ItemRefused)))
      else
        var id := EventOf(PageAt(pages, a.page)[i]);
        if id in a.processed then s.(a := a.(pc := AtItem(i + 1)))
        else s.(d := d.(inbox := d.inbox + {id}), a := a.(pc := Ingested(i, id, id !in d.inbox)))
    case Ingested(i, id, inserted) =>
      var cp := RecordItem(a.cp, a.page, id, inserted);
      if Saves(cp) then
        s.(d := Saved(d, cp), a := a.(cp := cp, processed := a.processed + {id}, pc := AtItem(i + 1)))
      else
        s.(d := Saved(d, cp), a := a.(pc := Done(CheckpointNotSaved)),
           lost := if inserted && !Writable(cp) then s.lost + 1 else s.lost)
    case PageEnd =>
      var cp := RecordPage(a.cp, a.page);
      if !Saves(cp) then s.(d := Saved(d, cp), a := a.(pc := Done(CheckpointNotSaved)))
      else if a.page + 1 >= |pages| then
        s.(d := d.(checkpoint := cp, completed := true), a := a.(cp := cp, processed := {}, pc := Done(Completed)))
      else if a.fetched >= cfg.maxPages || a.page >= MAX_PAGE then
        s.(d := d.(checkpoint := cp), a := a.(cp := cp, processed := {}, pc := Done(SafetyLimit)))
      else
        s.(d := d.(checkpoint := cp), a := a.(cp := cp, processed := {}, page := cp.nextPage, pc := Fetch))
    case Done(_) => s
  }

  lemma NextStaysInListing(cfg: Config, pages: Listing, s: System)
    requires InListing(pages, s.a)
    ensures InListing(pages, Next(cfg, pages, s).a)
  {
  }

  /** n steps of one attempt. */
  function Steps(cfg: Config, pages: Listing, s: System, n: nat): (t: System)
    requires InListing(pages, s.a)
    ensures InListing(pages, t.a)
  {
    if n == 0 then s
    else
      var t := Steps(cfg, pages, s, n - 1);
      NextStaysInListing(cfg, pages, t);
      Next(cfg, pages, t)
  }

  lemma StepOnce(cfg: Config, pages: Listing, s: System, n: nat)
    requires InListing(pages, s.a)
    ensures Steps(cfg, pages, s, n + 1) == Next(cfg, pages, Steps(cfg, pages, s, n))
  {
  }

  lemma StepsZero(cfg: Config, pages: Listing, s: System)
    requires InListing(pages, s.a)
    ensures Steps(cfg, pages, s, 0) == s
  {
  }

  // ---- What the answers mean ---------------------------------------------------

  /** Item i is the first of its page that has not been dealt with. */
  ghost predicate FirstLeft(pages: Listing, a: Attempt, i: nat)
    requires a.Attempt?
  {
    var items := PageAt(pages, a.page);
    && i < |items|
    && (items[i].Snapshot? ==> EventOf(items[i]) !in a.processed)
    && forall k :: 0 <= k < i ==> items[k].Snapshot? && EventOf(items[k]) in a.processed
  }

  /** The page has been fetched and is within the bounds of the request. */
  predicate InBounds(cfg: Config, pages: Listing, a: Attempt)
    requires a.Attempt?
  {
    a.page <= MAX_PAGE && |PageAt(pages, a.page)| <= cfg.pageSize && 1 <= a.fetched <= cfg.maxPages
  }

  /** What each answer of an attempt on `start` says about the listing, the page the attempt
      stands on, the pages it fetched, and what is durable at its end. */
  ghost predicate Means(cfg: Config, pages: Listing, start: Durable, end: System, outcome: Outcome)
    requires end.a.Attempt?
  {
    var a, d := end.a, end.d;
    var readable := forall k :: 0 <= k < |PageAt(pages, a.page)| ==> PageAt(pages, a.page)[k].Snapshot?;
    var closed := d.checkpoint.inFlightPage == None && d.checkpoint.inFlight == []
                  && d.checkpoint.nextPage == if a.page < MAX_PAGE then a.page + 1 else a.page;
    match outcome
    case Completed => d.completed && InBounds(cfg, pages, a) && readable && closed && |pages| <= a.page + 1
    case SafetyLimit =>
      && !d.completed && InBounds(cfg, pages, a) && readable && closed && a.page + 1 < |pages|
      && (a.fetched == cfg.maxPages || a.page == MAX_PAGE)
    case PageOutOfBounds => !d.completed && a.page > MAX_PAGE && a.fetched < cfg.maxPages
    case PageTooLarge =>
      !d.completed && a.page <= MAX_PAGE && |PageAt(pages, a.page)| > cfg.pageSize && a.fetched < cfg.maxPages
    case ItemRefused =>
      && !d.completed && InBounds(cfg, pages, a)
      && exists i: nat :: FirstLeft(pages, a, i) && PageAt(pages, a.page)[i].Malformed?
    case CheckpointRefused => d == start && !Opens(start.checkpoint)
    case CheckpointNotSaved =>
      && !d.completed && InBounds(cfg, pages, a)
      && ((readable && !Saves(RecordPage(a.cp, a.page)))
          || exists i: nat, inserted :: FirstLeft(pages, a, i) && PageAt(pages, a.page)[i].Snapshot?
               && !Saves(RecordItem(a.cp, a.page, EventOf(PageAt(pages, a.page)[i]), inserted)))
  }

  /** How an attempt stands after any number of steps. */
  ghost predicate Stands(cfg: Config, pages: Listing, start: Durable, end: System) {
    var a, d := end.a, end.d;
    && a.Attempt? && InListing(pages, a)
    && (a.pc == Done(CheckpointRefused) <==> !Opens(start.checkpoint))
    && (Opens(start.checkpoint) ==>
          a.page == ResumePage(start.checkpoint) + a.fetched
                    - if a.pc.Fetch? || a.pc in {Done(PageOutOfBounds), Done(PageTooLarge)} then 0 else 1)
    && (d.completed <==> a.pc == Done(Completed))
    && (a.pc.Fetch? ==> a.fetched < cfg.maxPages)
    && (a.pc.AtItem? || a.pc.Ingested? || a.pc.PageEnd? ==> InBounds(cfg, pages, a))
    && (a.pc.AtItem? || a.pc.Ingested? ==>
          forall k :: 0 <= k < a.pc.i ==>
            PageAt(pages, a.page)[k].Snapshot? && EventOf(PageAt(pages, a.page)[k]) in a.processed)
    && (a.pc.Ingested? ==>
          && PageAt(pages, a.page)[a.pc.i].Snapshot? && a.pc.id == EventOf(PageAt(pages, a.page)[a.pc.i])
          && a.pc.id !in a.processed)
    && (a.pc.PageEnd? ==>
          forall k :: 0 <= k < |PageAt(pages, a.page)| ==> PageAt(pages, a.page)[k].Snapshot?)
    && (a.pc.Done? ==> Means(cfg, pages, start, end, a.pc.outcome))
  }

  lemma StandsFirst(cfg: Config, pages: Listing, s: System)
    requires cfg.Valid() && !s.d.completed
    ensures Stands(cfg, pages, s.d, Open(s))
  {
    hide Readable;
  }

  lemma StandsNext(cfg: Config, pages: Listing, start: Durable, s: System)
    requires cfg.Valid() && Stands(cfg, pages, start, s)
    ensures Stands(cfg, pages, start, Next(cfg, pages, s))
  {
    hide Opens, Saves, Writable, EventOf;
    var t := Next(cfg, pages, s);
    if s.a.pc.Ingested? && !Saves(RecordItem(s.a.cp, s.a.page, s.a.pc.id, s.a.pc.inserted)) {
      assert FirstLeft(pages, t.a, s.a.pc.i);
    }
    if s.a.pc.AtItem? && s.a.pc.i < |PageAt(pages, s.a.page)| && PageAt(pages, s.a.page)[s.a.pc.i].Malformed? {
      assert FirstLeft(pages, t.a, s.a.pc.i);
    }
  }

  /** After any number of steps an attempt stands on the page its fetches lead to, the run is
      completed exactly when the attempt says so, and its answer means what it says. */
  lemma {:induction false} AttemptStands(cfg: Config, pages: Listing, s: System, n: nat)
    requires cfg.Valid() && !s.d.completed
    ensures InListing(pages, Open(s).a) && Stands(cfg, pages, s.d, Steps(cfg, pages, Open(s), n))
  {
    hide Stands, Next, Open;
    StandsFirst(cfg, pages, s);
    StandsListed(cfg, pages, s.d, Open(s));
    if n > 0 {
      AttemptStands(cfg, pages, s, n - 1);
      StepOnce(cfg, pages, Open(s), n - 1);
      StandsNext(cfg, pages, s.d, Steps(cfg, pages, Open(s), n - 1));
    }
  }

  lemma StandsListed(cfg: Config, pages: Listing, start: Durable, s: System)
    requires Stands(cfg, pages, start, s)
    ensures InListing(pages, s.a)
  {
  }

  /** What a caller learns from how an attempt ended or was cut short. */
  ghost predicate Answers(cfg: Config, pages: Listing, start: Durable, end: System) {
    var a := end.a;
    && a.Attempt?
    && (a.pc.Done? ==> Means(cfg, pages, start, end, a.pc.outcome))
    && (end.d.completed <==> a.pc == Done(Completed))
    && (a.pc == Done(CheckpointRefused) <==> !Opens(start.checkpoint))
    && (Opens(start.checkpoint) ==>
          a.page == ResumePage(start.checkpoint) + a.fetched
                    - if a.pc.Fetch? || a.pc in {Done(PageOutOfBounds), Done(PageTooLarge)} then 0 else 1)
  }

  /** No state bears two answers. */
  lemma AnswersExclude(cfg: Config, pages: Listing, start: Durable, end: System, one: Outcome, other: Outcome)
    requires Opens(start.checkpoint) && end.a.Attempt?
    requires Means(cfg, pages, start, end, one) && Means(cfg, pages, start, end, other)
    requires one != CheckpointNotSaved && other != CheckpointNotSaved
    ensures one == other
  {
    hide Opens, Saves;
  }

  // ---- The reconciler itself -------------------------------------------------

  class Store {
    var inbox: set<EventId>
    var checkpoint: Checkpoint
    var completed: bool

    ghost function State(): Durable
      reads this
    {
      Durable(inbox, checkpoint, completed)
    }

    method Ingest(id: EventId) returns (inserted: bool)
      modifies this`inbox
      ensures inbox == old(inbox) + {id} && inserted == (id !in old(inbox))
    {
      inserted := id !in inbox;
      inbox := inbox + {id};
    }

    /** The adapter's write: refused before the update, or after it when the stored text
        cannot be read back. */
    method SaveCheckpoint(cp: Checkpoint) returns (ok: bool)
      modifies this`checkpoint
      ensures ok == Saves(cp) && State() == Saved(old(State()), cp)
    {
      if !Writable(cp) { return false; }
      checkpoint := cp;
      return Readable(cp);
    }

    method CompleteRun(cp: Checkpoint) returns (ok: bool)
      modifies this`checkpoint, this`completed
      ensures ok == Saves(cp)
      ensures State() == if ok then old(State()).(checkpoint := cp, completed := true) else Saved(old(State()), cp)
    {
      ok := SaveCheckpoint(cp);
      if ok { completed := true; }
    }

    /** The item loop of one fetched page: ingest and checkpoint every item not yet in flight. */
    method CopyItems(cfg: Config, pages: Listing, ghost start: System, faultAt: Option<nat>, steps0: nat,
                     page: nat, fetched: nat, processed0: set<EventId>, cp0: Checkpoint)
      returns (stopped: bool, outcome: Option<Outcome>, steps: nat, processed: set<EventId>, cp: Checkpoint)
      requires InListing(pages, start.a) && start.lost == 0
      requires faultAt.Some? ==> steps0 <= faultAt.value
      requires Steps(cfg, pages, start, steps0)
               == System(State(), Attempt(page, fetched, processed0, cp0, AtItem(0)), 0)
      modifies this`inbox, this`checkpoint
      ensures steps >= steps0 && (faultAt.Some? ==> steps <= faultAt.value)
      ensures !stopped ==>
                Steps(cfg, pages, start, steps)
                == System(State(), Attempt(page, fetched, processed, cp, AtItem(|PageAt(pages, page)|)), 0)
      ensures stopped ==> State() == Steps(cfg, pages, start, steps).d
      ensures stopped && outcome.Some? ==>
                && outcome.value in {ItemRefused, CheckpointNotSaved}
                && Steps(cfg, pages, start, steps).a.pc == Done(outcome.value)
      ensures stopped && outcome == None ==> faultAt == Some(steps)
    {
      hide Steps, Saves, Writable;
      var items := PageAt(pages, page);
      stopped, outcome, steps, processed, cp := false, None, steps0, processed0, cp0;
      var i := 0;
      while i < |items|
        invariant i <= |items| && steps >= steps0
        invariant faultAt.Some? ==> steps <= faultAt.value
        invariant Steps(cfg, pages, start, steps)
                  == System(State(), Attempt(page, fetched, processed, cp, AtItem(i)), 0)
      {
        if faultAt == Some(steps) { stopped := true; return; }
        StepOnce(cfg, pages, start, steps);
        if items[i].Malformed? {
          stopped, outcome, steps := true, Some(ItemRefused), steps + 1;
          return;
        }
        var id := EventOf(items[i]);
        if id !in processed {
          var inserted := Ingest(id);
          steps := steps + 1;
          if faultAt == Some(steps) { stopped := true; return; }
          StepOnce(cfg, pages, start, steps);
          processed := processed + {id};
          cp := RecordItem(cp, page, id, inserted);
          var saved := SaveCheckpoint(cp);
          if !saved {
            stopped, outcome, steps := true, Some(CheckpointNotSaved), steps + 1;
            return;
          }
        }
        i, steps := i + 1, steps + 1;
      }
    }

    /** Reconcile, with a failing call or a crash in front of step `faultAt`. What is
        durable afterwards is what that many steps of `Next` leave behind. */
    method Reconcile(cfg: Config, pages: Listing, faultAt: Option<nat>)
      returns (outcome: Option<Outcome>, steps: nat)
      requires cfg.Valid() && !completed
      modifies this
      ensures var end := Steps(cfg, pages, Open(System(old(State()), NoAttempt, 0)), steps);
              && State() == end.d && Answers(cfg, pages, old(State()), end)
              && (outcome.Some? ==> end.a.pc == Done(outcome.value))
      ensures outcome == Some(Completed) <==> completed
      ensures outcome == Some(CheckpointRefused) ==> !Opens(old(State()).checkpoint)
      ensures faultAt.Some? ==> steps <= faultAt.value
      ensures outcome == None ==> faultAt == Some(steps)
    {
      hide Steps, Writable, Readable, Means;
      ghost var start := Open(System(State(), NoAttempt, 0));
      forall n ensures Answers(cfg, pages, State(), Steps(cfg, pages, start, n)) {
        AttemptStands(cfg, pages, System(State(), NoAttempt, 0), n);
      }
      StepsZero(cfg, pages, start);
      if !Readable(checkpoint) {
        return Some(CheckpointRefused), 0;
      }
      var resume := ValidateCheckpoint(checkpoint);
      if resume == None {
        return Some(CheckpointRefused), 0;
      }
      var cp, page, fetched, processed := checkpoint, resume.value, 0, Elems(checkpoint.inFlight);
      steps := 0;
      while fetched < cfg.maxPages
        invariant 0 <= page && fetched <= cfg.maxPages
        invariant faultAt.Some? ==> steps <= faultAt.value
        invariant Steps(cfg, pages, start, steps) == System(State(), Attempt(page, fetched, processed, cp, Fetch), 0)
        decreases cfg.maxPages - fetched
      {
        if faultAt == Some(steps) { return None, steps; }
        StepOnce(cfg, pages, start, steps);
        if page > MAX_PAGE { return Some(PageOutOfBounds), steps + 1; }
        if |PageAt(pages, page)| > cfg.pageSize { return Some(PageTooLarge), steps + 1; }
        fetched := fetched + 1;
        var stopped;
        stopped, outcome, steps, processed, cp :=
          CopyItems(cfg, pages, start, faultAt, steps + 1, page, fetched, processed, cp);
        if stopped { return; }
        if faultAt == Some(steps) { return None, steps; }
        StepOnce(cfg, pages, start, steps);
        steps := steps + 1;
        if faultAt == Some(steps) { return None, steps; }
        StepOnce(cfg, pages, start, steps);
        steps := steps + 1;
        cp := RecordPage(cp, page);
        processed := {};
        if page + 1 >= |pages| {
          var done := CompleteRun(cp);
          return Some(if done then Completed else CheckpointNotSaved), steps;
        }
        var saved := SaveCheckpoint(cp);
        if !saved { return Some(CheckpointNotSaved), steps; }
        if fetched >= cfg.maxPages || page >= MAX_PAGE { return Some(SafetyLimit), steps; }
        page := cp.nextPage;
      }
      if faultAt == Some(steps) { return None, steps; }
      StepOnce(cfg, pages, start, steps);
      return Some(SafetyLimit), steps + 1;
    }
  }
}
