/** What survives any sequence of opens, steps and crashes of the reconciler, and how
    many fault-free attempts a listing takes. */
module ReconcilerRuns {
  import opened Wrappers
  import opened Reconciler
  import Text

  datatype Event = OpenRun | Work | Crash

  function Fresh(inbox: set<EventId>): System {
    System(Durable(inbox, ZERO_CHECKPOINT, false), NoAttempt, 0)
  }

  /** A crash between a fresh ingest and its checkpoint. */
  predicate Torn(s: System, e: Event) {
    e == Crash && s.a.Attempt? && s.a.pc.Ingested? && s.a.pc.inserted
  }

  function Happen(cfg: Config, pages: Listing, s: System, e: Event): System {
    match e
    case OpenRun => if s.a.NoAttempt? then Open(s) else s
    case Work => if InListing(pages, s.a) then Next(cfg, pages, s) else s
    case Crash => s.(a := NoAttempt, lost := if Torn(s, e) then s.lost + 1 else s.lost)
  }

  function Run(cfg: Config, pages: Listing, s: System, events: seq<Event>): System {
    if events == [] then s
    else Happen(cfg, pages, Run(cfg, pages, s, events[..|events| - 1]), events[|events| - 1])
  }

  // ---- The invariant ---------------------------------------------------------

  /** The most event IDs a checkpoint can list and still be read back. */
  const MAX_IN_FLIGHT: nat := 157

  /** Not above the requested size, without an item that is refused, and with no more
      distinct items than a checkpoint can list. */
  predicate WellFormedPage(cfg: Config, items: seq<Item>) {
    && |items| <= cfg.pageSize
    && (forall i :: 0 <= i < |items| ==> items[i].Snapshot?)
    && |Distinct(EventIds(items))| <= MAX_IN_FLIGHT
  }

  predicate WellFormedBefore(cfg: Config, pages: Listing, n: nat)
    requires n <= |pages|
  {
    forall p :: 0 <= p < n ==> WellFormedPage(cfg, pages[p])
  }

  /** `inFlight` is what the first j items contribute, for some j not below i. */
  ghost predicate Covers(items: seq<Item>, inFlight: seq<EventId>, i: nat) {
    exists j :: i <= j <= |items| && CoversTo(items, inFlight, j)
  }

  ghost predicate CoversTo(items: seq<Item>, inFlight: seq<EventId>, j: nat)
    requires j <= |items|
  {
    inFlight == Distinct(EventIds(items)[..j]) && forall k :: 0 <= k < j ==> items[k].Snapshot?
  }

  /** The books balance: `uncounted` fresh ingests are in the inbox but not yet recorded. */
  predicate Balanced(before: set<EventId>, s: System, uncounted: nat) {
    && before <= s.d.inbox
    && 0 <= s.d.checkpoint.created && 0 <= s.d.checkpoint.existing
    && s.d.checkpoint.created + s.d.checkpoint.existing == s.d.checkpoint.seen
    && s.d.checkpoint.created + s.lost + uncounted == |s.d.inbox - before|
  }

  /** An unfinished run stands inside page `nextPage` with part of it in flight; `recounted`
      candidates come from having closed the last readable page before. */
  ghost predicate Unfinished(cfg: Config, pages: Listing, before: set<EventId>, d: Durable, recounted: nat) {
    var cp := d.checkpoint;
    && !d.completed
    && 0 <= cp.nextPage < |pages| && cp.nextPage <= MAX_PAGE
    && cp.inFlightPage == (if cp.inFlight == [] then None else Some(cp.nextPage))
    && Covers(pages[cp.nextPage], cp.inFlight, 0)
    && (cp.inFlight != [] ==> |pages[cp.nextPage]| <= cfg.pageSize)
    && |cp.inFlight| <= MAX_IN_FLIGHT + 1
    && WellFormedBefore(cfg, pages, cp.nextPage)
    && before + IdsBefore(pages, cp.nextPage) + Elems(cp.inFlight) <= d.inbox
    && d.inbox <= before + IdsBefore(pages, cp.nextPage + 1)
    && cp.seen == DistinctBefore(pages, cp.nextPage) + |cp.inFlight| + recounted
  }

  ghost predicate Finished(cfg: Config, pages: Listing, before: set<EventId>, d: Durable) {
    && d.completed
    && |pages| <= MAX_PAGE + 1 && WellFormedBefore(cfg, pages, |pages|)
    && d.inbox == before + IdsBefore(pages, |pages|)
    && d.checkpoint.seen == DistinctBefore(pages, |pages|)
    && d.checkpoint.inFlight == []
  }

  /** A live attempt's memory agrees with what is durable. */
  ghost predicate InStep(cfg: Config, pages: Listing, s: System) {
    var a, cp := s.a, s.d.checkpoint;
    && !s.d.completed && a.Attempt? && InListing(pages, a)
    && a.cp == cp && a.page == cp.nextPage && a.processed == Elems(cp.inFlight)
    && 0 <= cp.nextPage < |pages| && |cp.inFlight| <= MAX_IN_FLIGHT
    && (!a.pc.Fetch? ==> 1 <= a.fetched && |pages[a.page]| <= cfg.pageSize)
    && a.fetched <= cfg.maxPages
    && match a.pc {
         case Fetch => true
         case AtItem(i) => Covers(pages[a.page], cp.inFlight, i)
         case Ingested(i, id, inserted) =>
           && Covers(pages[a.page], cp.inFlight, i)
           && pages[a.page][i].Snapshot? && id == EventOf(pages[a.page][i])
           && id !in cp.inFlight && id in s.d.inbox
         case PageEnd => Covers(pages[a.page], cp.inFlight, |pages[a.page]|)
         case Done(_) => false
       }
  }

  function Uncounted(s: System): nat {
    if s.a.Attempt? && s.a.pc.Ingested? && s.a.pc.inserted then 1 else 0
  }

  /** Closing page 2000 of a listing that goes on keeps that page as the retry point, so it
      will be counted again. */
  predicate Recounts(pages: Listing, s: System) {
    s.a.Attempt? && s.a.pc.PageEnd? && s.a.page == MAX_PAGE && MAX_PAGE + 1 < |pages|
  }

  /** The distinct items of page 2000. */
  function LastPageSize(pages: Listing): nat {
    |Distinct(EventIds(PageAt(pages, MAX_PAGE)))|
  }

  ghost predicate Inv(cfg: Config, pages: Listing, before: set<EventId>, s: System, recounted: nat) {
    && Balanced(before, s, Uncounted(s))
    && (Unfinished(cfg, pages, before, s.d, recounted) || (recounted == 0 && Finished(cfg, pages, before, s.d)))
    && (s.a.Attempt? && !s.a.pc.Done? ==> InStep(cfg, pages, s))
  }

  // ---- Facts about Distinct --------------------------------------------------

  lemma {:induction false} DistinctShape(ids: seq<EventId>)
    ensures Elems(Distinct(ids)) == Elems(ids)
    ensures |Distinct(ids)| <= |ids|
    ensures forall i, j :: 0 <= i < j < |Distinct(ids)| ==> Distinct(ids)[i] != Distinct(ids)[j]
  {
    if ids != [] {
      var front, last := ids[..|ids| - 1], ids[|ids| - 1];
      DistinctShape(front);
      assert ids == front + [last];
      assert Elems(ids) == Elems(front) + {last};
      assert last in Distinct(front) <==> last in Elems(Distinct(front));
    }
  }

  lemma DistinctExtend(ids: seq<EventId>, j: nat)
    requires j < |ids|
    ensures Distinct(ids[..j + 1])
         == if ids[j] in ids[..j] then Distinct(ids[..j]) else Distinct(ids[..j]) + [ids[j]]
  {
    assert ids[..j + 1][..j] == ids[..j];
    DistinctShape(ids[..j]);
    assert ids[j] in Distinct(ids[..j]) <==> ids[j] in Elems(Distinct(ids[..j]));
    assert ids[j] in ids[..j] <==> ids[j] in Elems(ids[..j]);
  }

  lemma {:induction false} DistinctPrefix(ids: seq<EventId>, j: nat)
    requires j <= |ids|
    ensures |Distinct(ids[..j])| <= |Distinct(ids)|
    decreases |ids|
  {
    if j == |ids| {
      assert ids[..j] == ids;
    } else {
      DistinctPrefix(ids[..|ids| - 1], j);
      assert ids[..|ids| - 1][..j] == ids[..j];
    }
  }

  lemma CoveredIsInFlight(items: seq<Item>, inFlight: seq<EventId>, j: nat, k: nat)
    requires k < j <= |items| && CoversTo(items, inFlight, j)
    ensures EventOf(items[k]) in inFlight
  {
    var ids := EventIds(items);
    DistinctShape(ids[..j]);
    assert ids[..j][k] in Elems(ids[..j]);
    assert EventOf(items[k]) in Elems(inFlight);
  }

  lemma CoverNext(items: seq<Item>, inFlight: seq<EventId>, i: nat)
    requires i < |items| && items[i].Snapshot? && CoversTo(items, inFlight, i)
    ensures CoversTo(items, if EventOf(items[i]) in inFlight then inFlight else inFlight + [EventOf(items[i])], i + 1)
  {
    var ids := EventIds(items);
    DistinctShape(ids[..i]);
    DistinctExtend(ids, i);
    assert ids[i] in inFlight <==> ids[i] in Elems(inFlight);
    assert ids[i] in ids[..i] <==> ids[i] in Elems(ids[..i]);
  }

  /** An item that is already in flight can be passed over. */
  lemma CoverSkip(items: seq<Item>, inFlight: seq<EventId>, i: nat)
    requires i < |items| && items[i].Snapshot? && Covers(items, inFlight, i) && EventOf(items[i]) in inFlight
    ensures Covers(items, inFlight, i + 1)
  {
    hide CoversTo;
    var j :| i <= j <= |items| && CoversTo(items, inFlight, j);
    if j == i {
      CoverNext(items, inFlight, i);
    }
  }

  /** An item that is not in flight is the first one not covered, and comes next. */
  lemma CoverAdd(items: seq<Item>, inFlight: seq<EventId>, i: nat)
    requires i < |items| && items[i].Snapshot? && Covers(items, inFlight, i) && EventOf(items[i]) !in inFlight
    ensures CoversTo(items, inFlight + [EventOf(items[i])], i + 1)
  {
    hide CoversTo;
    var j :| i <= j <= |items| && CoversTo(items, inFlight, j);
    if i < j {
      CoveredIsInFlight(items, inFlight, j, i);
    } else {
      CoverNext(items, inFlight, i);
    }
  }

  lemma PageCovered(items: seq<Item>, inFlight: seq<EventId>)
    requires Covers(items, inFlight, |items|)
    ensures inFlight == Distinct(EventIds(items)) && Elems(inFlight) == Elems(EventIds(items))
    ensures forall k :: 0 <= k < |items| ==> items[k].Snapshot?
  {
    var j :| |items| <= j <= |items| && CoversTo(items, inFlight, j);
    assert EventIds(items)[..j] == EventIds(items);
    DistinctShape(EventIds(items));
  }

  lemma EmptyCovers(items: seq<Item>)
    ensures Covers(items, [], 0)
  {
    assert EventIds(items)[..0] == [];
    assert CoversTo(items, [], 0);
  }

  /** What is in flight belongs to the page, is duplicate free and fits the page. */
  lemma CoverWithin(items: seq<Item>, inFlight: seq<EventId>, i: nat)
    requires Covers(items, inFlight, i)
    ensures Elems(inFlight) <= Elems(EventIds(items))
    ensures |inFlight| <= |items| && |inFlight| <= |Distinct(EventIds(items))|
    ensures forall k, l :: 0 <= k < l < |inFlight| ==> inFlight[k] != inFlight[l]
    ensures forall k :: 0 <= k < |inFlight| ==> ValidEventId(inFlight[k]) && |inFlight[k]| == EVENT_ID_BYTES
  {
    var ids := EventIds(items);
    var j :| i <= j <= |items| && CoversTo(items, inFlight, j);
    DistinctShape(ids[..j]);
    DistinctPrefix(ids, j);
    forall k | 0 <= k < |inFlight|
      ensures ValidEventId(inFlight[k]) && |inFlight[k]| == EVENT_ID_BYTES
    {
      assert inFlight[k] in Elems(ids[..j]);
      var l :| 0 <= l < j && ids[l] == inFlight[k];
      EventIdValid(items[l].digest);
    }
  }

  lemma EventIdValid(digest: HexDigest)
    ensures ValidEventId(EVENT_PREFIX + digest)
  {
    var id := EVENT_PREFIX + digest;
    assert id[0] == 'a';
    assert Text.TrimLeft(id) == id;
    Text.TrimRightKeepsHead(id);
  }

  // ---- How large checkpoints get -----------------------------------------------

  const EVENT_ID_BYTES: nat := 99

  lemma {:induction false} QuotedIds(ids: seq<EventId>)
    requires forall k :: 0 <= k < |ids| ==> |ids[k]| == EVENT_ID_BYTES
    ensures QuotedBytes(ids) == (EVENT_ID_BYTES + 3) * |ids|
  {
    if ids != [] {
      QuotedIds(ids[..|ids| - 1]);
    }
  }

  /** A checkpoint of the reconciler's own event IDs can be written as long as it lists at
      most 158, and read back exactly when it lists at most 157. */
  lemma CheckpointSize(cp: Checkpoint)
    requires CheckpointValid(cp) && |cp.inFlight| <= MAX_IN_FLIGHT + 1
    requires forall k :: 0 <= k < |cp.inFlight| ==> |cp.inFlight[k]| == EVENT_ID_BYTES
    ensures Writable(cp)
    ensures Readable(cp) <==> |cp.inFlight| <= MAX_IN_FLIGHT
  {
    QuotedIds(cp.inFlight);
    assert |FIELD_NAMES| == 108;
  }

  // ---- Every event keeps the invariant ---------------------------------------

  lemma IdsOfPage(pages: Listing, n: nat, i: nat)
    requires n < |pages| && i < |pages[n]|
    ensures EventOf(pages[n][i]) in IdsBefore(pages, n + 1)
  {
    assert EventIds(pages[n])[i] in Elems(EventIds(pages[n]));
  }

  /** Every checkpoint an unfinished run can hold can be written and is valid; it can be read
      back exactly when it lists at most 157 IDs, and it resumes at the page it was written
      for. */
  lemma UnfinishedIsWritable(cfg: Config, pages: Listing, before: set<EventId>, d: Durable, recounted: nat)
    requires cfg.Valid() && Unfinished(cfg, pages, before, d, recounted)
    requires 0 <= d.checkpoint.created && 0 <= d.checkpoint.existing
    ensures Writable(d.checkpoint)
    ensures Opens(d.checkpoint) <==> |d.checkpoint.inFlight| <= MAX_IN_FLIGHT
    ensures ResumePage(d.checkpoint) == d.checkpoint.nextPage < |pages|
  {
    hide CoversTo, IdsBefore, DistinctBefore, WellFormedBefore, Writable, Readable, ValidEventId;
    CoverWithin(pages[d.checkpoint.nextPage], d.checkpoint.inFlight, 0);
    CheckpointSize(d.checkpoint);
  }

  lemma OpenKeeps(cfg: Config, pages: Listing, before: set<EventId>, s: System, recounted: nat)
    requires cfg.Valid() && Inv(cfg, pages, before, s, recounted) && s.a.NoAttempt?
    ensures Inv(cfg, pages, before, Open(s), recounted)
    ensures !s.d.completed && |s.d.checkpoint.inFlight| <= MAX_IN_FLIGHT ==>
              Open(s).a.Attempt? && Open(s).a.pc == Fetch && Open(s).a.fetched == 0 && InStep(cfg, pages, Open(s))
    ensures !s.d.completed && |s.d.checkpoint.inFlight| > MAX_IN_FLIGHT ==>
              Open(s).a.Attempt? && Open(s).a.pc == Done(CheckpointRefused)
  {
    hide Opens, CoversTo, IdsBefore, DistinctBefore, WellFormedBefore;
    if !s.d.completed {
      UnfinishedIsWritable(cfg, pages, before, s.d, recounted);
    }
  }

  lemma OneMore(inbox: set<EventId>, before: set<EventId>, id: EventId)
    requires before <= inbox
    ensures |(inbox + {id}) - before| == |inbox - before| + if id in inbox then 0 else 1
  {
    if id in inbox {
      assert inbox + {id} == inbox;
    } else {
      assert (inbox + {id}) - before == (inbox - before) + {id};
    }
  }

  lemma IngestKeeps(cfg: Config, pages: Listing, before: set<EventId>, s: System, recounted: nat)
    requires Inv(cfg, pages, before, s, recounted) && s.a.Attempt? && s.a.pc.AtItem?
    ensures Inv(cfg, pages, before, Next(cfg, pages, s), recounted)
  {
    hide CoversTo, IdsBefore, DistinctBefore, WellFormedBefore, Distinct, EventIds, EventOf;
    var a, cp, t := s.a, s.d.checkpoint, Next(cfg, pages, s);
    var items, i := pages[a.page], a.pc.i;
    if i < |items| && items[i].Snapshot? {
      var id := EventOf(items[i]);
      if id in a.processed {
        CoverSkip(items, cp.inFlight, i);
      } else {
        IdsOfPage(pages, a.page, i);
        OneMore(s.d.inbox, before, id);
      }
    }
  }

  lemma ElemsSnoc(ids: seq<EventId>, id: EventId)
    ensures Elems(ids + [id]) == Elems(ids) + {id}
    ensures id !in ids ==> id !in Elems(ids)
  {
  }

  /** The state an ingested item's checkpoint describes. */
  lemma RecordedIsUnfinished(cfg: Config, pages: Listing, before: set<EventId>, s: System, recounted: nat)
    requires Inv(cfg, pages, before, s, recounted) && s.a.Attempt? && s.a.pc.Ingested?
    ensures var d := s.d.(checkpoint := RecordItem(s.a.cp, s.a.page, s.a.pc.id, s.a.pc.inserted));
            && Unfinished(cfg, pages, before, d, recounted) && InStep(cfg, pages, s)
            && 0 <= d.checkpoint.created && 0 <= d.checkpoint.existing
            && Covers(pages[s.a.page], d.checkpoint.inFlight, s.a.pc.i + 1)
            && Elems(d.checkpoint.inFlight) == s.a.processed + {s.a.pc.id}
  {
    hide CoversTo, IdsBefore, DistinctBefore, WellFormedBefore, Distinct, EventIds, EventOf;
    var cp, id, items, i := s.d.checkpoint, s.a.pc.id, pages[s.a.page], s.a.pc.i;
    CoverAdd(items, cp.inFlight, i);
    ElemsSnoc(cp.inFlight, id);
    assert Covers(items, cp.inFlight + [id], i + 1) && Covers(items, cp.inFlight + [id], 0);
    hide Covers, Elems;
  }

  /** An ingested item's checkpoint is always written, and the attempt goes on exactly when
      it can be read back. */
  lemma RecordKeeps(cfg: Config, pages: Listing, before: set<EventId>, s: System, recounted: nat)
    requires cfg.Valid() && Inv(cfg, pages, before, s, recounted) && s.a.Attempt? && s.a.pc.Ingested?
    ensures Inv(cfg, pages, before, Next(cfg, pages, s), recounted)
    ensures var t := Next(cfg, pages, s);
            && t.d == s.d.(checkpoint := RecordItem(s.a.cp, s.a.page, s.a.pc.id, s.a.pc.inserted)) && t.lost == s.lost
            && (if |t.d.checkpoint.inFlight| <= MAX_IN_FLIGHT then t.a.pc == AtItem(s.a.pc.i + 1)
                else t.a.pc == Done(CheckpointNotSaved))
  {
    hide Covers, Elems, Writable, Readable, Unfinished, IdsBefore, DistinctBefore, WellFormedBefore;
    var d := s.d.(checkpoint := RecordItem(s.a.cp, s.a.page, s.a.pc.id, s.a.pc.inserted));
    RecordedIsUnfinished(cfg, pages, before, s, recounted);
    UnfinishedIsWritable(cfg, pages, before, d, recounted);
    WritableIsValid(d.checkpoint);
    assert Saves(d.checkpoint) <==> |d.checkpoint.inFlight| <= MAX_IN_FLIGHT;
  }

  lemma WritableIsValid(cp: Checkpoint)
    requires Writable(cp)
    ensures CheckpointValid(cp)
  {
  }

  lemma IdsStep(pages: Listing, n: nat)
    requires n < |pages|
    ensures IdsBefore(pages, n + 1) == IdsBefore(pages, n) + Elems(EventIds(pages[n]))
    ensures DistinctBefore(pages, n + 1) == DistinctBefore(pages, n) + |Distinct(EventIds(pages[n]))|
  {
  }

  lemma WellFormedStep(cfg: Config, pages: Listing, n: nat)
    requires n < |pages| && WellFormedBefore(cfg, pages, n) && WellFormedPage(cfg, pages[n])
    ensures WellFormedBefore(cfg, pages, n + 1)
  {
  }

  /** Closing a fully covered page moves the run to the next page or finishes it; page 2000
      of a longer listing stays the page to read next. */
  lemma PageCloses(cfg: Config, pages: Listing, before: set<EventId>, d: Durable, d': Durable, recounted: nat)
    requires Unfinished(cfg, pages, before, d, recounted)
    requires recounted > 0 ==> |pages| > MAX_PAGE + 1
    requires var p := d.checkpoint.nextPage;
             && Covers(pages[p], d.checkpoint.inFlight, |pages[p]|)
             && |pages[p]| <= cfg.pageSize && |d.checkpoint.inFlight| <= MAX_IN_FLIGHT
             && d' == Durable(d.inbox, RecordPage(d.checkpoint, p), p + 1 == |pages|)
    ensures var again := d.checkpoint.nextPage == MAX_PAGE && MAX_PAGE + 1 < |pages|;
            if d'.completed then recounted == 0 && Finished(cfg, pages, before, d')
            else Unfinished(cfg, pages, before, d', recounted + if again then LastPageSize(pages) else 0)
  {
    hide Covers, CoversTo, IdsBefore, DistinctBefore, WellFormedBefore, Distinct, EventIds;
    var p := d.checkpoint.nextPage;
    PageCovered(pages[p], d.checkpoint.inFlight);
    IdsStep(pages, p);
    WellFormedStep(cfg, pages, p);
    EmptyCovers(pages[p]);
    if p + 1 < |pages| {
      EmptyCovers(pages[p + 1]);
      IdsStep(pages, p + 1);
    }
    assert Elems([]) == {};
    assert before + IdsBefore(pages, p + 1) == d.inbox;
  }

  lemma PageCheckpointSaves(cp: Checkpoint, page: nat)
    requires 0 <= cp.seen && 0 <= cp.created && 0 <= cp.existing && page <= MAX_PAGE
    ensures Saves(RecordPage(cp, page))
  {
    CheckpointSize(RecordPage(cp, page));
  }

  lemma PageEndKeeps(cfg: Config, pages: Listing, before: set<EventId>, s: System, recounted: nat)
    requires recounted > 0 ==> |pages| > MAX_PAGE + 1
    requires Inv(cfg, pages, before, s, recounted) && s.a.Attempt? && s.a.pc.PageEnd?
    ensures Inv(cfg, pages, before, Next(cfg, pages, s), recounted + Recount(pages, s))
    ensures var t := Next(cfg, pages, s);
            && t.d == Durable(s.d.inbox, RecordPage(s.a.cp, s.a.page), s.a.page + 1 >= |pages|) && t.lost == s.lost
  {
    hide Covers, CoversTo, IdsBefore, DistinctBefore, WellFormedBefore, LastPageSize, Saves, Writable;
    PageCheckpointSaves(s.a.cp, s.a.page);
    assert Writable(RecordPage(s.a.cp, s.a.page)) by { SavesWrites(RecordPage(s.a.cp, s.a.page)); }
    PageCloses(cfg, pages, before, s.d, Next(cfg, pages, s).d, recounted);
  }

  lemma SavesWrites(cp: Checkpoint)
    requires Saves(cp)
    ensures Writable(cp)
  {
  }

  /** How many candidates the next step makes count twice. */
  function Recount(pages: Listing, s: System): nat {
    if Recounts(pages, s) then LastPageSize(pages) else 0
  }

  lemma NextKeeps(cfg: Config, pages: Listing, before: set<EventId>, s: System, recounted: nat)
    requires cfg.Valid() && (recounted > 0 ==> |pages| > MAX_PAGE + 1)
    requires Inv(cfg, pages, before, s, recounted) && InListing(pages, s.a)
    ensures Inv(cfg, pages, before, Next(cfg, pages, s), recounted + Recount(pages, s))
    ensures Next(cfg, pages, s).lost == s.lost
  {
    hide Inv, Saves, Writable, Saved, LastPageSize;
    match s.a.pc
    case Fetch => FetchKeeps(cfg, pages, before, s, recounted);
    case AtItem(_) => IngestKeeps(cfg, pages, before, s, recounted);
    case Ingested(_, _, _) => RecordKeeps(cfg, pages, before, s, recounted);
    case PageEnd => PageEndKeeps(cfg, pages, before, s, recounted);
    case Done(_) =>
  }

  lemma FetchKeeps(cfg: Config, pages: Listing, before: set<EventId>, s: System, recounted: nat)
    requires Inv(cfg, pages, before, s, recounted) && s.a.Attempt? && s.a.pc.Fetch?
    ensures Inv(cfg, pages, before, Next(cfg, pages, s), recounted)
  {
    hide IdsBefore, DistinctBefore, WellFormedBefore, CoversTo;
    if s.d.checkpoint.inFlight == [] { EmptyCovers(pages[s.a.page]); }
  }

  lemma FreshHolds(cfg: Config, pages: Listing, before: set<EventId>)
    ensures Inv(cfg, pages, before, Fresh(before), 0)
  {
    EmptyCovers(pages[0]);
  }

  /** The candidates that were counted again, over a run. */
  function Recounted(cfg: Config, pages: Listing, s: System, events: seq<Event>): nat {
    if events == [] then 0
    else
      var front := events[..|events| - 1];
      var t := Run(cfg, pages, s, front);
      Recounted(cfg, pages, s, front)
      + if events[|events| - 1] == Work && InListing(pages, t.a) then Recount(pages, t) else 0
  }

  lemma {:induction false} RecountedNeedsLength(cfg: Config, pages: Listing, s: System, events: seq<Event>)
    ensures Recounted(cfg, pages, s, events) > 0 ==> |pages| > MAX_PAGE + 1
  {
    hide Run, LastPageSize;
    if events != [] {
      RecountedNeedsLength(cfg, pages, s, events[..|events| - 1]);
    }
  }

  lemma {:induction false} RunKeeps(cfg: Config, pages: Listing, before: set<EventId>, events: seq<Event>)
    requires cfg.Valid()
    ensures Inv(cfg, pages, before, Run(cfg, pages, Fresh(before), events),
                Recounted(cfg, pages, Fresh(before), events))
  {
    hide Inv, Next, Open, Recount;
    if events == [] {
      FreshHolds(cfg, pages, before);
    } else {
      var front := events[..|events| - 1];
      var s := Run(cfg, pages, Fresh(before), front);
      var r := Recounted(cfg, pages, Fresh(before), front);
      RunKeeps(cfg, pages, before, front);
      RecountedNeedsLength(cfg, pages, Fresh(before), front);
      match events[|events| - 1]
      case OpenRun => if s.a.NoAttempt? { OpenKeeps(cfg, pages, before, s, r); }
      case Work => if InListing(pages, s.a) { NextKeeps(cfg, pages, before, s, r); }
      case Crash => CrashKeeps(cfg, pages, before, s, r);
    }
  }

  lemma CrashKeeps(cfg: Config, pages: Listing, before: set<EventId>, s: System, recounted: nat)
    requires Inv(cfg, pages, before, s, recounted)
    ensures Inv(cfg, pages, before, Happen(cfg, pages, s, Crash), recounted)
  {
    hide Covers, IdsBefore, DistinctBefore, WellFormedBefore;
  }

  // ---- Safety over whole runs ------------------------------------------------

  function TornCrashes(cfg: Config, pages: Listing, s: System, events: seq<Event>): nat {
    if events == [] then 0
    else
      var front := events[..|events| - 1];
      TornCrashes(cfg, pages, s, front)
      + if Torn(Run(cfg, pages, s, front), events[|events| - 1]) then 1 else 0
  }

  lemma {:induction false} LostIsTorn(cfg: Config, pages: Listing, before: set<EventId>, events: seq<Event>)
    requires cfg.Valid()
    ensures Run(cfg, pages, Fresh(before), events).lost == TornCrashes(cfg, pages, Fresh(before), events)
  {
    hide Inv, Next, Open;
    if events != [] {
      var front := events[..|events| - 1];
      LostIsTorn(cfg, pages, before, front);
      var s := Run(cfg, pages, Fresh(before), front);
      if events[|events| - 1] == Work && InListing(pages, s.a) {
        RunKeeps(cfg, pages, before, front);
        RecountedNeedsLength(cfg, pages, Fresh(before), front);
        NextKeeps(cfg, pages, before, s, Recounted(cfg, pages, Fresh(before), front));
      } else {
        OpenLosesNothing(s);
      }
    }
  }

  lemma OpenLosesNothing(s: System)
    ensures Open(s).lost == s.lost && Open(s).d == s.d
  {
  }

  /** Whatever opens, steps and crashes came before, and however long the listing is, the
      checkpoint of an unfinished run is valid and resumes at the page it was written for;
      the next open accepts it exactly when it lists at most 157 IDs, which on a page with
      no more distinct items it does. */
  lemma CheckpointAccepted(cfg: Config, pages: Listing, before: set<EventId>, events: seq<Event>)
    requires cfg.Valid() && !Run(cfg, pages, Fresh(before), events).d.completed
    ensures var cp := Run(cfg, pages, Fresh(before), events).d.checkpoint;
            && CheckpointValid(cp) && ResumePage(cp) == cp.nextPage < |pages|
            && (Opens(cp) <==> |cp.inFlight| <= MAX_IN_FLIGHT)
            && |cp.inFlight| <= |Distinct(EventIds(pages[cp.nextPage]))|
  {
    hide Run, Recounted, CoversTo, IdsBefore, DistinctBefore, WellFormedBefore;
    RunKeeps(cfg, pages, before, events);
    var recounted := Recounted(cfg, pages, Fresh(before), events);
    var d := Run(cfg, pages, Fresh(before), events).d;
    UnfinishedIsWritable(cfg, pages, before, d, recounted);
    CoverWithin(pages[d.checkpoint.nextPage], d.checkpoint.inFlight, 0);
  }

  /** However often a run over a listing of any length is cut short and resumed: the inbox
      never strays from the listing, the counters balance, and created events fall short of
      the new inbox entries by exactly the crashes that fell between a fresh ingest and its
      checkpoint. While the run is unfinished the candidates are those of the pages before,
      those in flight, and those recounted at page 2000 of a listing that goes on. Once it
      completes, inbox and candidate count are those of the listing. */
  lemma RunIsExact(cfg: Config, pages: Listing, before: set<EventId>, events: seq<Event>)
    requires cfg.Valid()
    ensures var s := Run(cfg, pages, Fresh(before), events);
            var cp := s.d.checkpoint;
            && before <= s.d.inbox <= before + IdsBefore(pages, |pages|)
            && cp.created + cp.existing == cp.seen
            && cp.created + TornCrashes(cfg, pages, Fresh(before), events) + Uncounted(s) == |s.d.inbox - before|
            && (!s.d.completed ==>
                  && 0 <= cp.nextPage < |pages|
                  && cp.seen == DistinctBefore(pages, cp.nextPage) + |cp.inFlight|
                                + Recounted(cfg, pages, Fresh(before), events))
            && (s.d.completed ==>
                  && s.d.inbox == before + IdsBefore(pages, |pages|)
                  && cp.seen == DistinctBefore(pages, |pages|)
                  && Uncounted(s) == 0)
  {
    hide Run, TornCrashes, Recounted, Covers, CoversTo, IdsBefore, DistinctBefore, WellFormedBefore;
    var s := Run(cfg, pages, Fresh(before), events);
    RunKeeps(cfg, pages, before, events);
    LostIsTorn(cfg, pages, before, events);
    if !s.d.completed {
      IdsMonotone(pages, s.d.checkpoint.nextPage + 1, |pages|);
    }
  }

  /** How often a run closed page 2000 of a listing that goes on. */
  function Closings(cfg: Config, pages: Listing, s: System, events: seq<Event>): nat {
    if events == [] then 0
    else
      var front := events[..|events| - 1];
      var t := Run(cfg, pages, s, front);
      Closings(cfg, pages, s, front)
      + if events[|events| - 1] == Work && InListing(pages, t.a) && Recounts(pages, t) then 1 else 0
  }

  lemma {:induction false} RecountedIsClosings(cfg: Config, pages: Listing, s: System, events: seq<Event>)
    ensures Recounted(cfg, pages, s, events) == Closings(cfg, pages, s, events) * LastPageSize(pages)
  {
    hide Run, LastPageSize, Recounts;
    if events != [] {
      RecountedIsClosings(cfg, pages, s, events[..|events| - 1]);
    }
  }

  /** An unfinished run's candidates are exactly the distinct items of the pages before it
      and those in flight, if and only if it never closed page 2000 of a listing that goes
      on, or that page is empty. */
  lemma CandidatesExactly(cfg: Config, pages: Listing, before: set<EventId>, events: seq<Event>)
    requires cfg.Valid() && !Run(cfg, pages, Fresh(before), events).d.completed
    ensures var cp := Run(cfg, pages, Fresh(before), events).d.checkpoint;
            && 0 <= cp.nextPage < |pages|
            && (cp.seen == DistinctBefore(pages, cp.nextPage) + |cp.inFlight|
                <==> Closings(cfg, pages, Fresh(before), events) == 0 || PageAt(pages, MAX_PAGE) == [])
  {
    hide Run, Closings, Recounted, DistinctBefore, TornCrashes, IdsBefore, LastPageSize;
    RunIsExact(cfg, pages, before, events);
    RecountedIsClosings(cfg, pages, Fresh(before), events);
    EmptyPage(pages);
    var n, m := Closings(cfg, pages, Fresh(before), events), LastPageSize(pages);
    if n > 0 && m > 0 {
      assert n * m > 0;
    }
  }

  lemma EmptyPage(pages: Listing)
    ensures LastPageSize(pages) == 0 <==> PageAt(pages, MAX_PAGE) == []
  {
    var ids := EventIds(PageAt(pages, MAX_PAGE));
    if ids != [] {
      DistinctShape(ids);
      assert ids[0] in Elems(ids);
      assert ids[0] in Elems(Distinct(ids));
    }
  }

  lemma {:induction false} IdsMonotone(pages: Listing, m: nat, n: nat)
    requires m <= n <= |pages|
    ensures IdsBefore(pages, m) <= IdsBefore(pages, n)
  {
    if m < n {
      IdsMonotone(pages, m, n - 1);
    }
  }

  lemma {:induction false} BeyondBoundNeverEnds(cfg: Config, pages: Listing, before: set<EventId>, events: seq<Event>)
    requires |pages| > MAX_PAGE + 1
    ensures var s := Run(cfg, pages, Fresh(before), events);
            !s.d.completed && (s.a.Attempt? && !s.a.pc.Fetch? && !s.a.pc.Done? ==> s.a.page <= MAX_PAGE)
  {
    if events != [] {
      BeyondBoundNeverEnds(cfg, pages, before, events[..|events| - 1]);
    }
  }

  /** A run can only complete on a listing of at most 2001 pages, none of them above the
      requested size, with an item the reconciler refuses, or with more than 157 distinct
      items. */
  lemma CompletionNeedsReadableListing(cfg: Config, pages: Listing, before: set<EventId>, events: seq<Event>)
    requires cfg.Valid() && Run(cfg, pages, Fresh(before), events).d.completed
    ensures |pages| <= MAX_PAGE + 1 && WellFormedBefore(cfg, pages, |pages|)
  {
    RunKeeps(cfg, pages, before, events);
  }

  // ---- When every checkpoint is accepted -------------------------------------------

  /** Page p can be reached and lists, before any refused item, more distinct items than a
      checkpoint can. */
  ghost predicate Overfull(cfg: Config, pages: Listing, p: nat, j: nat) {
    && p < |pages| && p <= MAX_PAGE && WellFormedBefore(cfg, pages, p)
    && |pages[p]| <= cfg.pageSize && j <= |pages[p]|
    && (forall k :: 0 <= k < j ==> pages[p][k].Snapshot?)
    && |Distinct(EventIds(pages[p])[..j])| > MAX_IN_FLIGHT
  }

  /** An attempt that is done, none, or one that can still close a page. */
  predicate CanGoOn(cfg: Config, a: Attempt) {
    a.Attempt? && a.pc.Fetch? ==> a.fetched < cfg.maxPages
  }

  /** How far a run is from the end of its page: closing it, or opening the run again. */
  function Ahead(pages: Listing, s: System): nat {
    var page := if s.d.checkpoint.nextPage >= 0 then PageAt(pages, s.d.checkpoint.nextPage) else [];
    if s.a.NoAttempt? then 2 * |page| + 5
    else if s.a.pc.Done? || !InListing(pages, s.a) then 2 * |page| + 6
    else Rank(pages, s.a)
  }

  /** One more event towards an overfull page: the next page, or further on this one. */
  lemma OneCloser(cfg: Config, pages: Listing, before: set<EventId>, s: System, recounted: nat, p: nat, j: nat)
      returns (e: Event)
    requires cfg.Valid() && Overfull(cfg, pages, p, j)
    requires Inv(cfg, pages, before, s, recounted) && (recounted > 0 ==> |pages| > MAX_PAGE + 1)
    requires !s.d.completed && s.d.checkpoint.nextPage <= p && CanGoOn(cfg, s.a)
    requires |s.d.checkpoint.inFlight| <= MAX_IN_FLIGHT
    ensures var t := Happen(cfg, pages, s, e);
            && !t.d.completed && s.d.checkpoint.nextPage <= t.d.checkpoint.nextPage <= p && CanGoOn(cfg, t.a)
            && (|t.d.checkpoint.inFlight| > MAX_IN_FLIGHT || s.d.checkpoint.nextPage < t.d.checkpoint.nextPage
                || Ahead(pages, t) < Ahead(pages, s))
  {
    hide CoversTo, IdsBefore, DistinctBefore, Saves, Writable, Opens, Distinct, EventIds;
    if s.a.NoAttempt? {
      e := OpenRun;
      OpenKeeps(cfg, pages, before, s, recounted);
    } else if s.a.pc.Done? {
      e := Crash;
    } else {
      e := Work;
      NotPast(cfg, pages, s, p, j);
      if s.a.pc.Ingested? { RecordKeeps(cfg, pages, before, s, recounted); }
      if s.a.pc.PageEnd? {
        CountersNonNegative(before, s);
        PageCheckpointSaves(s.a.cp, s.a.page);
        PageEndKeeps(cfg, pages, before, s, recounted);
      }
    }
  }

  /** A live attempt has not got past the overfull part, and has nothing to stop it. */
  lemma NotPast(cfg: Config, pages: Listing, s: System, p: nat, j: nat)
    requires Overfull(cfg, pages, p, j) && InStep(cfg, pages, s) && s.a.page <= p
    ensures |pages[s.a.page]| <= cfg.pageSize
    ensures s.a.pc.AtItem? && s.a.pc.i < |pages[s.a.page]| ==> pages[s.a.page][s.a.pc.i].Snapshot?
    ensures s.a.pc.PageEnd? ==> s.a.page < p
  {
    hide IdsBefore, DistinctBefore, Distinct;
    if s.a.page < p {
      assert WellFormedPage(cfg, pages[s.a.page]);
    } else if s.a.pc.AtItem? || s.a.pc.PageEnd? {
      var items, inFlight := pages[p], s.d.checkpoint.inFlight;
      var i := if s.a.pc.AtItem? then s.a.pc.i else |items|;
      var c :| i <= c <= |items| && CoversTo(items, inFlight, c);
      if j <= c {
        assert EventIds(items)[..c][..j] == EventIds(items)[..j];
        DistinctPrefix(EventIds(items)[..c], j);
      }
    }
  }

  /** A run that gets to where the store stops it. */
  lemma {:induction false} StopsAt(
      cfg: Config, pages: Listing, before: set<EventId>, events: seq<Event>, p: nat, j: nat)
      returns (all: seq<Event>)
    requires cfg.Valid() && Overfull(cfg, pages, p, j)
    requires var s := Run(cfg, pages, Fresh(before), events);
             !s.d.completed && s.d.checkpoint.nextPage <= p && CanGoOn(cfg, s.a)
    ensures var s := Run(cfg, pages, Fresh(before), all);
            !s.d.completed && |s.d.checkpoint.inFlight| > MAX_IN_FLIGHT
    decreases p - Run(cfg, pages, Fresh(before), events).d.checkpoint.nextPage,
              Ahead(pages, Run(cfg, pages, Fresh(before), events))
  {
    hide Run, Inv, Overfull, Happen, Ahead;
    var s := Run(cfg, pages, Fresh(before), events);
    if |s.d.checkpoint.inFlight| > MAX_IN_FLIGHT {
      all := events;
    } else {
      var recounted := Recounted(cfg, pages, Fresh(before), events);
      RunKeeps(cfg, pages, before, events);
      RecountedNeedsLength(cfg, pages, Fresh(before), events);
      var e := OneCloser(cfg, pages, before, s, recounted, p, j);
      RunSnoc(cfg, pages, Fresh(before), events, e);
      all := events + [e];
      if |Run(cfg, pages, Fresh(before), all).d.checkpoint.inFlight| <= MAX_IN_FLIGHT {
        all := StopsAt(cfg, pages, before, all, p, j);
      }
    }
  }

  /** Checkpoint closure, exactly: the checkpoint of every unfinished run is accepted by the
      next open if and only if no page that can be reached lists more than 157 distinct items
      before an item the reconciler refuses. */
  lemma ClosureExactly(cfg: Config, pages: Listing, before: set<EventId>)
    requires cfg.Valid()
    ensures (forall events :: var d := Run(cfg, pages, Fresh(before), events).d; d.completed || Opens(d.checkpoint))
            <==> (forall p, j :: !Overfull(cfg, pages, p, j))
  {
    hide Run, Overfull, Opens;
    if p, j :| Overfull(cfg, pages, p, j) {
      RunSnoc(cfg, pages, Fresh(before), [], Crash);
      var all := StopsAt(cfg, pages, before, [], p, j);
      CheckpointAccepted(cfg, pages, before, all);
    } else {
      forall events | !Run(cfg, pages, Fresh(before), events).d.completed
        ensures Opens(Run(cfg, pages, Fresh(before), events).d.checkpoint)
      {
        CheckpointAccepted(cfg, pages, before, events);
        RunKeeps(cfg, pages, before, events);
        var d := Run(cfg, pages, Fresh(before), events).d;
        if |d.checkpoint.inFlight| > MAX_IN_FLIGHT {
          OverfullHere(cfg, pages, before, d, Recounted(cfg, pages, Fresh(before), events));
        }
      }
    }
  }

  lemma OverfullHere(cfg: Config, pages: Listing, before: set<EventId>, d: Durable, recounted: nat)
    requires Unfinished(cfg, pages, before, d, recounted) && |d.checkpoint.inFlight| > MAX_IN_FLIGHT
    ensures exists p, j :: Overfull(cfg, pages, p, j)
  {
    var p := d.checkpoint.nextPage;
    var j :| 0 <= j <= |pages[p]| && CoversTo(pages[p], d.checkpoint.inFlight, j);
    assert Overfull(cfg, pages, p, j);
  }

  /** Once a checkpoint cannot be read back, no event changes what is durable. */
  lemma {:induction false} StuckForGood(cfg: Config, pages: Listing, s: System, events: seq<Event>)
    requires !Opens(s.d.checkpoint) && !s.d.completed && (s.a.Attempt? ==> s.a.pc.Done?)
    ensures var t := Run(cfg, pages, s, events); t.d == s.d && (t.a.Attempt? ==> t.a.pc.Done?)
  {
    hide Opens;
    if events != [] {
      StuckForGood(cfg, pages, s, events[..|events| - 1]);
    }
  }

  // ---- The imperative reconciler is such a run ---------------------------------

  function Works(n: nat): (es: seq<Event>)
    ensures |es| == n
  {
    seq(n, _ => Work)
  }

  /** An attempt of n steps, as `Store.Reconcile` performs it, is one open and n work events. */
  lemma {:induction false} AttemptIsRun(cfg: Config, pages: Listing, s: System, n: nat)
    requires s.a.NoAttempt? && InListing(pages, Open(s).a)
    ensures Run(cfg, pages, s, [OpenRun] + Works(n)) == Steps(cfg, pages, Open(s), n)
  {
    hide Run, Next, Open;
    if n == 0 {
      assert [OpenRun] + Works(0) == [] + [OpenRun];
      RunSnoc(cfg, pages, s, [], OpenRun);
    } else {
      assert [OpenRun] + Works(n) == ([OpenRun] + Works(n - 1)) + [Work];
      RunSnoc(cfg, pages, s, [OpenRun] + Works(n - 1), Work);
      AttemptIsRun(cfg, pages, s, n - 1);
      StepOnce(cfg, pages, Open(s), n - 1);
    }
  }

  lemma RunSnoc(cfg: Config, pages: Listing, s: System, events: seq<Event>, e: Event)
    ensures Run(cfg, pages, s, events + [e]) == Happen(cfg, pages, Run(cfg, pages, s, events), e)
    ensures Run(cfg, pages, s, []) == s
  {
    assert (events + [e])[..|events|] == events;
  }

  // ---- Progress without faults -------------------------------------------------

  function Rank(pages: Listing, a: Attempt): nat
    requires InListing(pages, a)
  {
    match a.pc
    case Fetch => 2 * |PageAt(pages, a.page)| + 4
    case AtItem(i) => 2 * (|PageAt(pages, a.page)| - i) + 2
    case Ingested(i, _, _) => 2 * (|PageAt(pages, a.page)| - i) + 1
    case PageEnd => 1
    case Done(_) => 0
  }

  function PagesLeft(pages: Listing, a: Attempt): nat
    requires a.Attempt?
  {
    if a.pc.Done? || a.page >= |pages| then 0 else |pages| - a.page
  }

  /** An attempt that nothing interrupts. */
  function Drive(cfg: Config, pages: Listing, s: System): System
    requires InListing(pages, s.a)
    decreases PagesLeft(pages, s.a), Rank(pages, s.a)
  {
    if s.a.pc.Done? then s
    else
      NextStaysInListing(cfg, pages, s);
      Drive(cfg, pages, Next(cfg, pages, s))
  }

  function FullAttempt(cfg: Config, pages: Listing, s: System): System {
    if InListing(pages, Open(s).a) then Drive(cfg, pages, Open(s)).(a := NoAttempt) else s
  }

  function Attempts(cfg: Config, pages: Listing, s: System, k: nat): System
    decreases k
  {
    if k == 0 || s.d.completed then s else Attempts(cfg, pages, FullAttempt(cfg, pages, s), k - 1)
  }

  /** Pages this attempt can still close. */
  function Capacity(cfg: Config, a: Attempt): int
    requires a.Attempt?
  {
    cfg.maxPages - a.fetched + if a.pc.Fetch? then 0 else 1
  }

  /** On a well-formed page the store never gets in the way. */
  lemma StepGoesOn(cfg: Config, pages: Listing, before: set<EventId>, s: System)
    requires cfg.Valid() && |pages| <= MAX_PAGE + 1
    requires Inv(cfg, pages, before, s, 0) && InStep(cfg, pages, s) && WellFormedPage(cfg, pages[s.a.page])
    ensures Inv(cfg, pages, before, Next(cfg, pages, s), 0)
    ensures s.a.pc.Ingested? ==> Next(cfg, pages, s).a.pc == AtItem(s.a.pc.i + 1)
    ensures s.a.pc.PageEnd? ==> Saves(RecordPage(s.a.cp, s.a.page))
  {
    hide Covers, CoversTo, Balanced, Saves, Writable, IdsBefore, DistinctBefore, WellFormedBefore;
    NextKeeps(cfg, pages, before, s, 0);
    if s.a.pc.Ingested? {
      RecordKeeps(cfg, pages, before, s, 0);
      CoverWithin(pages[s.a.page], Next(cfg, pages, s).d.checkpoint.inFlight, 0);
    }
    if s.a.pc.PageEnd? {
      CountersNonNegative(before, s);
      PageCheckpointSaves(s.a.cp, s.a.page);
    }
  }

  lemma CountersNonNegative(before: set<EventId>, s: System)
    requires Balanced(before, s, Uncounted(s))
    ensures var cp := s.d.checkpoint; 0 <= cp.seen && 0 <= cp.created && 0 <= cp.existing
  {
  }

  lemma {:induction false} DriveEnds(cfg: Config, pages: Listing, before: set<EventId>, s: System)
    requires cfg.Valid() && |pages| <= MAX_PAGE + 1 && WellFormedBefore(cfg, pages, |pages|)
    requires Inv(cfg, pages, before, s, 0) && InStep(cfg, pages, s) && Capacity(cfg, s.a) >= 1
    ensures var t := Drive(cfg, pages, s);
            && Inv(cfg, pages, before, t, 0) && t.a.Attempt? && t.a.pc.Done?
            && t.d.completed == (|pages| - s.a.page <= Capacity(cfg, s.a))
            && (!t.d.completed ==> t.d.checkpoint.nextPage == s.a.page + Capacity(cfg, s.a))
    decreases PagesLeft(pages, s.a), Rank(pages, s.a)
  {
    hide Covers, CoversTo, Balanced, Unfinished, Finished, Saves, Writable;
    var t := Next(cfg, pages, s);
    StepGoesOn(cfg, pages, before, s);
    assert WellFormedPage(cfg, pages[s.a.page]);
    if !t.a.pc.Done? {
      DriveEnds(cfg, pages, before, t);
    }
  }

  lemma FullAttemptEnds(cfg: Config, pages: Listing, before: set<EventId>, s: System)
    requires cfg.Valid() && |pages| <= MAX_PAGE + 1 && WellFormedBefore(cfg, pages, |pages|)
    requires Inv(cfg, pages, before, s, 0) && s.a.NoAttempt? && !s.d.completed
    ensures var t := FullAttempt(cfg, pages, s);
            && Inv(cfg, pages, before, t, 0) && t.a.NoAttempt?
            && t.d.completed == (|pages| - s.d.checkpoint.nextPage <= cfg.maxPages)
            && (!t.d.completed ==> t.d.checkpoint.nextPage == s.d.checkpoint.nextPage + cfg.maxPages)
  {
    hide Covers, CoversTo, Unfinished, Drive, Opens;
    FewInFlight(cfg, pages, before, s.d);
    OpenKeeps(cfg, pages, before, s, 0);
    DriveEnds(cfg, pages, before, Open(s));
  }

  /** A checkpoint on a well-formed page can be read back. */
  lemma FewInFlight(cfg: Config, pages: Listing, before: set<EventId>, d: Durable)
    requires WellFormedBefore(cfg, pages, |pages|) && Unfinished(cfg, pages, before, d, 0)
    ensures |d.checkpoint.inFlight| <= MAX_IN_FLIGHT
  {
    hide CoversTo, IdsBefore, DistinctBefore;
    CoverWithin(pages[d.checkpoint.nextPage], d.checkpoint.inFlight, 0);
    assert WellFormedPage(cfg, pages[d.checkpoint.nextPage]);
  }

  /** The listings the reconciler can copy: at most 2001 pages, each well formed. */
  predicate Copyable(cfg: Config, pages: Listing) {
    |pages| <= MAX_PAGE + 1 && WellFormedBefore(cfg, pages, |pages|)
  }

  lemma {:induction false} CopyableNeeds(cfg: Config, pages: Listing, before: set<EventId>, s: System, k: nat)
    requires cfg.Valid() && Copyable(cfg, pages)
    requires Inv(cfg, pages, before, s, 0) && s.a.NoAttempt? && !s.d.completed
    ensures Attempts(cfg, pages, s, k).d.completed <==> Enough(k, cfg.maxPages, |pages| - s.d.checkpoint.nextPage)
    decreases k
  {
    hide *;
    if k == 0 {
      NoAttempts(cfg, pages, before, s);
    } else {
      var t := FullAttempt(cfg, pages, s);
      CopyableParts(cfg, pages);
      FullAttemptEnds(cfg, pages, before, s);
      AttemptsUnfold(cfg, pages, s, k);
      MulSucc(k, cfg.maxPages, |pages| - s.d.checkpoint.nextPage);
      if !t.d.completed {
        CopyableNeeds(cfg, pages, before, t, k - 1);
      }
    }
  }

  lemma NoAttempts(cfg: Config, pages: Listing, before: set<EventId>, s: System)
    requires Inv(cfg, pages, before, s, 0) && !s.d.completed
    ensures Attempts(cfg, pages, s, 0) == s && !Enough(0, cfg.maxPages, |pages| - s.d.checkpoint.nextPage)
  {
  }

  lemma CopyableParts(cfg: Config, pages: Listing)
    requires Copyable(cfg, pages)
    ensures |pages| <= MAX_PAGE + 1 && WellFormedBefore(cfg, pages, |pages|)
  {
  }

  lemma AttemptsUnfold(cfg: Config, pages: Listing, s: System, k: nat)
    requires k > 0 && !s.d.completed
    ensures var t := FullAttempt(cfg, pages, s);
            Attempts(cfg, pages, s, k) == if t.d.completed then t else Attempts(cfg, pages, t, k - 1)
  {
  }

  /** k attempts of m pages can fetch `left` pages. */
  predicate Enough(k: nat, m: nat, left: int) {
    k * m >= left
  }

  /** One attempt of m pages less is needed for m pages less. */
  lemma MulSucc(k: nat, m: nat, left: int)
    requires k > 0
    ensures Enough(k, m, left) <==> Enough(k - 1, m, left - m)
    ensures left <= m ==> Enough(k, m, left)
  {
    assert k * m == (k - 1) * m + m && (k - 1) * m >= 0;
  }

  /** An undisturbed attempt keeps the invariant, whatever the listing is like. */
  lemma {:induction false} DriveKeeps(cfg: Config, pages: Listing, before: set<EventId>, s: System, recounted: nat)
      returns (after: nat)
    requires cfg.Valid() && Inv(cfg, pages, before, s, recounted) && InListing(pages, s.a)
    requires recounted > 0 ==> |pages| > MAX_PAGE + 1
    ensures Inv(cfg, pages, before, Drive(cfg, pages, s), after) && Drive(cfg, pages, s).a.Attempt?
    ensures Drive(cfg, pages, s).a.pc.Done? && (after > 0 ==> |pages| > MAX_PAGE + 1)
    decreases PagesLeft(pages, s.a), Rank(pages, s.a)
  {
    hide Inv, Saves, Writable, LastPageSize;
    if s.a.pc.Done? {
      after := recounted;
    } else {
      NextKeeps(cfg, pages, before, s, recounted);
      NextStaysInListing(cfg, pages, s);
      after := DriveKeeps(cfg, pages, before, Next(cfg, pages, s), recounted + Recount(pages, s));
    }
  }

  lemma {:induction false} AttemptsKeep(
      cfg: Config, pages: Listing, before: set<EventId>, s: System, recounted: nat, k: nat)
      returns (after: nat)
    requires cfg.Valid() && Inv(cfg, pages, before, s, recounted) && s.a.NoAttempt?
    requires recounted > 0 ==> |pages| > MAX_PAGE + 1
    ensures Inv(cfg, pages, before, Attempts(cfg, pages, s, k), after)
    decreases k
  {
    hide Inv, Open, Drive;
    if k == 0 || s.d.completed {
      after := recounted;
    } else {
      OpenKeeps(cfg, pages, before, s, recounted);
      var driven := Drive(cfg, pages, Open(s));
      var r := DriveKeeps(cfg, pages, before, Open(s), recounted);
      CrashKeeps(cfg, pages, before, driven, r);
      after := AttemptsKeep(cfg, pages, before, driven.(a := NoAttempt), r, k - 1);
    }
  }

  /** From any state a run can be left in, k fault-free attempts complete the listing
      exactly when it can be copied at all and they can fetch all the pages that are left. */
  lemma AttemptsNeeded(cfg: Config, pages: Listing, before: set<EventId>, s: System, recounted: nat, k: nat)
    requires cfg.Valid() && (recounted > 0 ==> |pages| > MAX_PAGE + 1)
    requires Inv(cfg, pages, before, s, recounted) && s.a.NoAttempt? && !s.d.completed
    ensures Attempts(cfg, pages, s, k).d.completed
            <==> Copyable(cfg, pages) && k * cfg.maxPages >= |pages| - s.d.checkpoint.nextPage
  {
    if Copyable(cfg, pages) {
      hide Inv;
      CopyableNeeds(cfg, pages, before, s, k);
    } else {
      hide Attempts;
      var after := AttemptsKeep(cfg, pages, before, s, recounted, k);
    }
  }

  /** A fresh run over P pages completes in exactly ceil(P / MaxPages) attempts, and only if
      there are at most 2001 pages, each readable and with at most 157 distinct items. */
  lemma FreshAttempts(cfg: Config, pages: Listing, before: set<EventId>, k: nat)
    requires cfg.Valid()
    ensures Attempts(cfg, pages, Fresh(before), k).d.completed
            <==> Copyable(cfg, pages) && k >= (|pages| + cfg.maxPages - 1) / cfg.maxPages
  {
    hide Inv, Attempts, Copyable;
    FreshHolds(cfg, pages, before);
    AttemptsNeeded(cfg, pages, before, Fresh(before), 0, k);
    CeilingDivision(|pages|, cfg.maxPages, k);
  }

  lemma CeilingDivision(p: nat, m: nat, k: nat)
    requires m >= 1
    ensures k * m >= p <==> k >= (p + m - 1) / m
  {
    var q, r := (p + m - 1) / m, (p + m - 1) % m;
    assert p + m - 1 == q * m + r;
    if k >= q {
      assert k * m >= q * m;
    } else {
      assert k * m <= (q - 1) * m == q * m - m;
    }
  }
}
