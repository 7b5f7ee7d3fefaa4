/** Concrete runs of the reconciler in which the counters say more or less than a reader
    might expect. */
module ReconcilerExamples {
  import opened Wrappers
  import opened Reconciler
  import opened ReconcilerRuns

  const DIGEST: HexDigest := seq(64, _ => '0')
  const ID: EventId := EVENT_PREFIX + DIGEST

  lemma {:induction false} RunAppend(cfg: Config, pages: Listing, s: System, a: seq<Event>, b: seq<Event>)
    ensures Run(cfg, pages, s, a + b) == Run(cfg, pages, Run(cfg, pages, s, a), b)
  {
    hide Happen;
    if b == [] {
      assert a + b == a;
    } else {
      RunAppend(cfg, pages, s, a, b[..|b| - 1]);
      assert (a + b)[..|a + b| - 1] == a + b[..|b| - 1];
    }
  }

  /** An attempt of n steps, from a state between attempts. */
  lemma AttemptReaches(cfg: Config, pages: Listing, s: System, events: seq<Event>, n: nat)
    requires Run(cfg, pages, s, events).a.NoAttempt? && InListing(pages, Open(Run(cfg, pages, s, events)).a)
    ensures Run(cfg, pages, s, events + ([OpenRun] + Works(n)))
            == Steps(cfg, pages, Open(Run(cfg, pages, s, events)), n)
  {
    hide Run, Open, Steps;
    RunAppend(cfg, pages, s, events, [OpenRun] + Works(n));
    AttemptIsRun(cfg, pages, Run(cfg, pages, s, events), n);
  }

  lemma CrashAfter(cfg: Config, pages: Listing, s: System, events: seq<Event>)
    ensures Run(cfg, pages, s, events + [Crash]) == Happen(cfg, pages, Run(cfg, pages, s, events), Crash)
  {
    hide Run, Happen;
    RunSnoc(cfg, pages, s, events, Crash);
  }

  /** A checkpoint that lists nothing or just that ID is saved. */
  lemma SmallSaves(cp: Checkpoint)
    requires 0 <= cp.nextPage <= MAX_PAGE && 0 <= cp.seen && 0 <= cp.created && 0 <= cp.existing
    requires cp.inFlight == [] || cp.inFlight == [ID]
    requires cp.inFlightPage == if cp.inFlight == [] then None else Some(cp.nextPage)
    ensures Saves(cp) && Writable(cp)
  {
    EventIdValid(DIGEST);
    CheckpointSize(cp);
  }

  // ---- One page, one item, one crash -----------------------------------------------------

  const SMALL := Config(1, 1)
  const ONE_ITEM: Listing := [[Snapshot(DIGEST)]]
  const RECORDED := Checkpoint(0, Some(0), [ID], 1, 0, 1)

  /** Open and work up to the ingest, crash, then open again and work to the end. */
  const TORN: seq<Event> := ([OpenRun] + Works(2)) + [Crash] + ([OpenRun] + Works(5))

  lemma ZeroOpens()
    ensures Opens(ZERO_CHECKPOINT)
  {
    CheckpointSize(ZERO_CHECKPOINT);
  }

  lemma FirstHalf()
    ensures Steps(SMALL, ONE_ITEM, Open(Fresh({})), 2)
            == System(Durable({ID}, ZERO_CHECKPOINT, false),
                      Attempt(0, 1, {}, ZERO_CHECKPOINT, Ingested(0, ID, true)), 0)
  {
    hide Steps, Opens;
    ZeroOpens();
    var s := Open(Fresh({}));
    StepsZero(SMALL, ONE_ITEM, s);
    StepOnce(SMALL, ONE_ITEM, s, 0);
    StepOnce(SMALL, ONE_ITEM, s, 1);
  }

  lemma SecondHalf()
    ensures Steps(SMALL, ONE_ITEM, Open(System(Durable({ID}, ZERO_CHECKPOINT, false), NoAttempt, 1)), 5).d
            == Durable({ID}, RecordPage(RECORDED, 0), true)
  {
    hide Steps, Saves, Opens, Writable;
    SmallSaves(ZERO_CHECKPOINT);
    SmallSaves(RECORDED);
    SmallSaves(RecordPage(RECORDED, 0));
    ZeroOpens();
    assert RecordItem(ZERO_CHECKPOINT, 0, ID, false) == RECORDED;
    var s := Open(System(Durable({ID}, ZERO_CHECKPOINT, false), NoAttempt, 1));
    StepsZero(SMALL, ONE_ITEM, s);
    StepOnce(SMALL, ONE_ITEM, s, 0);
    StepOnce(SMALL, ONE_ITEM, s, 1);
    StepOnce(SMALL, ONE_ITEM, s, 2);
    assert Steps(SMALL, ONE_ITEM, s, 3).d == Durable({ID}, RECORDED, false);
    StepOnce(SMALL, ONE_ITEM, s, 3);
    StepOnce(SMALL, ONE_ITEM, s, 4);
  }

  /** A crash between the ingest and its checkpoint: the run completes with one new inbox
      entry and no created event. */
  lemma TornCrashUndercounts()
    ensures var s := Run(SMALL, ONE_ITEM, Fresh({}), TORN);
            s.d.completed && s.d.inbox == {ID} && s.d.checkpoint.created == 0 && s.d.checkpoint.existing == 1
  {
    hide Run, Steps;
    StepsZero(SMALL, ONE_ITEM, Open(Fresh({})));
    RunSnoc(SMALL, ONE_ITEM, Fresh({}), [], Crash);
    assert [] + ([OpenRun] + Works(2)) == [OpenRun] + Works(2);
    AttemptReaches(SMALL, ONE_ITEM, Fresh({}), [], 2);
    FirstHalf();
    CrashAfter(SMALL, ONE_ITEM, Fresh({}), [OpenRun] + Works(2));
    AttemptReaches(SMALL, ONE_ITEM, Fresh({}), ([OpenRun] + Works(2)) + [Crash], 5);
    SecondHalf();
  }

  // ---- A listing that goes on after page 2000 ----------------------------------------------

  const LARGE := Config(1, MAX_PAGE + 1)

  /** 2002 pages, all empty but page 2000. */
  const LONG: Listing := seq(MAX_PAGE + 2, i => if i == MAX_PAGE then [Snapshot(DIGEST)] else [])

  /** What is durable when page p is about to be fetched for the first time. */
  function At(p: nat): Durable {
    Durable({}, Checkpoint(p, None, [], 0, 0, 0), false)
  }

  lemma {:induction false} EmptyPagesPass(p: nat)
    requires p <= MAX_PAGE
    ensures InListing(LONG, Open(Fresh({})).a)
    ensures Steps(LARGE, LONG, Open(Fresh({})), 3 * p)
            == System(At(p), Attempt(p, p, {}, At(p).checkpoint, Fetch), 0)
  {
    hide Steps, Opens, Saves, Writable;
    ZeroOpens();
    var s := Open(Fresh({}));
    StepsZero(LARGE, LONG, s);
    if p > 0 {
      EmptyPagesPass(p - 1);
      SmallSaves(At(p).checkpoint);
      StepOnce(LARGE, LONG, s, 3 * p - 3);
      StepOnce(LARGE, LONG, s, 3 * p - 2);
      StepOnce(LARGE, LONG, s, 3 * p - 1);
    }
  }

  /** Page 2000, fetched from durable state `d`, counts its item and stays the next page. */
  lemma LastPage(s: System, n: nat, created: nat)
    requires InListing(LONG, s.a)
    requires var known := if created == 1 then {ID} else {};
             var d := Durable(known, Checkpoint(MAX_PAGE, None, [], created, created, 0), false);
             var t := Steps(LARGE, LONG, s, n);
             t.d == d && t.a.Attempt? && t.a == Attempt(MAX_PAGE, t.a.fetched, {}, d.checkpoint, Fetch)
             && t.a.fetched <= MAX_PAGE && created <= 1
    ensures var t := Steps(LARGE, LONG, s, n + 5);
            t.d == Durable({ID}, Checkpoint(MAX_PAGE, None, [], created + 1, 1, created), false)
  {
    hide Steps, Saves, Writable;
    var cp := RecordItem(Checkpoint(MAX_PAGE, None, [], created, created, 0), MAX_PAGE, ID, created == 0);
    SmallSaves(cp);
    SmallSaves(RecordPage(cp, MAX_PAGE));
    StepOnce(LARGE, LONG, s, n);
    StepOnce(LARGE, LONG, s, n + 1);
    StepOnce(LARGE, LONG, s, n + 2);
    StepOnce(LARGE, LONG, s, n + 3);
    StepOnce(LARGE, LONG, s, n + 4);
  }

  /** One attempt to page 2000, a crash after it, and one more attempt. */
  const TWICE: seq<Event> := ([OpenRun] + Works(3 * MAX_PAGE + 5)) + [Crash] + ([OpenRun] + Works(5))

  /** Every attempt that reads page 2000 of a listing that goes on counts it again: the only
      listed item is counted twice, and the run has not completed. */
  lemma LastPageCountedTwice()
    ensures var s := Run(LARGE, LONG, Fresh({}), TWICE);
            && !s.d.completed && s.d.inbox == {ID} && s.d.checkpoint.seen == 2
            && CheckpointValid(s.d.checkpoint) && ResumePage(s.d.checkpoint) == MAX_PAGE
  {
    hide Run, Steps, Open, Opens;
    var first := [OpenRun] + Works(3 * MAX_PAGE + 5);
    EmptyPagesPass(MAX_PAGE);
    LastPage(Open(Fresh({})), 3 * MAX_PAGE, 0);
    RunSnoc(LARGE, LONG, Fresh({}), [], Crash);
    assert [] + first == first;
    AttemptReaches(LARGE, LONG, Fresh({}), [], 3 * MAX_PAGE + 5);
    CrashAfter(LARGE, LONG, Fresh({}), first);
    var again := Run(LARGE, LONG, Fresh({}), first + [Crash]);
    Reopened(again);
    AttemptReaches(LARGE, LONG, Fresh({}), first + [Crash], 5);
    LastPage(Open(again), 0, 1);
  }

  lemma Reopened(s: System)
    requires s.a == NoAttempt && s.d == Durable({ID}, Checkpoint(MAX_PAGE, None, [], 1, 1, 0), false)
    ensures InListing(LONG, Open(s).a)
    ensures Steps(LARGE, LONG, Open(s), 0) == System(s.d, Attempt(MAX_PAGE, 0, {}, s.d.checkpoint, Fetch), s.lost)
  {
    CheckpointSize(s.d.checkpoint);
    assert Elems([]) == {};
  }

  // ---- A page with more items than a checkpoint can list -----------------------------------

  /** The i-th digest: all zeros but one. */
  function DigestOf(i: nat): HexDigest {
    seq(64, k => if k == i % 64 then (if i < 64 then '1' else if i < 128 then '2' else '3') else '0')
  }

  lemma DigestsDiffer(i: nat, j: nat)
    requires i < j < 192
    ensures DigestOf(i) != DigestOf(j)
  {
    assert DigestOf(i)[i % 64] != DigestOf(j)[i % 64];
  }

  function Crowd(n: nat): seq<Item> {
    seq(n, i requires 0 <= i < n => Snapshot(DigestOf(i)))
  }

  lemma {:induction false} DistinctWhole(ids: seq<EventId>)
    requires forall i, j :: 0 <= i < j < |ids| ==> ids[i] != ids[j]
    ensures Distinct(ids) == ids
  {
    if ids != [] {
      DistinctWhole(ids[..|ids| - 1]);
    }
  }

  lemma CrowdIsDistinct(n: nat)
    requires n <= 192
    ensures Distinct(EventIds(Crowd(n))) == EventIds(Crowd(n))
  {
    var ids := EventIds(Crowd(n));
    forall i, j | 0 <= i < j < n
      ensures ids[i] != ids[j]
    {
      DigestsDiffer(i, j);
      assert ids[i][|EVENT_PREFIX|..] == DigestOf(i) && ids[j][|EVENT_PREFIX|..] == DigestOf(j);
    }
    DistinctWhole(ids);
  }

  const WIDE := Config(200, 1)

  /** One page of n different items, well within the page size: one attempt completes it if
      there are at most 157, and no number of attempts does if there are more. */
  lemma CrowdedPage(n: nat, k: nat)
    requires n <= 192 && k >= 1
    ensures Attempts(WIDE, [Crowd(n)], Fresh({}), k).d.completed <==> n <= 157
  {
    hide Attempts, Distinct;
    CrowdIsDistinct(n);
    FreshAttempts(WIDE, [Crowd(n)], {}, k);
    assert [Crowd(n)][0] == Crowd(n);
    if n <= 157 {
      assert WellFormedPage(WIDE, Crowd(n));
    } else {
      assert !WellFormedPage(WIDE, [Crowd(n)][0]);
    }
  }

  lemma {:induction false} QuotedCrowd(n: nat)
    requires n <= 192
    ensures QuotedBytes(EventIds(Crowd(n))) == 102 * n
  {
    if n > 0 {
      QuotedCrowd(n - 1);
      assert EventIds(Crowd(n))[..n - 1] == EventIds(Crowd(n - 1));
      assert |EventIds(Crowd(n))[n - 1]| == 99;
    }
  }

  /** The exact sizes: an empty checkpoint, and those that list 157 and 158 new items of page
      0, as they are written and as they come back. */
  lemma SizesInBytes()
    ensures EncodedBytes(ZERO_CHECKPOINT) == 120 && StoredBytes(ZERO_CHECKPOINT) == 131
    ensures var cp := Checkpoint(0, Some(0), EventIds(Crowd(157)), 157, 157, 0);
            EncodedBytes(cp) == 16132 && StoredBytes(cp) == 16299
    ensures var cp := Checkpoint(0, Some(0), EventIds(Crowd(158)), 158, 158, 0);
            EncodedBytes(cp) == 16234 && StoredBytes(cp) == 16402
  {
    hide QuotedBytes;
    QuotedCrowd(157);
    QuotedCrowd(158);
    assert |FIELD_NAMES| == 108;
    assert Width(0) == 1 && Width(157) == 3 && Width(158) == 3;
  }

  /** On 158 items a run comes to where the checkpoint has been written, cannot be read back,
      and never changes again. */
  lemma CrowdedPageSticks() returns (events: seq<Event>)
    ensures var s := Run(WIDE, [Crowd(158)], Fresh({}), events);
            var cp := s.d.checkpoint;
            && !s.d.completed && Writable(cp) && StoredBytes(cp) > MAX_CHECKPOINT_BYTES && |cp.inFlight| == 158
            && forall more :: Run(WIDE, [Crowd(158)], System(s.d, NoAttempt, s.lost), more).d == s.d
  {
    hide Run, Attempts, Distinct, Unfinished, Recounted, Opens;
    var pages: Listing := [Crowd(158)];
    CrowdIsDistinct(158);
    assert EventIds(pages[0])[..158] == EventIds(pages[0]);
    assert Overfull(WIDE, pages, 0, 158);
    RunSnoc(WIDE, pages, Fresh({}), [], Crash);
    events := StopsAt(WIDE, pages, {}, [], 0, 158);
    var s := Run(WIDE, pages, Fresh({}), events);
    var recounted := Recounted(WIDE, pages, Fresh({}), events);
    RunKeeps(WIDE, pages, {}, events);
    UnfinishedIsWritable(WIDE, pages, {}, s.d, recounted);
    AtMost158(WIDE, pages, {}, s.d, recounted);
    OpensReads(s.d.checkpoint);
    forall more
      ensures Run(WIDE, pages, System(s.d, NoAttempt, s.lost), more).d == s.d
    {
      StuckForGood(WIDE, pages, System(s.d, NoAttempt, s.lost), more);
    }
  }

  lemma AtMost158(cfg: Config, pages: Listing, before: set<EventId>, d: Durable, recounted: nat)
    requires Unfinished(cfg, pages, before, d, recounted)
    ensures |d.checkpoint.inFlight| <= 158
  {
  }

  lemma OpensReads(cp: Checkpoint)
    ensures Writable(cp) ==> (Opens(cp) <==> StoredBytes(cp) <= MAX_CHECKPOINT_BYTES)
  {
  }
}
