/** The scan side of the API as it is written: starting a scan, and the loop that enqueues it. Whatever its
    calls meet with, the loop is a run of the transition system, of acts of that scan alone. */
module ScanApi {
  import opened Common
  import opened Classifier
  import opened Pipeline
  import opened Invariants
  import opened Traces
  import opened Completion
  import opened Storage
  import opened Broker
  import Paging

  // ----- the loop, on states ------------------------------------------------------------

  /** The pipeline with the run `r` at a point of its loop (None once it has ended). */
  function At(s: State, r: RunId, run: Run, l: Option<Loop>, published: seq<RawEvent>, raw: multiset<RawTask>): State {
    s.(scans := Scans(s.scans.runs[r := run], s.scans.nextRun,
                      if l.Some? then s.scans.loops[r := l.value] else s.scans.loops - {r},
                      s.scans.asked, s.scans.published[r := published]),
       raw := raw)
  }

  lemma AtFits(q: Scans, contents: map<string, Message>, r: RunId, run: Run, l: Loop,
               published: seq<RawEvent>, a: ApiAct)
    requires LoopAllows(l, contents, a)
    ensures ApiEnabled(Scans(q.runs[r := run], q.nextRun, q.loops[r := l], q.asked, q.published[r := published]),
                       contents, r, a)
  {
  }

  lemma ScansAt(q: Scans, contents: map<string, Message>, r: RunId, run: Run, l: Loop,
                published: seq<RawEvent>, a: ApiAct)
    requires LoopAllows(l, contents, a)
    ensures var now := Scans(q.runs[r := run], q.nextRun, q.loops[r := l], q.asked, q.published[r := published]);
      var after := LoopAfter(l, contents, a);
      && ApiEnabled(now, contents, r, a)
      && ScansAfter(now, contents, r, a) ==
           Scans(q.runs[r := RunAfter(run, l, a)], q.nextRun,
                 if after.Some? then q.loops[r := after.value] else q.loops - {r},
                 q.asked, q.published[r := published + Emitted(r, l, a)])
  {
    AtFits(q, contents, r, run, l, published, a);
    assert q.loops[r := l] - {r} == q.loops - {r};
  }

  /** One act of the loop. */
  lemma LoopStep(w: World, s: State, steps: seq<Step>, r: RunId, run: Run, l: Loop, published: seq<RawEvent>,
                 raw: multiset<RawTask>, a: ApiAct)
    requires Runs(w, s, steps, At(s, r, run, Some(l), published, raw)) && LoopAllows(l, s.gmail.contents, a)
    ensures Runs(w, s, steps + [Api(r, a)],
      At(s, r, RunAfter(run, l, a), LoopAfter(l, s.gmail.contents, a), published + Emitted(r, l, a),
         raw + Queue(Emitted(r, l, a))))
  {
    var t := At(s, r, run, Some(l), published, raw);
    ScansAt(s.scans, s.gmail.contents, r, run, l, published, a);
    RunsNext(w, s, steps, t, Api(r, a));
  }

  /** All steps are acts of one scan's loop. */
  ghost predicate OfScan(steps: seq<Step>, r: RunId) {
    forall step :: step in steps ==> step.Api? && step.run == r
  }

  /** A scan as it goes on: the steps taken from `s`, the loop (None once it has ended), what was published. */
  datatype Trail = Trail(w: World, s: State, r: RunId, steps: seq<Step>, l: Option<Loop>, published: seq<RawEvent>) {
    /** The trail with one act more. */
    ghost function Add(a: ApiAct): Trail
      requires l.Some? && LoopAllows(l.value, s.gmail.contents, a)
    {
      Trail(w, s, r, steps + [Api(r, a)], LoopAfter(l.value, s.gmail.contents, a), published + Emitted(r, l.value, a))
    }
  }

  /** The steps of the trail have led to where the runs table and the queue stand. */
  ghost predicate Follows(t: Trail, runs: map<RunId, Run>, raw: multiset<RawTask>) {
    && t.r in runs && runs == t.s.scans.runs[t.r := runs[t.r]]
    && Runs(t.w, t.s, t.steps, At(t.s, t.r, runs[t.r], t.l, t.published, raw))
    && OfScan(t.steps, t.r)
  }

  lemma FollowsOn(t: Trail, runs: map<RunId, Run>, raw: multiset<RawTask>, a: ApiAct)
    requires Follows(t, runs, raw) && t.l.Some? && LoopAllows(t.l.value, t.s.gmail.contents, a)
    ensures Follows(t.Add(a), runs[t.r := RunAfter(runs[t.r], t.l.value, a)], raw + Queue(Emitted(t.r, t.l.value, a)))
  {
    LoopStep(t.w, t.s, t.steps, t.r, runs[t.r], t.l.value, t.published, raw, a);
  }

  /** A publish puts its event on the queue. */
  lemma PublishOn(t: Trail, runs: map<RunId, Run>, raw: multiset<RawTask>, ok: bool)
    requires Follows(t, runs, raw) && t.l.Some? && LoopAllows(t.l.value, t.s.gmail.contents, Publish(ok))
    ensures var e := EventFor(t.r, t.l.value.req, t.l.value.phase.pending[0]);
      Follows(t.Add(Publish(ok)), runs, if ok then raw + multiset{RawTask(e, Ready, true)} else raw)
  {
    FollowsOn(t, runs, raw, Publish(ok));
    QueueOfOne(Emitted(t.r, t.l.value, Publish(ok)));
    assert runs[t.r := runs[t.r]] == runs;
    assert raw + multiset{} == raw;
  }

  /** An act that publishes nothing. */
  lemma QuietOn(t: Trail, runs: map<RunId, Run>, raw: multiset<RawTask>, a: ApiAct)
    requires Follows(t, runs, raw) && t.l.Some? && LoopAllows(t.l.value, t.s.gmail.contents, a) && !a.Publish?
    ensures Follows(t.Add(a), runs[t.r := RunAfter(runs[t.r], t.l.value, a)], raw)
    ensures t.Add(a).published == t.published
  {
    FollowsOn(t, runs, raw, a);
    assert t.published + [] == t.published;
    assert raw + multiset{} == raw;
  }

  /** An act that leaves the run's row alone, too. */
  lemma SilentOn(t: Trail, runs: map<RunId, Run>, raw: multiset<RawTask>, a: ApiAct)
    requires Follows(t, runs, raw) && t.l.Some? && LoopAllows(t.l.value, t.s.gmail.contents, a)
    requires a.Fetch? || a.FetchFails?
    ensures Follows(t.Add(a), runs, raw)
    ensures t.Add(a).published == t.published
  {
    QuietOn(t, runs, raw, a);
    assert runs[t.r := runs[t.r]] == runs;
  }

  lemma FollowsAtStart(w: World, s: State, r: RunId, req: Request)
    requires r in s.scans.runs && r in s.scans.loops && s.scans.loops[r] == Loop(req, Between, 0, 0, 0)
    requires r in s.scans.published && s.scans.published[r] == []
    ensures Follows(Trail(w, s, r, [], Some(Loop(req, Between, 0, 0, 0)), []), s.scans.runs, s.raw)
  {
    RunsNone(w, s);
    assert s.scans.runs[r := s.scans.runs[r]] == s.scans.runs;
    assert s.scans.loops[r := s.scans.loops[r]] == s.scans.loops;
    assert s.scans.published[r := []] == s.scans.published;
  }

  /** How a run's row stands once its loop has ended and the last write went through. */
  ghost predicate ClosedAs(run: Run, published: seq<RawEvent>, failedEarly: bool) {
    && run.found == run.processed + run.failed && run.processed == |published|
    && run.status == if failedEarly then Failed else if run.failed > 0 then QueuedWithErrors else Queued
  }

  // ----- the code -----------------------------------------------------------------------------

  /** What the calls of one enqueueing meet with: reading a page after the last one given (or making the reader
      for the query, when none is given), each publish by page and position, each progress update, and the
      final update. */
  datatype ScanWeather = ScanWeather(readFails: bool, queued: (nat, nat) -> bool, progress: nat -> Write, finish: Write)

  /** The events of the first `n` messages of a batch whose publish is queued, in order. */
  function QueuedOf(r: RunId, req: Request, batch: seq<Message>, queued: nat -> bool, n: nat): seq<RawEvent>
    requires n <= |batch|
  {
    if n == 0 then []
    else QueuedOf(r, req, batch, queued, n - 1) + if queued(n - 1) then [EventFor(r, req, batch[n - 1])] else []
  }

  function OfPage(weather: ScanWeather, page: nat): nat -> bool { (i: nat) => weather.queued(page, i) }

  function QueuedOfBatch(r: RunId, req: Request, batch: seq<Message>, weather: ScanWeather, page: nat): seq<RawEvent> {
    QueuedOf(r, req, batch, OfPage(weather, page), |batch|)
  }

  /** How many of the pages are read, from page `at` on: up to the first whose progress write is not heard. */
  function PagesRead(progress: nat -> Write, at: nat, n: nat): (m: nat)
    requires at <= n
    ensures at <= m <= n
    decreases n - at
  {
    if at == n then n else if progress(at) != Done then at + 1 else PagesRead(progress, at + 1, n)
  }

  /** Pages are not empty, and hold messages of the mailbox. */
  ghost predicate Readable(contents: map<string, Message>, pages: seq<seq<string>>) {
    forall i :: 0 <= i < |pages| ==> pages[i] != [] && forall id :: id in pages[i] ==> id in contents
  }

  /** What the first `n` pages publish, in order. */
  ghost function QueuedOfPages(r: RunId, req: Request, contents: map<string, Message>, pages: seq<seq<string>>,
                               weather: ScanWeather, n: nat): seq<RawEvent>
    requires Readable(contents, pages) && n <= |pages|
  {
    if n == 0 then []
    else
      QueuedOfPages(r, req, contents, pages, weather, n - 1)
        + QueuedOfBatch(r, req, Lookup(contents, pages[n - 1]), weather, n - 1)
  }

  /** How many messages the first `n` pages hold. */
  function SizeOfPages(pages: seq<seq<string>>, n: nat): nat
    requires n <= |pages|
  {
    if n == 0 then 0 else SizeOfPages(pages, n - 1) + |pages[n - 1]|
  }

  /** Where the page loop stands after `page` pages, the last of them failing when not `ok`. */
  ghost predicate Visited(pages: seq<seq<string>>, progress: nat -> Write, page: nat, ok: bool) {
    && page <= |pages|
    && (ok ==> PagesRead(progress, page, |pages|) == PagesRead(progress, 0, |pages|))
    && (ok ==> forall i :: 0 <= i < page ==> progress(i) == Done)
    && (!ok ==> page > 0 && progress(page - 1) != Done && page == PagesRead(progress, 0, |pages|))
  }

  lemma VisitedOne(pages: seq<seq<string>>, progress: nat -> Write, page: nat)
    requires Visited(pages, progress, page, true) && page < |pages|
    ensures Visited(pages, progress, page + 1, progress(page) == Done)
  {
  }

  lemma VisitedAll(pages: seq<seq<string>>, progress: nat -> Write, page: nat, ok: bool)
    requires Visited(pages, progress, page, ok) && (page == |pages| || !ok)
    ensures page == PagesRead(progress, 0, |pages|)
    ensures ok <==> forall i :: 0 <= i < |pages| ==> progress(i) == Done
  {
  }

  /** What the first `n` pages have come to. */
  ghost predicate Counted(r: RunId, req: Request, contents: map<string, Message>, pages: seq<seq<string>>,
                          weather: ScanWeather, n: nat, l: Loop, published: seq<RawEvent>)
    requires Readable(contents, pages) && n <= |pages|
  {
    && l.req == req && l.found == SizeOfPages(pages, n)
    && l.found == l.processed + l.failed && l.processed == |published|
    && published == QueuedOfPages(r, req, contents, pages, weather, n)
  }

  /** One page more. */
  lemma CountedOne(r: RunId, req: Request, contents: map<string, Message>, pages: seq<seq<string>>,
                   weather: ScanWeather, n: nat, l: Loop, published: seq<RawEvent>, m: Loop, more: seq<RawEvent>)
    requires Readable(contents, pages) && n < |pages| && Counted(r, req, contents, pages, weather, n, l, published)
    requires m.req == req && m.found == l.found + |pages[n]|
    requires var queued := QueuedOfBatch(r, req, Lookup(contents, pages[n]), weather, n);
      m.processed == l.processed + |queued| && more == published + queued
    requires m.processed + m.failed == l.processed + l.failed + |pages[n]|
    ensures Counted(r, req, contents, pages, weather, n + 1, m, more)
  {
  }

  /** Who asks for a scan. */
  datatype Viewer = Viewer(user: string, admin: bool)

  datatype Answer =
    | NotFound | Forbidden | StoreError
    | Shown(run: Run, status: ProcessingStatus, counts: map<RowStatus, nat>)

  /** A new scan that crashes at once leaves its run and nothing else. */
  lemma CrashAtOnce(s: State, req: Request)
    requires ScansOk(s.scans)
    ensures var q := NewScan(s.scans, req);
      && ApiEnabled(q, s.gmail.contents, s.scans.nextRun, Crash)
      && Emitted(s.scans.nextRun, q.loops[s.scans.nextRun], Crash) == []
      && var after := ScansAfter(q, s.gmail.contents, s.scans.nextRun, Crash);
         after.loops == s.scans.loops && after.runs == q.runs && after.nextRun == q.nextRun
  {
    var q := NewScan(s.scans, req);
    assert s.scans.nextRun !in s.scans.loops;
    assert q.loops - {s.scans.nextRun} == s.scans.loops;
    assert q.runs[s.scans.nextRun := q.runs[s.scans.nextRun]] == q.runs;
  }

  // ----- the pages, as the reader hands them out --------------------------------------------

  /** A visit that counts pages and fails when a progress write is not heard. */
  function Counting(progress: nat -> Write): (nat, seq<Message>) -> (nat, bool) {
    (n: nat, batch: seq<Message>) => (n + 1, progress(n) == Done)
  }

  lemma {:induction false} CountedFrom(batches: seq<seq<Message>>, progress: nat -> Write, at: nat)
    requires at <= |batches|
    ensures Paging.Feed(Counting(progress), at, batches[at..]) ==
      (PagesRead(progress, at, |batches|), forall i :: at <= i < |batches| ==> progress(i) == Done)
    decreases |batches| - at
  {
    if at < |batches| {
      assert batches[at..][1..] == batches[at + 1..];
      CountedFrom(batches, progress, at + 1);
    }
  }

  /** The loop reads as many of a source's pages as the reader's iteration feeds to a visit that fails with its
      progress write, and fails when that is refused or the read fails. */
  lemma PagesAsIterated(source: Paging.Source, ts: seq<string>, progress: nat -> Write)
    ensures var batches := Paging.Offered(source, ts);
      Paging.Feed(Counting(progress), 0, batches) ==
      (PagesRead(progress, 0, |batches|), forall i :: 0 <= i < |batches| ==> progress(i) == Done)
  {
    var batches := Paging.Offered(source, ts);
    CountedFrom(batches, progress, 0);
    assert batches[0..] == batches;
  }

  class Scanner {
    const store: Store
    const broker: Queues

    constructor (store: Store, broker: Queues)
      ensures this.store == store && this.broker == broker
    {
      this.store, this.broker := store, broker;
    }

    /** A new run and its loop, which is what the scan step of the transition system creates; when the insert is
        not heard of, a run without a loop, as after a crash, or nothing. */
    method StartScan(req: Request, outcome: Write, ghost w: World, ghost s: State)
      returns (id: Option<RunId>, ghost steps: seq<Step>, ghost t: State)
      requires s.scans.runs == store.runs && s.scans.nextRun == store.nextRun && ScansOk(s.scans)
      modifies store`runs, store`nextRun
      ensures id == if outcome == Done then Some(old(store.nextRun)) else None
      ensures Runs(w, s, steps, t) && t.scans.runs == store.runs && t.scans.nextRun == store.nextRun
      ensures t == s.(scans := t.scans)
      ensures t.scans.loops ==
        if id.Some? then s.scans.loops[id.value := Loop(req, Between, 0, 0, 0)] else s.scans.loops
    {
      id := store.CreateScanRun(req.user, req.mode, outcome);
      RunsNone(w, s);
      steps, t := [], s;
      if outcome != NotDone {
        RunsNext(w, s, steps, t, Step.StartScan(req));
        steps, t := steps + [Step.StartScan(req)], s.(scans := NewScan(s.scans, req));
      }
      if outcome == Unheard {
        CrashAtOnce(s, req);
        RunsNext(w, s, steps, t, Api(s.scans.nextRun, Crash));
        steps, t := steps + [Api(s.scans.nextRun, Crash)], NextApi(t, s.scans.nextRun, Crash);
      }
    }

    /** The run and its processing status, computed from the counts as they are stored; for its owner and for
        administrators only. */
    method GetScan(id: RunId, viewer: Viewer, runRead: bool, countsRead: bool) returns (r: Answer)
      ensures r == NotFound <==> runRead && id !in store.runs
      ensures r == Forbidden <==> runRead && id in store.runs && !viewer.admin && store.runs[id].user != viewer.user
      ensures r.Shown? <==>
        runRead && id in store.runs && (viewer.admin || store.runs[id].user == viewer.user) && countsRead
      ensures r.Shown? ==> r.run == store.runs[id] && r.counts == StatusCounts(store.rows, id)
      ensures r.Shown? ==> forall x ::
        CountOf(r.counts, x) == |set k | k in store.rows && store.rows[k].run == id && store.rows[k].status == x|
      ensures r.Shown? ==> r.status == StatusOf(store.runs[id], StatusCounts(store.rows, id))
    {
      if !runRead { return StoreError; }
      if id !in store.runs { return NotFound; }
      var run := store.runs[id];
      if !viewer.admin && run.user != viewer.user { return Forbidden; }
      if !countsRead { return StoreError; }
      var counts := store.CountEmailMessagesByScanRun(id);
      return Shown(run, StatusOf(run, counts), counts);
    }

    /** The next message of the batch is published, and counted. */
    method PublishMessage(ghost t: Trail, r: RunId, l: Loop, queued: bool) returns (m: Loop, ghost u: Trail)
      requires Follows(t, store.runs, broker.raw) && t.l == Some(l) && t.r == r
      requires l.phase.Batch? && l.phase.pending != []
      modifies broker`raw
      ensures m == l.(phase := Batch(l.phase.pending[1..]), processed := m.processed, failed := m.failed)
      ensures m.processed == l.processed + (if queued then 1 else 0) && m.failed == l.failed + if queued then 0 else 1
      ensures Follows(u, store.runs, broker.raw) && u == t.(steps := u.steps, l := Some(m), published := u.published)
      ensures u.published == t.published + if queued then [EventFor(r, l.req, l.phase.pending[0])] else []
    {
      ghost var raw := broker.raw;
      var ok := broker.PublishRawEmail(EventFor(r, l.req, l.phase.pending[0]), queued);
      PublishOn(t, store.runs, raw, ok);
      u := t.Add(Publish(ok));
      m := l.(phase := Batch(l.phase.pending[1..]));
      if !ok {
        m := m.(failed := m.failed + 1);
        return;
      }
      m := m.(processed := m.processed + 1);
    }

    /** The inner loop of the visit callback: publish each message, and count. */
    method PublishBatch(ghost t: Trail, r: RunId, l: Loop, page: nat, weather: ScanWeather)
      returns (m: Loop, ghost u: Trail)
      requires Follows(t, store.runs, broker.raw) && t.l == Some(l) && t.r == r && l.phase.Batch?
      modifies broker`raw
      ensures var queued := QueuedOfBatch(r, l.req, l.phase.pending, weather, page);
        && m.phase == Batch([]) && m.req == l.req && m.found == l.found
        && m.processed == l.processed + |queued| && m.processed + m.failed == l.processed + l.failed + |l.phase.pending|
        && u.published == t.published + queued
      ensures Follows(u, store.runs, broker.raw) && u == t.(steps := u.steps, l := Some(m), published := u.published)
    {
      var batch := l.phase.pending;
      m, u := l, t;
      for i := 0 to |batch|
        invariant m == l.(phase := Batch(batch[i..]), processed := m.processed, failed := m.failed)
        invariant Follows(u, store.runs, broker.raw)
        invariant u == t.(steps := u.steps, l := Some(m), published := u.published)
        invariant u.published == t.published + QueuedOf(r, l.req, batch, OfPage(weather, page), i)
        invariant m.processed == l.processed + |QueuedOf(r, l.req, batch, OfPage(weather, page), i)|
        invariant m.processed + m.failed == l.processed + l.failed + i
      {
        m, u := PublishMessage(u, r, m, weather.queued(page, i));
        assert batch[i..][1..] == batch[i + 1..];
      }
      assert batch[|batch|..] == [];
    }

    /** The totals are written after each batch; a failed write fails the run. */
    method WriteProgress(ghost t: Trail, r: RunId, l: Loop, outcome: Write) returns (ok: bool, ghost u: Trail)
      requires Follows(t, store.runs, broker.raw) && t.l == Some(l) && t.r == r && l.phase == Batch([])
      modifies store`runs
      ensures ok <==> outcome == Done
      ensures Follows(u, store.runs, broker.raw)
      ensures u == t.(steps := u.steps, l := Some(l.(phase := if ok then Between else Failing)))
    {
      ghost var runs := store.runs;
      ok := store.UpdateScanRunProgress(r, l.found, l.processed, l.failed, outcome);
      ghost var a := Progress(outcome != NotDone, ok);
      QuietOn(t, runs, broker.raw, a);
      assert store.runs == runs[r := RunAfter(runs[r], l, a)];
      u := t.Add(a);
    }

    /** The visit callback: publish the batch, then write the progress. */
    method Visit(ghost t: Trail, r: RunId, l: Loop, contents: map<string, Message>, ids: seq<string>, page: nat,
                 weather: ScanWeather)
      returns (ok: bool, m: Loop, ghost u: Trail)
      requires Follows(t, store.runs, broker.raw) && t.l == Some(l) && t.r == r && l.phase.Between?
      requires contents == t.s.gmail.contents && ids != [] && forall id :: id in ids ==> id in contents
      modifies store`runs, broker`raw
      ensures ok <==> weather.progress(page) == Done
      ensures var queued := QueuedOfBatch(r, l.req, Lookup(contents, ids), weather, page);
        && m.phase == (if ok then Between else Failing) && m.req == l.req && m.found == l.found + |ids|
        && m.processed == l.processed + |queued| && m.processed + m.failed == l.processed + l.failed + |ids|
        && u.published == t.published + queued
      ensures Follows(u, store.runs, broker.raw) && u == t.(steps := u.steps, l := Some(m), published := u.published)
    {
      var batch := Lookup(contents, ids);
      SilentOn(t, store.runs, broker.raw, Fetch(ids));
      u := t.Add(Fetch(ids));
      m := l.(phase := Batch(batch), found := l.found + |batch|);
      m, u := PublishBatch(u, r, m, page, weather);
      ok, u := WriteProgress(u, r, m, weather.progress(page));
      m := m.(phase := if ok then Between else Failing);
    }

    /** Page by page, until the pages are through or the callback fails. */
    method VisitPages(ghost t: Trail, r: RunId, l: Loop, contents: map<string, Message>, pages: seq<seq<string>>,
                      weather: ScanWeather)
      returns (ok: bool, m: Loop, ghost u: Trail)
      requires Follows(t, store.runs, broker.raw) && t.l == Some(l) && t.r == r && l == Loop(l.req, Between, 0, 0, 0)
      requires contents == t.s.gmail.contents && Readable(contents, pages) && t.published == []
      modifies store`runs, broker`raw
      ensures ok <==> forall i :: 0 <= i < |pages| ==> weather.progress(i) == Done
      ensures Counted(r, l.req, contents, pages, weather, PagesRead(weather.progress, 0, |pages|), m, u.published)
      ensures m.phase == if ok then Between else Failing
      ensures Follows(u, store.runs, broker.raw) && u == t.(steps := u.steps, l := Some(m), published := u.published)
    {
      ok, m, u := true, l, t;
      var page := 0;
      while page < |pages| && ok
        invariant Visited(pages, weather.progress, page, ok)
        invariant Counted(r, l.req, contents, pages, weather, page, m, u.published)
        invariant m.phase == if ok then Between else Failing
        invariant Follows(u, store.runs, broker.raw)
        invariant u == t.(steps := u.steps, l := Some(m), published := u.published)
      {
        VisitedOne(pages, weather.progress, page);
        ghost var before, published := m, u.published;
        ok, m, u := Visit(u, r, m, contents, pages[page], page, weather);
        CountedOne(r, l.req, contents, pages, weather, page, before, published, m, u.published);
        page := page + 1;
      }
      VisitedAll(pages, weather.progress, page, ok);
    }

    /** failRun: the run is marked failed with the totals so far; whether that went through is not looked at. */
    method FailTheRun(ghost t: Trail, r: RunId, l: Loop, finish: Write) returns (ghost u: Trail)
      requires Follows(t, store.runs, broker.raw) && t.l == Some(l) && t.r == r && l.phase.Failing?
      modifies store`runs
      ensures Follows(u, store.runs, broker.raw) && u == t.(steps := u.steps, l := None)
      ensures finish != NotDone ==> store.runs[r] == Totals(old(store.runs)[r], l).(status := Failed)
    {
      ghost var runs := store.runs;
      ghost var a := FailRun(finish != NotDone);
      QuietOn(t, runs, broker.raw, a);
      var ok := store.CompleteScanRun(r, Failed, l.found, l.processed, l.failed, finish);
      assert store.runs == runs[r := RunAfter(runs[r], l, a)];
      u := t.Add(a);
    }

    /** The run is closed as queued, with errors when some message was not published. */
    method FinishTheRun(ghost t: Trail, r: RunId, l: Loop, finish: Write) returns (ghost u: Trail)
      requires Follows(t, store.runs, broker.raw) && t.l == Some(l) && t.r == r && l.phase.Between?
      modifies store`runs
      ensures Follows(u, store.runs, broker.raw) && u == t.(steps := u.steps, l := None)
      ensures finish != NotDone ==>
        store.runs[r] == Totals(old(store.runs)[r], l).(status := if l.failed > 0 then QueuedWithErrors else Queued)
    {
      var runStatus := Queued;
      if l.failed > 0 { runStatus := QueuedWithErrors; }
      ghost var runs := store.runs;
      ghost var a := Finish(finish != NotDone);
      QuietOn(t, runs, broker.raw, a);
      var ok := store.CompleteScanRun(r, runStatus, l.found, l.processed, l.failed, finish);
      assert store.runs == runs[r := RunAfter(runs[r], l, a)];
      u := t.Add(a);
    }

    /** Visit the pages and close the run: failed when a read or the callback failed, queued otherwise. Pages
        are given by the ids of their messages. */
    method EnqueueScan(r: RunId, req: Request, contents: map<string, Message>, pages: seq<seq<string>>,
                       weather: ScanWeather, ghost w: World, ghost s: State)
      returns (failedEarly: bool, ghost t: Trail)
      requires contents == s.gmail.contents && Readable(contents, pages)
      requires s.scans.runs == store.runs && s.raw == broker.raw
      requires r in s.scans.runs && r in s.scans.loops && s.scans.loops[r] == Loop(req, Between, 0, 0, 0)
      requires r in s.scans.published && s.scans.published[r] == []
      modifies store`runs, broker`raw
      ensures Follows(t, store.runs, broker.raw) && t == Trail(w, s, r, t.steps, None, t.published)
      ensures failedEarly <==> weather.readFails || exists i :: 0 <= i < |pages| && weather.progress(i) != Done
      ensures t.published == QueuedOfPages(r, req, contents, pages, weather, PagesRead(weather.progress, 0, |pages|))
      ensures weather.finish != NotDone ==>
        && ClosedAs(store.runs[r], t.published, failedEarly)
        && store.runs[r].found == SizeOfPages(pages, PagesRead(weather.progress, 0, |pages|))
    {
      var l := Loop(req, Between, 0, 0, 0);
      FollowsAtStart(w, s, r, req);
      t := Trail(w, s, r, [], Some(l), []);
      var ok;
      ok, l, t := VisitPages(t, r, l, contents, pages, weather);
      failedEarly := !ok;
      if !failedEarly && weather.readFails {
        SilentOn(t, store.runs, broker.raw, FetchFails);
        t := t.Add(FetchFails);
        failedEarly, l := true, l.(phase := Failing);
      }
      if failedEarly {
        t := FailTheRun(t, r, l, weather.finish);
        return;
      }
      t := FinishTheRun(t, r, l, weather.finish);
    }
  }
}
