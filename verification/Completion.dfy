/** What the stored counters and the processing status of a run mean. */
module Completion {
  import opened Common
  import opened Classifier
  import opened Pipeline
  import opened Invariants
  import opened NoLostWork

  // ----- counters -----------------------------------------------------------------

  function PendingCount(l: Loop): nat {
    if l.phase.Batch? then |l.phase.pending| else 0
  }

  /** The enqueue loop has published or failed all it found but what is still pending. */
  ghost predicate LoopCounts(l: Loop, published: nat) {
    l.found == l.processed + l.failed + PendingCount(l) && l.processed == published
  }

  /** A stored run: its counters add up and do not run ahead of what it published. */
  ghost predicate RunCounts(run: Run, published: nat, open: bool) {
    && run.found == run.processed + run.failed && run.processed <= published
    && (open ==> run.status == Enqueuing)
    && (run.status != Enqueuing ==> run.processed == published)
    && (run.status == Queued ==> run.failed == 0)
    && (run.status == QueuedWithErrors ==> run.failed > 0)
  }

  ghost predicate CountersOk(q: Scans) {
    && q.published.Keys == q.runs.Keys && q.loops.Keys <= q.runs.Keys
    && (forall r :: r in q.loops ==> LoopCounts(q.loops[r], |q.published[r]|))
    && (forall r :: r in q.runs ==> RunCounts(q.runs[r], |q.published[r]|, r in q.loops))
  }

  /** One act of the loop keeps both counts, for the loop that goes on and for the row it may write. */
  lemma CountsKept(run: Run, l: Loop, contents: map<string, Message>, r: RunId, a: ApiAct, published: nat)
    requires a.Fetch? ==> l.phase.Between? && forall id :: id in a.ids ==> id in contents
    requires a.Publish? ==> l.phase.Batch? && l.phase.pending != []
    requires a.Progress? ==> l.phase.Batch? && l.phase.pending == []
    requires a.FetchFails? || a.Finish? ==> l.phase.Between?
    requires a.FailRun? ==> l.phase.Failing?
    requires LoopCounts(l, published) && RunCounts(run, published, true)
    ensures var after := LoopAfter(l, contents, a);
      var more := published + |Emitted(r, l, a)|;
      && (after.Some? ==> LoopCounts(after.value, more))
      && RunCounts(RunAfter(run, l, a), more, after.Some?)
  {
  }

  lemma CountersKept(q: Scans, contents: map<string, Message>, r: RunId, a: ApiAct)
    requires CountersOk(q) && ApiEnabled(q, contents, r, a)
    ensures CountersOk(ScansAfter(q, contents, r, a))
  {
    CountsKept(q.runs[r], q.loops[r], contents, r, a, |q.published[r]|);
  }

  lemma CountersNewScan(q: Scans, req: Request)
    requires CountersOk(q) && q.nextRun !in q.runs
    ensures CountersOk(NewScan(q, req))
  {
  }

  lemma CountersStep(w: World, s: State, step: Step)
    requires CountersOk(s.scans) && s.scans.nextRun !in s.scans.runs && Enabled(w, s, step)
    ensures CountersOk(Next(w, s, step).scans)
  {
    match step {
      case Api(r, a) => CountersKept(s.scans, s.gmail.contents, r, a);
      case StartScan(req) => CountersNewScan(s.scans, req);
      case _ =>
    }
  }

  lemma {:induction false} CountersAlways(w: World, s: State, steps: seq<Step>)
    requires Initial(w, s) && Valid(w, s, steps)
    ensures CountersOk(Exec(w, s, steps).scans)
  {
    if steps != [] {
      var n := |steps| - 1;
      CountersAlways(w, s, steps[..n]);
      InvInitial(w, s);
      InvAlways(w, s, steps[..n]);
      CountersStep(w, Exec(w, s, steps[..n]), steps[n]);
    }
  }

  /** In every reachable state each stored run has found = processed + failed, and has published at
      least what it counts as processed, exactly that once it is no longer enqueuing. A queued run
      failed nothing, a run queued with errors failed something, and neither publishes any more. */
  lemma CountersConserved(w: World, s: State, r: RunId)
    requires Reachable(w, s) && r in s.scans.runs
    ensures r in s.scans.published
    ensures var run := s.scans.runs[r];
      && run.found == run.processed + run.failed
      && run.processed <= |s.scans.published[r]|
      && (run.status != Enqueuing ==> run.processed == |s.scans.published[r]| && r !in s.scans.loops)
      && (run.status == Queued ==> run.failed == 0)
      && (run.status == QueuedWithErrors ==> run.failed > 0)
  {
    var s0, steps :| Initial(w, s0) && Valid(w, s0, steps) && Exec(w, s0, steps) == s;
    CountersAlways(w, s0, steps);
    assert RunCounts(s.scans.runs[r], |s.scans.published[r]|, r in s.scans.loops);
  }

  // ----- processing status ------------------------------------------------------------

  datatype ProcessingStatus = NotStarted | Processing | Complete

  function RowsWith(rows: map<Key, Row>, r: RunId, status: RowStatus): set<Key> {
    set k | k in rows && rows[k].run == r && rows[k].status == status
  }

  function RowsOf(rows: map<Key, Row>, r: RunId): set<Key> {
    set k | k in rows && rows[k].run == r
  }

  /** How many rows of the run have each status; a status no row has is absent. */
  function StatusCounts(rows: map<Key, Row>, r: RunId): map<RowStatus, nat> {
    map status | status in {DryRunDone, Classified, Applied} && RowsWith(rows, r, status) != {} ::
      |RowsWith(rows, r, status)|
  }

  function CountOf(counts: map<RowStatus, nat>, status: RowStatus): nat {
    if status in counts then counts[status] else 0
  }

  /** What a row adds to a count of a run: one, or nothing. */
  function Share(row: Row, r: RunId, status: RowStatus): nat {
    if row.run == r && row.status == status then 1 else 0
  }

  /** An empty table gives no counts, and a count is there only when some row adds to it. */
  lemma NoRowsNoCounts(rows: map<Key, Row>, r: RunId, status: RowStatus)
    ensures StatusCounts(map[], r) == map[]
    ensures status in StatusCounts(rows, r) <==> exists k :: k in rows && Share(rows[k], r, status) == 1
    ensures status in StatusCounts(rows, r) ==> CountOf(StatusCounts(rows, r), status) > 0
  {
    var with := RowsWith(rows, r, status);
    if k :| k in rows && Share(rows[k], r, status) == 1 { assert k in with; }
    if k :| k in with {}
  }

  lemma CountIsSize(rows: map<Key, Row>, r: RunId, status: RowStatus)
    ensures CountOf(StatusCounts(rows, r), status) == |RowsWith(rows, r, status)|
  {
  }

  lemma RowsWithout(rows: map<Key, Row>, r: RunId, k: Key, status: RowStatus)
    requires k in rows
    ensures |RowsWith(rows, r, status)| == |RowsWith(rows - {k}, r, status)| + Share(rows[k], r, status)
  {
    var with, without := RowsWith(rows, r, status), RowsWith(rows - {k}, r, status);
    assert with == if Share(rows[k], r, status) == 1 then without + {k} else without;
  }

  lemma CountWithout(rows: map<Key, Row>, r: RunId, k: Key, status: RowStatus)
    requires k in rows
    ensures CountOf(StatusCounts(rows, r), status) ==
      CountOf(StatusCounts(rows - {k}, r), status) + Share(rows[k], r, status)
  {
    RowsWithout(rows, r, k, status);
    CountIsSize(rows, r, status);
    CountIsSize(rows - {k}, r, status);
  }

  /** Writing a row moves its share: a new key adds one to the count of its status, marking a classified row takes
      one from classified and gives it to applied, and rows of other runs count for nothing. */
  lemma CountAfterWrite(rows: map<Key, Row>, r: RunId, k: Key, row: Row, status: RowStatus)
    ensures CountOf(StatusCounts(rows[k := row], r), status) + (if k in rows then Share(rows[k], r, status) else 0)
         == CountOf(StatusCounts(rows, r), status) + Share(row, r, status)
  {
    var after := rows[k := row];
    CountWithout(after, r, k, status);
    if k in rows {
      CountWithout(rows, r, k, status);
      assert after - {k} == rows - {k};
    } else {
      assert after - {k} == rows;
    }
  }

  function StatusOf(run: Run, counts: map<RowStatus, nat>): ProcessingStatus {
    var processed := CountOf(counts, DryRunDone) + CountOf(counts, Classified) + CountOf(counts, Applied);
    if run.processed == 0 then NotStarted
    else if processed >= run.processed then Complete
    else Processing
  }

  /** The three counts add up to the rows stamped with the run. */
  lemma CountsAddUp(rows: map<Key, Row>, r: RunId)
    ensures var counts := StatusCounts(rows, r);
      CountOf(counts, DryRunDone) + CountOf(counts, Classified) + CountOf(counts, Applied) == |RowsOf(rows, r)|
  {
    var a, b, c := RowsWith(rows, r, DryRunDone), RowsWith(rows, r, Classified), RowsWith(rows, r, Applied);
    assert RowsOf(rows, r) == a + b + c;
    assert a !! b && (a + b) !! c;
    assert |a + b| == |a| + |b| && |a + b + c| == |a + b| + |c|;
  }

  ghost function KeysOf(es: seq<RawEvent>): (ks: seq<Key>)
    ensures |ks| == |es| && forall i :: 0 <= i < |es| ==> ks[i] == KeyOf(es[i])
  {
    seq(|es|, i requires 0 <= i < |es| => KeyOf(es[i]))
  }

  /** Every published message of the run has its row, stamped with the run. */
  ghost predicate AllRecorded(rows: map<Key, Row>, r: RunId, es: seq<RawEvent>) {
    forall e :: e in es ==> KeyOf(e) in rows && rows[KeyOf(e)].run == r
  }

  lemma KeysAreMentioned(es: seq<RawEvent>, k: Key)
    ensures k in KeysOf(es) <==> Mentions(es, k)
  {
    if k in KeysOf(es) {
      var i :| 0 <= i < |es| && KeysOf(es)[i] == k;
      assert es[i] in es;
    }
    if Mentions(es, k) {
      var e :| e in es && KeyOf(e) == k;
      var i :| 0 <= i < |es| && es[i] == e;
      assert KeysOf(es)[i] == k;
    }
  }

  /** Rows of the run number as many as its events exactly when each event has its own row. */
  lemma Pigeonhole(rows: map<Key, Row>, r: RunId, es: seq<RawEvent>)
    requires forall k :: k in RowsOf(rows, r) ==> Mentions(es, k)
    ensures |RowsOf(rows, r)| >= |es| <==> OncePerKey(es) && AllRecorded(rows, r, es)
  {
    var keys := set k | k in KeysOf(es);
    DistinctCount(KeysOf(es));
    assert RowsOf(rows, r) <= keys by {
      forall k | k in RowsOf(rows, r) ensures k in keys { KeysAreMentioned(es, k); }
    }
    SubsetCount(RowsOf(rows, r), keys);
    assert OncePerKey(es) <==> |keys| == |es| by { OnceIsDistinct(es); }
    assert RowsOf(rows, r) == keys <==> AllRecorded(rows, r, es) by { RecordedIsAll(rows, r, es, keys); }
  }

  lemma OnceIsDistinct(es: seq<RawEvent>)
    ensures OncePerKey(es) <==> forall i, j :: 0 <= i < j < |es| ==> KeysOf(es)[i] != KeysOf(es)[j]
  {
    var ks := KeysOf(es);
    if OncePerKey(es) {
      forall i, j | 0 <= i < j < |es| ensures ks[i] != ks[j] {
        assert ks[i] == KeyOf(es[i]) && ks[j] == KeyOf(es[j]);
      }
    } else {
      var i, j :| 0 <= i < j < |es| && KeyOf(es[i]) == KeyOf(es[j]);
      assert ks[i] == ks[j];
    }
  }

  lemma RecordedIsAll(rows: map<Key, Row>, r: RunId, es: seq<RawEvent>, keys: set<Key>)
    requires keys == set k | k in KeysOf(es)
    requires RowsOf(rows, r) <= keys
    ensures RowsOf(rows, r) == keys <==> AllRecorded(rows, r, es)
  {
    if RowsOf(rows, r) == keys {
      forall e | e in es ensures KeyOf(e) in RowsOf(rows, r) {
        KeysAreMentioned(es, KeyOf(e));
      }
    }
    if AllRecorded(rows, r, es) {
      forall k | k in keys ensures k in RowsOf(rows, r) {
        KeysAreMentioned(es, k);
        var e :| e in es && KeyOf(e) == k;
      }
    }
  }

  lemma RowsAreMentioned(w: World, s: State, r: RunId)
    requires Inv(w, s) && r in s.scans.published
    ensures forall k :: k in RowsOf(s.rows, r) ==> Mentions(s.scans.published[r], k)
  {
    forall k | k in RowsOf(s.rows, r) ensures Mentions(s.scans.published[r], k) {
      assert Stamp(s.scans.published, s.rows[k].run, k);
    }
  }

  /** `complete` is exact: once a run has left `enqueuing`, it is reported complete if and only if it
      published something, no message twice, and every message it published has a row that is still
      stamped with this run. */
  lemma CompleteIsExact(w: World, s: State, r: RunId)
    requires Reachable(w, s) && r in s.scans.runs && s.scans.runs[r].status != Enqueuing
    ensures r in s.scans.published
    ensures StatusOf(s.scans.runs[r], StatusCounts(s.rows, r)) == NotStarted <==> s.scans.published[r] == []
    ensures StatusOf(s.scans.runs[r], StatusCounts(s.rows, r)) == Complete <==>
      && s.scans.published[r] != []
      && OncePerKey(s.scans.published[r])
      && AllRecorded(s.rows, r, s.scans.published[r])
  {
    CountersConserved(w, s, r);
    CountsAddUp(s.rows, r);
    InvReachable(w, s);
    RowsAreMentioned(w, s, r);
    Pigeonhole(s.rows, r, s.scans.published[r]);
  }

  /** No other run published anything about a message of this run. */
  ghost predicate AloneOnItsKeys(q: Scans, r: RunId) {
    forall x, k :: x in q.published && x != r && r in q.published && Mentions(q.published[r], k) ==>
      !Mentions(q.published[x], k)
  }

  /** A run whose messages are its own is complete once it has left `enqueuing` and none of its raw
      events is pending, provided it published something and no message twice. */
  lemma RunCompletes(w: World, s: State, r: RunId)
    requires Reachable(w, s) && r in s.scans.runs && s.scans.runs[r].status != Enqueuing
    requires r in s.scans.published && s.scans.published[r] != [] && OncePerKey(s.scans.published[r])
    requires AloneOnItsKeys(s.scans, r)
    requires forall t :: t in s.raw && t.held ==> t.event.run != r
    ensures StatusOf(s.scans.runs[r], StatusCounts(s.rows, r)) == Complete
  {
    CompleteIsExact(w, s, r);
    NoEventLost(w, s);
    InvReachable(w, s);
    forall e | e in s.scans.published[r] ensures KeyOf(e) in s.rows && s.rows[KeyOf(e)].run == r {
      assert FromRun(s.scans, s.gmail.contents, r, e);
      var k := KeyOf(e);
      assert Stamp(s.scans.published, s.rows[k].run, k);
      assert Mentions(s.scans.published[r], k) && Mentions(s.scans.published[s.rows[k].run], k);
    }
  }
}
