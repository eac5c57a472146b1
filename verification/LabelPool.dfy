/** The label worker's pool: N goroutines, one mutex around settlements, an error channel with room
    for N errors, cancellation, and the main goroutine that waits for the pool to wind down. */
module LabelPool {
  import opened Common

  // ----- the machine ---------------------------------------------------------------

  /** Where a goroutine stands. It is Settling while it holds the mutex and calls Ack or Nack. */
  datatype Pc =
    | Polling
    | Handling(delivery: nat)
    | Locking(delivery: nat, ack: bool)
    | Settling(delivery: nat, ack: bool)
    | Unlocking(failed: bool)
    | Reporting
    | Cancelling
    | Exited

  /** The main goroutine: in its select, waiting for doneCh with what it will return, or returned.
      What it returns is the goroutine whose error it read, if any. */
  datatype Main = Selecting | Waiting(error: Option<nat>) | Returned(error: Option<nat>)

  datatype Settlement = Settlement(delivery: nat, ack: bool, failed: bool)

  datatype Pool = Pool(
    workers: seq<Pc>,
    mutex: Option<nat>,        // the goroutine that holds ackMu
    next: nat,                 // deliveries are numbered in the order they are received
    log: seq<Settlement>,      // calls of Ack and Nack, in order
    errs: seq<nat>,            // errCh: goroutines whose errors it holds; capacity |workers|
    unsent: nat,               // errors given up in the default branch
    cancelled: bool, outerDone: bool, closed: bool, done: bool,
    main: Main)

  datatype Act =
    | Receive | Stop | Decide(ack: bool) | Lock | Settle(failed: bool) | Unlock | Report | Cancel

  datatype Step =
    | Work(i: nat, act: Act)
    | OuterDone | CloseDeliveries | CloseDone
    | MainOuter | MainError | MainDone | MainReturn

  predicate Started(p: Pool) {
    && |p.workers| > 0 && (forall i | 0 <= i < |p.workers| :: p.workers[i] == Polling)
    && p == Pool(p.workers, None, 0, [], [], 0, false, false, false, false, Selecting)
  }

  predicate AllExited(workers: seq<Pc>) { forall i | 0 <= i < |workers| :: workers[i] == Exited }

  predicate ActEnabled(p: Pool, i: nat, a: Act) {
    && i < |p.workers|
    && match a
       case Receive => p.workers[i] == Polling && !p.closed
       case Stop => p.workers[i] == Polling && (p.cancelled || p.closed)
       case Decide(_) => p.workers[i].Handling?
       case Lock => p.workers[i].Locking? && p.mutex == None
       case Settle(_) => p.workers[i].Settling?
       case Unlock => p.workers[i].Unlocking?
       case Report => p.workers[i] == Reporting
       case Cancel => p.workers[i] == Cancelling
  }

  function PcAfter(p: Pool, i: nat, a: Act): Pc
    requires ActEnabled(p, i, a)
  {
    match a
    case Receive => Handling(p.next)
    case Stop => Exited
    case Decide(ack) => Locking(p.workers[i].delivery, ack)
    case Lock => Settling(p.workers[i].delivery, p.workers[i].ack)
    case Settle(failed) => Unlocking(failed)
    case Unlock => if p.workers[i].failed then Reporting else Polling
    case Report => Cancelling
    case Cancel => Exited
  }

  function WorkerStep(p: Pool, i: nat, a: Act): Pool
    requires ActEnabled(p, i, a)
  {
    var q := p.(workers := p.workers[i := PcAfter(p, i, a)]);
    match a
    case Receive => q.(next := p.next + 1)
    case Lock => q.(mutex := Some(i))
    case Settle(failed) =>
      q.(log := p.log + [Settlement(p.workers[i].delivery, p.workers[i].ack, failed)])
    case Unlock => q.(mutex := None)
    case Report => if |p.errs| < |p.workers| then q.(errs := p.errs + [i]) else q.(unsent := p.unsent + 1)
    case Cancel => q.(cancelled := true)
    case _ => q
  }

  predicate Enabled(p: Pool, step: Step) {
    match step
    case Work(i, a) => ActEnabled(p, i, a)
    case OuterDone => true
    case CloseDeliveries => true
    case CloseDone => AllExited(p.workers) && !p.done
    case MainOuter => p.main == Selecting && p.outerDone
    case MainError => p.main == Selecting && p.errs != []
    case MainDone => p.main == Selecting && p.done
    case MainReturn => p.main.Waiting? && p.done
  }

  function Next(p: Pool, step: Step): Pool
    requires Enabled(p, step)
  {
    match step
    case Work(i, a) => WorkerStep(p, i, a)
    case OuterDone => p.(outerDone := true, cancelled := true)
    case CloseDeliveries => p.(closed := true)
    case CloseDone => p.(done := true)
    case MainOuter => p.(cancelled := true, main := Waiting(None))
    case MainError => p.(cancelled := true, main := Waiting(Some(p.errs[0])), errs := p.errs[1..])
    case MainDone => p.(main := Returned(None))
    case MainReturn => p.(main := Returned(p.main.error))
  }

  /** The state after a run; a step that is not enabled is skipped (valid runs have none). */
  function PoolAfter(p: Pool, steps: seq<Step>): Pool {
    if steps == [] then p
    else
      var before := PoolAfter(p, steps[..|steps| - 1]);
      var last := steps[|steps| - 1];
      if Enabled(before, last) then Next(before, last) else before
  }

  predicate PoolRun(p: Pool, steps: seq<Step>) {
    steps == [] ||
    (PoolRun(p, steps[..|steps| - 1]) && Enabled(PoolAfter(p, steps[..|steps| - 1]), steps[|steps| - 1]))
  }

  ghost predicate Reachable(p: Pool) {
    exists p0, steps :: Started(p0) && PoolRun(p0, steps) && PoolAfter(p0, steps) == p
  }

  // ----- the invariant ----------------------------------------------------------------

  predicate Holds(pc: Pc) { pc.Settling? || pc.Unlocking? }

  ghost predicate MutexOk(workers: seq<Pc>, mutex: Option<nat>) {
    && (mutex.Some? ==> mutex.value < |workers|)
    && forall i :: 0 <= i < |workers| ==> (Holds(workers[i]) <==> mutex == Some(i))
  }

  /** The delivery a goroutine has received and has not settled. */
  function Carries(pc: Pc): Option<nat> {
    if pc.Handling? || pc.Locking? || pc.Settling? then Some(pc.delivery) else None
  }

  ghost predicate Carried(workers: seq<Pc>, d: nat) {
    exists i :: 0 <= i < |workers| && Carries(workers[i]) == Some(d)
  }

  ghost predicate Settled(log: seq<Settlement>, d: nat) {
    exists x :: x in log && x.delivery == d
  }

  ghost predicate Current(d: Option<nat>, next: nat, log: seq<Settlement>) {
    d.Some? ==> d.value < next && !Settled(log, d.value)
  }

  /** A goroutine carries only what was received and not settled, and nothing another one carries. */
  ghost predicate CarriedOk(workers: seq<Pc>, next: nat, log: seq<Settlement>) {
    AllCurrent(workers, next, log) && Unshared(workers)
  }

  ghost predicate AllCurrent(workers: seq<Pc>, next: nat, log: seq<Settlement>) {
    forall i :: 0 <= i < |workers| ==> Current(Carries(workers[i]), next, log)
  }

  ghost predicate Unshared(workers: seq<Pc>) {
    forall i, j :: 0 <= i < j < |workers| && Carries(workers[i]).Some? ==> Carries(workers[i]) != Carries(workers[j])
  }

  /** No delivery is settled twice, and none before it was received. */
  ghost predicate LogOk(next: nat, log: seq<Settlement>) {
    && (forall i, j :: 0 <= i < j < |log| ==> log[i].delivery != log[j].delivery)
    && (forall i :: 0 <= i < |log| ==> log[i].delivery < next)
  }

  /** Whatever was received is settled or carried. */
  ghost predicate AccountedFor(workers: seq<Pc>, next: nat, log: seq<Settlement>) {
    forall d: nat :: d < next ==> Settled(log, d) || Carried(workers, d)
  }

  /** The error channel holds errors of goroutines past their report, each at most once, and none was given up. */
  ghost predicate ErrorsOk(workers: seq<Pc>, errs: seq<nat>, unsent: nat) {
    && (forall k :: 0 <= k < |errs| ==> errs[k] < |workers| && workers[errs[k]] in {Cancelling, Exited})
    && (forall j, k :: 0 <= j < k < |errs| ==> errs[j] != errs[k])
    && unsent == 0
  }

  ghost predicate WindDownOk(p: Pool) {
    && (p.done ==> AllExited(p.workers))
    && (p.main.Returned? ==> p.done)
    && (Ending(p) ==> p.cancelled || p.closed)
  }

  /** The caller has cancelled, the deliveries have run out, a goroutine has left, or Run waits for them to leave. */
  ghost predicate Ending(p: Pool) {
    p.outerDone || p.closed || p.main.Waiting? || exists i :: 0 <= i < |p.workers| && p.workers[i] == Exited
  }

  ghost predicate SomeFailed(log: seq<Settlement>) { exists x :: x in log && x.failed }

  predicate Complains(pc: Pc) { pc == Unlocking(true) || pc == Reporting }

  ghost predicate SomeComplains(workers: seq<Pc>) {
    exists i :: 0 <= i < |workers| && Complains(workers[i])
  }

  /** The error the main goroutine has read, if any. */
  function Taken(main: Main): Option<nat> {
    if main == Selecting then None else main.error
  }

  /** A settlement has failed exactly when some goroutine is about to report, errCh holds an error, or the main
      goroutine has read one: no failure is forgotten on the way, and none is invented. */
  ghost predicate BlameOk(p: Pool) {
    SomeFailed(p.log) <==> SomeComplains(p.workers) || p.errs != [] || Taken(p.main).Some?
  }

  ghost predicate Inv(p: Pool) {
    && MutexOk(p.workers, p.mutex)
    && CarriedOk(p.workers, p.next, p.log) && LogOk(p.next, p.log) && AccountedFor(p.workers, p.next, p.log)
    && ErrorsOk(p.workers, p.errs, p.unsent) && WindDownOk(p) && BlameOk(p)
  }

  /** A goroutine goes on: it takes the mutex when nobody holds it, gives it back, or leaves it alone. */
  lemma MutexAfter(workers: seq<Pc>, mutex: Option<nat>, i: nat, pc: Pc, after: Option<nat>)
    requires MutexOk(workers, mutex) && i < |workers|
    requires after == if Holds(pc) == Holds(workers[i]) then mutex else if Holds(pc) then Some(i) else None
    requires Holds(pc) && !Holds(workers[i]) ==> mutex == None
    ensures MutexOk(workers[i := pc], after)
  {
  }

  lemma MutexKept(p: Pool, i: nat, a: Act)
    requires MutexOk(p.workers, p.mutex) && ActEnabled(p, i, a)
    ensures var q := WorkerStep(p, i, a); MutexOk(q.workers, q.mutex)
  {
    MutexAfter(p.workers, p.mutex, i, PcAfter(p, i, a), WorkerStep(p, i, a).mutex);
  }

  lemma SettledMore(log: seq<Settlement>, x: Settlement, d: nat)
    ensures Settled(log + [x], d) <==> Settled(log, d) || x.delivery == d
  {
    if Settled(log, d) {
      var y :| y in log && y.delivery == d;
      assert y in log + [x];
    }
    assert x in log + [x];
  }

  lemma CarriedAfter(workers: seq<Pc>, i: nat, pc: Pc, d: nat)
    requires i < |workers| && Carried(workers, d)
    ensures Carried(workers[i := pc], d) || (Carries(workers[i]) == Some(d) && Carries(pc) != Some(d))
  {
    var j :| 0 <= j < |workers| && Carries(workers[j]) == Some(d);
    assert j != i ==> Carries(workers[i := pc][j]) == Some(d);
    assert workers[i := pc][i] == pc;
  }

  /** A goroutine carries the same delivery until it settles it. */
  lemma CarriesAfter(p: Pool, i: nat, a: Act)
    requires ActEnabled(p, i, a)
    ensures Carries(PcAfter(p, i, a)) ==
      if a == Receive then Some(p.next) else if a.Settle? then None else Carries(p.workers[i])
  {
  }

  lemma SettledAfter(p: Pool, i: nat, a: Act, d: nat)
    requires ActEnabled(p, i, a)
    ensures Settled(WorkerStep(p, i, a).log, d) <==>
      Settled(p.log, d) || (a.Settle? && Carries(p.workers[i]) == Some(d))
  {
    if a.Settle? { SettledMore(p.log, Settlement(p.workers[i].delivery, p.workers[i].ack, a.failed), d); }
  }

  lemma CurrentKept(p: Pool, i: nat, a: Act)
    requires CarriedOk(p.workers, p.next, p.log) && LogOk(p.next, p.log) && ActEnabled(p, i, a)
    ensures var q := WorkerStep(p, i, a); AllCurrent(q.workers, q.next, q.log)
  {
    var q := WorkerStep(p, i, a);
    CarriesAfter(p, i, a);
    assert !Settled(p.log, p.next);
    forall j | 0 <= j < |q.workers| ensures Current(Carries(q.workers[j]), q.next, q.log) {
      assert Current(Carries(p.workers[j]), p.next, p.log);
      if Carries(q.workers[j]).Some? { SettledAfter(p, i, a, Carries(q.workers[j]).value); }
    }
  }

  /** Nobody else carries the delivery one goroutine goes on with. */
  lemma UnsharedKept(workers: seq<Pc>, i: nat, pc: Pc)
    requires i < |workers| && Unshared(workers)
    requires Carries(pc).Some? ==> forall j :: 0 <= j < |workers| && j != i ==> Carries(workers[j]) != Carries(pc)
    ensures Unshared(workers[i := pc])
  {
  }

  lemma CarriedKept(p: Pool, i: nat, a: Act)
    requires CarriedOk(p.workers, p.next, p.log) && LogOk(p.next, p.log) && ActEnabled(p, i, a)
    ensures var q := WorkerStep(p, i, a); CarriedOk(q.workers, q.next, q.log)
  {
    CurrentKept(p, i, a);
    CarriesAfter(p, i, a);
    forall j | 0 <= j < |p.workers| && j != i && Carries(PcAfter(p, i, a)).Some?
      ensures Carries(p.workers[j]) != Carries(PcAfter(p, i, a))
    {
      assert Current(Carries(p.workers[j]), p.next, p.log);
    }
    UnsharedKept(p.workers, i, PcAfter(p, i, a));
  }

  lemma LogKept(p: Pool, i: nat, a: Act)
    requires CarriedOk(p.workers, p.next, p.log) && LogOk(p.next, p.log) && ActEnabled(p, i, a)
    ensures var q := WorkerStep(p, i, a); LogOk(q.next, q.log)
  {
    if a.Settle? {
      assert Current(Carries(p.workers[i]), p.next, p.log);
      forall k | 0 <= k < |p.log| ensures p.log[k].delivery != p.workers[i].delivery {
        assert p.log[k] in p.log;
      }
    }
  }

  lemma AccountKept(p: Pool, i: nat, a: Act)
    requires AccountedFor(p.workers, p.next, p.log) && ActEnabled(p, i, a)
    ensures var q := WorkerStep(p, i, a); AccountedFor(q.workers, q.next, q.log)
  {
    var q := WorkerStep(p, i, a);
    CarriesAfter(p, i, a);
    forall d: nat | d < q.next ensures Settled(q.log, d) || Carried(q.workers, d) {
      SettledAfter(p, i, a, d);
      if d == p.next {
        assert a == Receive && Carries(q.workers[i]) == Some(d);
      } else if Carried(p.workers, d) {
        CarriedAfter(p.workers, i, PcAfter(p, i, a), d);
      }
    }
  }

  /** The buffer has room for whoever reports: the goroutines in it are others, and distinct. */
  lemma RoomToReport(workers: seq<Pc>, errs: seq<nat>, i: nat)
    requires ErrorsOk(workers, errs, 0) && i < |workers| && workers[i] == Reporting
    ensures |errs| < |workers|
  {
    DistinctCount(errs);
    var inside := set k | k in errs;
    var all := Indices(|workers|);
    forall k | k in inside ensures k in all - {i} {
      var j :| 0 <= j < |errs| && errs[j] == k;
    }
    assert all == (all - {i}) + {i};
    SubsetCount(inside, all - {i});
  }

  function Indices(n: nat): (r: set<nat>)
    ensures |r| == n && forall k: nat :: k in r <==> k < n
  {
    if n == 0 then {} else Indices(n - 1) + {n - 1}
  }

  lemma ErrorsKept(p: Pool, i: nat, a: Act)
    requires ErrorsOk(p.workers, p.errs, p.unsent) && ActEnabled(p, i, a)
    ensures var q := WorkerStep(p, i, a); ErrorsOk(q.workers, q.errs, q.unsent)
  {
    if a == Report { RoomToReport(p.workers, p.errs, i); }
  }

  /** Who complains after an act: whoever failed to settle, until he has reported. */
  lemma ComplaintsAfter(workers: seq<Pc>, i: nat, pc: Pc)
    requires i < |workers|
    ensures SomeComplains(workers[i := pc]) ==> SomeComplains(workers) || Complains(pc)
    ensures Complains(pc) ==> SomeComplains(workers[i := pc])
    ensures SomeComplains(workers) && (Complains(workers[i]) ==> Complains(pc)) ==> SomeComplains(workers[i := pc])
  {
    var after := workers[i := pc];
    assert Complains(pc) ==> Complains(after[i]);
    if SomeComplains(after) {
      var j :| 0 <= j < |after| && Complains(after[j]);
      assert j != i ==> Complains(workers[j]);
    }
    if SomeComplains(workers) {
      var j :| 0 <= j < |workers| && Complains(workers[j]);
      assert j != i ==> Complains(after[j]);
    }
  }

  lemma FailedAfter(log: seq<Settlement>, x: Settlement)
    ensures SomeFailed(log + [x]) <==> SomeFailed(log) || x.failed
  {
    if SomeFailed(log) {
      var y :| y in log && y.failed;
      assert y in log + [x];
    }
    assert x in log + [x];
  }

  lemma BlameKept(p: Pool, i: nat, a: Act)
    requires BlameOk(p) && ErrorsOk(p.workers, p.errs, p.unsent) && ActEnabled(p, i, a)
    ensures BlameOk(WorkerStep(p, i, a))
  {
    ComplaintsAfter(p.workers, i, PcAfter(p, i, a));
    match a {
      case Settle(failed) => FailedAfter(p.log, Settlement(p.workers[i].delivery, p.workers[i].ack, failed));
      case Unlock => assert p.workers[i].failed ==> Complains(p.workers[i]);
      case Report =>
        RoomToReport(p.workers, p.errs, i);
        assert Complains(p.workers[i]);
      case _ =>
    }
  }

  lemma InvKept(p: Pool, step: Step)
    requires Inv(p) && Enabled(p, step)
    ensures Inv(Next(p, step))
  {
    match step {
      case Work(i, a) =>
        MutexKept(p, i, a);
        CarriedKept(p, i, a);
        LogKept(p, i, a);
        AccountKept(p, i, a);
        ErrorsKept(p, i, a);
        BlameKept(p, i, a);
      case _ =>
    }
  }

  lemma InvStarted(p: Pool)
    requires Started(p)
    ensures Inv(p)
  {
  }

  lemma {:induction false} InvAlways(p: Pool, steps: seq<Step>)
    requires Started(p) && PoolRun(p, steps)
    ensures Inv(PoolAfter(p, steps))
  {
    if steps == [] {
      InvStarted(p);
    } else {
      InvAlways(p, steps[..|steps| - 1]);
      InvKept(PoolAfter(p, steps[..|steps| - 1]), steps[|steps| - 1]);
    }
  }

  // ----- what it gives -------------------------------------------------------------------

  /** Settlements exclude each other, and each received delivery is settled at most once. */
  lemma SettlementsAreExclusive(p: Pool, i: nat, j: nat)
    requires Reachable(p) && i < |p.workers| && j < |p.workers|
    requires p.workers[i].Settling? && p.workers[j].Settling?
    ensures i == j && !Settled(p.log, p.workers[i].delivery)
  {
    var p0, steps :| Started(p0) && PoolRun(p0, steps) && PoolAfter(p0, steps) == p;
    InvAlways(p0, steps);
    assert Holds(p.workers[i]) && Holds(p.workers[j]);
    assert Current(Carries(p.workers[i]), p.next, p.log);
  }

  /** No error is given up for want of room: whoever reports finds a place in the channel. */
  lemma DefaultIsDead(p: Pool)
    requires Reachable(p)
    ensures p.unsent == 0
    ensures forall i :: 0 <= i < |p.workers| && p.workers[i] == Reporting ==> |p.errs| < |p.workers|
  {
    var p0, steps :| Started(p0) && PoolRun(p0, steps) && PoolAfter(p0, steps) == p;
    InvAlways(p0, steps);
    forall i | 0 <= i < |p.workers| && p.workers[i] == Reporting ensures |p.errs| < |p.workers| {
      RoomToReport(p.workers, p.errs, i);
    }
  }

  /** When Run has returned every goroutine has exited, and each delivery ever received has been
      settled exactly once; an error it returns comes from a settlement that failed. */
  lemma ReturnIsClean(p: Pool)
    requires Reachable(p) && p.main.Returned?
    ensures AllExited(p.workers)
    ensures forall d: nat :: d < p.next <==> Settled(p.log, d)
    ensures forall i, j :: 0 <= i < j < |p.log| ==> p.log[i].delivery != p.log[j].delivery
    ensures p.main.error.Some? ==> SomeFailed(p.log)
  {
    var p0, steps :| Started(p0) && PoolRun(p0, steps) && PoolAfter(p0, steps) == p;
    InvAlways(p0, steps);
  }

  // ----- winding down ----------------------------------------------------------------------

  function Rank(pc: Pc): nat {
    match pc
    case Handling(_) => 7
    case Locking(_, _) => 6
    case Settling(_, _) => 5
    case Unlocking(_) => 4
    case Reporting => 3
    case Cancelling => 2
    case Polling => 1
    case Exited => 0
  }

  function Ranks(workers: seq<Pc>): nat {
    if workers == [] then 0 else Ranks(workers[..|workers| - 1]) + Rank(workers[|workers| - 1])
  }

  function Distance(p: Pool): nat {
    Ranks(p.workers) + (if p.done then 0 else 1)
      + match p.main case Selecting => 2 case Waiting(_) => 1 case Returned(_) => 0
  }

  /** A step that brings the pool nearer to its end: no new delivery, nothing from outside. */
  predicate Winds(step: Step) {
    match step
    case Work(_, a) => a != Receive
    case OuterDone => false
    case CloseDeliveries => false
    case _ => true
  }

  lemma {:induction false} RanksUpdate(workers: seq<Pc>, i: nat, pc: Pc)
    requires i < |workers|
    ensures Ranks(workers[i := pc]) + Rank(workers[i]) == Ranks(workers) + Rank(pc)
  {
    var n := |workers| - 1;
    if i < n {
      RanksUpdate(workers[..n], i, pc);
      assert workers[i := pc][..n] == workers[..n][i := pc];
    } else {
      assert workers[i := pc][..n] == workers[..n];
    }
  }

  lemma WindingDown(p: Pool, step: Step)
    requires Enabled(p, step) && Winds(step)
    ensures Distance(Next(p, step)) < Distance(p)
  {
    match step {
      case Work(i, a) => RanksUpdate(p.workers, i, PcAfter(p, i, a));
      case _ =>
    }
  }

  lemma BusyCanStep(p: Pool, i: nat) returns (step: Step)
    requires Inv(p) && (p.cancelled || p.closed) && i < |p.workers| && p.workers[i] != Exited
    ensures Enabled(p, step) && Winds(step)
  {
    match p.workers[i] {
      case Polling => step := Work(i, Stop);
      case Handling(_) => step := Work(i, Decide(true));
      case Locking(_, _) =>
        if p.mutex == None {
          step := Work(i, Lock);
        } else {
          var j := p.mutex.value;
          assert Holds(p.workers[j]);
          step := if p.workers[j].Settling? then Work(j, Settle(false)) else Work(j, Unlock);
        }
      case Settling(_, _) => step := Work(i, Settle(false));
      case Unlocking(_) => step := Work(i, Unlock);
      case Reporting => step := Work(i, Report);
      case Cancelling => step := Work(i, Cancel);
    }
  }

  /** Once cancelled, out of deliveries or left by one goroutine, as after a failure, the pool never deadlocks:
      until Run has returned some step brings it nearer to its end, and every such step does. */
  lemma WindsDown(p: Pool) returns (step: Step)
    requires Reachable(p) && (p.cancelled || Ending(p)) && !p.main.Returned?
    ensures Enabled(p, step) && Winds(step) && Distance(Next(p, step)) < Distance(p)
  {
    var p0, steps :| Started(p0) && PoolRun(p0, steps) && PoolAfter(p0, steps) == p;
    InvAlways(p0, steps);
    if !AllExited(p.workers) {
      var i :| 0 <= i < |p.workers| && p.workers[i] != Exited;
      step := BusyCanStep(p, i);
    } else if !p.done {
      step := CloseDone;
    } else if p.main == Selecting {
      step := MainDone;
    } else {
      step := MainReturn;
    }
    WindingDown(p, step);
  }

  // ----- which errors Run reports -----------------------------------------------------------

  /** When Run has returned nil, some settlement failed if and only if an error is still in the channel. */
  lemma NilHidesAnError(p: Pool)
    requires Reachable(p) && p.main == Returned(None)
    ensures SomeFailed(p.log) <==> p.errs != []
  {
    var p0, steps :| Started(p0) && PoolRun(p0, steps) && PoolAfter(p0, steps) == p;
    InvAlways(p0, steps);
    assert AllExited(p.workers);
  }

  /** Both ways to return nil, by doneCh in the select or after ctx.Done: at that moment a failure goes
      unreported exactly when errCh is not empty. */
  lemma NilExactly(p: Pool, step: Step)
    requires Reachable(p) && Enabled(p, step)
    requires step == MainDone || (step == MainReturn && p.main == Waiting(None))
    ensures Next(p, step).main == Returned(None) && Next(p, step).log == p.log
    ensures SomeFailed(p.log) <==> p.errs != []
  {
    var p0, steps :| Started(p0) && PoolRun(p0, steps) && PoolAfter(p0, steps) == p;
    InvAlways(p0, steps);
    assert AllExited(p.workers);
  }

  // ----- a limit ---------------------------------------------------------------------------

  lemma ExecOneMore(p: Pool, steps: seq<Step>, step: Step)
    requires PoolRun(p, steps) && Enabled(PoolAfter(p, steps), step)
    ensures PoolRun(p, steps + [step]) && PoolAfter(p, steps + [step]) == Next(PoolAfter(p, steps), step)
  {
    assert (steps + [step])[..|steps|] == steps;
  }

  predicate LostError(p: Pool) { p.main == Returned(None) && p.errs != [] && !p.outerDone }

  /** A worker's error need not come out of Run: when doneCh and errCh are both ready the main
      goroutine may take doneCh, and Run returns nil with the error still in the channel. */
  lemma ErrorCanBeLost()
    ensures exists p :: Reachable(p) && LostError(p)
  {
    var p0 := Pool([Polling], None, 0, [], [], 0, false, false, false, false, Selecting);
    var p, steps := FailAlone(p0);
    ExecOneMore(p0, steps, CloseDone);
    ExecOneMore(p0, steps + [CloseDone], MainDone);
    assert Reachable(Next(Next(p, CloseDone), MainDone));
  }

  /** The only goroutine of a pool fails to settle its first delivery, reports, cancels and exits. */
  lemma FailAlone(p0: Pool) returns (p: Pool, steps: seq<Step>)
    requires p0 == Pool([Polling], None, 0, [], [], 0, false, false, false, false, Selecting)
    ensures PoolRun(p0, steps) && PoolAfter(p0, steps) == p
    ensures p == Pool([Exited], None, 1, [Settlement(0, true, true)], [0], 0, true, false, false, false, Selecting)
  {
    p, steps := p0, [];
    p, steps := Act1(p0, p, steps, Receive, p.(workers := [Handling(0)], next := 1));
    p, steps := Act1(p0, p, steps, Decide(true), p.(workers := [Locking(0, true)]));
    p, steps := Act1(p0, p, steps, Lock, p.(workers := [Settling(0, true)], mutex := Some(0)));
    p, steps := Act1(p0, p, steps, Settle(true), p.(workers := [Unlocking(true)], log := [Settlement(0, true, true)]));
    p, steps := Act1(p0, p, steps, Unlock, p.(workers := [Reporting], mutex := None));
    p, steps := Act1(p0, p, steps, Report, p.(workers := [Cancelling], errs := [0]));
    p, steps := Act1(p0, p, steps, Cancel, p.(workers := [Exited], cancelled := true));
  }

  lemma Act1(p0: Pool, p: Pool, steps: seq<Step>, a: Act, next: Pool) returns (q: Pool, more: seq<Step>)
    requires PoolRun(p0, steps) && PoolAfter(p0, steps) == p && ActEnabled(p, 0, a) && |p.workers| == 1
    requires next == WorkerStep(p, 0, a)
    ensures PoolRun(p0, more) && PoolAfter(p0, more) == q && q == next
  {
    ExecOneMore(p0, steps, Work(0, a));
    q, more := next, steps + [Work(0, a)];
  }
}
