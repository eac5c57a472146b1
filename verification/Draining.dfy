/** The queues drain: how many steps a run can take, in terms of the work there is and the faults it meets. */
module Draining {
  import opened Common
  import Rules
  import opened Classifier
  import opened Pipeline
  import opened Invariants

  // ----- potentials ------------------------------------------------------------------

  datatype Weights = Weights(raw: RawTask -> nat, lab: LabelTask -> nat, loop: Loop -> nat)

  ghost function LoopTotal(loops: map<RunId, Loop>, f: Loop -> nat): nat
    decreases |loops|
  {
    if loops == map[] then 0
    else
      var r :| r in loops;
      f(loops[r]) + LoopTotal(loops - {r}, f)
  }

  ghost function Potential(x: Weights, s: State): nat {
    Total(s.raw, x.raw) + Total(s.lab, x.lab) + LoopTotal(s.scans.loops, x.loop)
  }

  lemma {:induction false} LoopTakeOut(loops: map<RunId, Loop>, f: Loop -> nat, r: RunId)
    requires r in loops
    ensures LoopTotal(loops, f) == f(loops[r]) + LoopTotal(loops - {r}, f)
    decreases |loops|
  {
    var y :| y in loops && LoopTotal(loops, f) == f(loops[y]) + LoopTotal(loops - {y}, f);
    if y != r {
      LoopTakeOut(loops - {y}, f, r);
      LoopTakeOut(loops - {r}, f, y);
      assert loops - {y} - {r} == loops - {r} - {y};
    }
  }

  lemma LoopPut(loops: map<RunId, Loop>, f: Loop -> nat, r: RunId, l: Loop)
    ensures LoopTotal(loops[r := l], f) == f(l) + LoopTotal(loops - {r}, f)
  {
    LoopTakeOut(loops[r := l], f, r);
    assert loops[r := l] - {r} == loops - {r};
  }

  // ----- how one step changes a potential -------------------------------------------

  function LoopWeight(x: Weights, l: Option<Loop>): nat {
    if l.Some? then x.loop(l.value) else 0
  }

  lemma RawChange(x: Weights, w: World, s: State, t: RawTask, a: RawAct)
    requires t in s.raw && RawEnabled(t, a)
    ensures Potential(x, NextRaw(w, s, t, a)) + x.raw(t) ==
      Potential(x, s) + RawLeft(x, t, a, w.triage(s.rules, t.event.user, t.event.message))
  {
    TotalsOfRaw(x, w, s.rules, t, a);
    TotalTakeOut(s.raw, x.raw, t);
    TotalUnion(s.raw - multiset{t}, RawAfter(w, s.rules, t, a), x.raw);
    TotalUnion(s.lab, Forwarded(t, a), x.lab);
  }

  lemma LabChange(x: Weights, w: World, s: State, c: LabelTask, a: LabelAct)
    requires c in s.lab && LabEnabled(w, s.gmail, c, a)
    ensures Potential(x, NextLab(w, s, c, a)) + x.lab(c) ==
      Potential(x, s) + LabLeft(x, c, a, FindLabel(w, s.gmail.labels, c.event.labelName))
  {
    TotalsOfLab(x, w, s.gmail, c, a);
    TotalTakeOut(s.lab, x.lab, c);
    TotalUnion(s.lab - multiset{c}, LabAfter(w, s.gmail, c, a), x.lab);
  }

  lemma LoopChange(f: Loop -> nat, q: Scans, contents: map<string, Message>, r: RunId, a: ApiAct)
    requires ApiEnabled(q, contents, r, a)
    ensures var after := LoopAfter(q.loops[r], contents, a);
      LoopTotal(ScansAfter(q, contents, r, a).loops, f) + f(q.loops[r]) ==
      LoopTotal(q.loops, f) + if after.Some? then f(after.value) else 0
  {
    var after := LoopAfter(q.loops[r], contents, a);
    LoopTakeOut(q.loops, f, r);
    if after.Some? { LoopPut(q.loops, f, r, after.value); }
  }

  lemma ApiChange(x: Weights, s: State, r: RunId, a: ApiAct)
    requires ApiEnabled(s.scans, s.gmail.contents, r, a)
    ensures var l := s.scans.loops[r];
      Potential(x, NextApi(s, r, a)) + x.loop(l) ==
      Potential(x, s) + LoopWeight(x, LoopAfter(l, s.gmail.contents, a)) + Total(Queue(Emitted(r, l, a)), x.raw)
  {
    LoopChange(x.loop, s.scans, s.gmail.contents, r, a);
    TotalUnion(s.raw, Queue(Emitted(r, s.scans.loops[r], a)), x.raw);
  }

  lemma ScanChange(x: Weights, s: State, req: Request)
    requires s.scans.nextRun !in s.scans.loops
    ensures Potential(x, s.(scans := NewScan(s.scans, req))) == Potential(x, s) + x.loop(Loop(req, Between, 0, 0, 0))
  {
    var r := s.scans.nextRun;
    LoopPut(s.scans.loops, x.loop, r, Loop(req, Between, 0, 0, 0));
    assert s.scans.loops - {r} == s.scans.loops;
  }

  /** The sum of a quantity over the steps of a run. */
  function Sum(steps: seq<Step>, f: Step -> nat): nat {
    if steps == [] then 0 else Sum(steps[..|steps| - 1], f) + f(steps[|steps| - 1])
  }

  // ----- settlements ------------------------------------------------------------------

  /** The settlements a raw task still stands for: its own, and that of the label event it will publish. */
  function RawUnits(t: RawTask): nat {
    if !t.held then 0 else if t.pc == Sent then 1 else 2
  }

  function LabelUnits(c: LabelTask): nat { if c.held then 1 else 0 }

  function LoopUnits(l: Loop): nat {
    if l.phase.Batch? then 3 * |l.phase.pending| else 0
  }

  function Units(): Weights { Weights(RawUnits, LabelUnits, LoopUnits) }

  /** A publish of the enqueue loop, or a delivery settled for good. */
  function Settles(step: Step): nat {
    match step
    case Api(_, Publish(_)) => 1
    case Raw(_, Ack) => 1
    case Lab(_, LAck) => 1
    case Lab(_, LDrop(_)) => 1
    case _ => 0
  }

  function HeldRaw(t: RawTask): nat { if t.held then 1 else 0 }

  /** The deliveries the broker waits for, on both queues. */
  function Deliveries(): Weights { Weights(HeldRaw, LabelUnits, _ => 0) }

  lemma HeldAfterRaw(t: RawTask, a: RawAct, c: Classification)
    requires RawEnabled(t, a)
    ensures Settles(Raw(t, a)) + RawLeft(Deliveries(), t, a, c) == HeldRaw(t) + if a == Forward then 1 else 0
  {
  }

  lemma HeldAfterLab(w: World, g: Gmail, c: LabelTask, a: LabelAct, found: Option<LabelId>)
    requires LabEnabled(w, g, c, a)
    ensures Settles(Lab(c, a)) + LabLeft(Deliveries(), c, a, found) == LabelUnits(c)
  {
  }

  /** A settlement is a delivery that is gone for good: each step takes as many away as it settles, and a label
      event published is one more. */
  lemma SettledDeliveriesAreGone(w: World, s: State, step: Step)
    requires Enabled(w, s, step) && (step.Raw? || step.Lab?)
    ensures Potential(Deliveries(), Next(w, s, step)) + Settles(step) ==
      Potential(Deliveries(), s) + if step.Raw? && step.act == Forward then 1 else 0
  {
    match step {
      case Raw(t, a) =>
        HeldAfterRaw(t, a, w.triage(s.rules, t.event.user, t.event.message));
        RawChange(Deliveries(), w, s, t, a);
      case Lab(c, a) =>
        HeldAfterLab(w, s.gmail, c, a, FindLabel(w, s.gmail.labels, c.event.labelName));
        LabChange(Deliveries(), w, s, c, a);
    }
  }

  /** What a step may add: three for each message found, one for a raw event that comes back after its
      label event was published. */
  function Extra(step: Step): nat {
    match step
    case Api(_, Fetch(ids)) => 3 * |ids|
    case Raw(t, Requeue) => if t.pc == Sent then 1 else 0
    case Raw(t, Detach) => if t.pc == Sent then 1 else 0
    case _ => 0
  }

  /** The weight of what an act of a raw task leaves behind, label event included; `c` is what triage says. */
  function RawLeft(x: Weights, t: RawTask, a: RawAct, c: Classification): nat
    requires RawEnabled(t, a)
  {
    var again := RawTask(t.event, Ready, true);
    match a
    case Take => x.raw(t.(pc := Taken))
    case ReadRules => x.raw(t.(pc := Ruled(c)))
    case Store => x.raw(t.(pc := Stored(t.pc.result)))
    case Forward => x.raw(t.(pc := Sent)) + x.lab(LabelTask(LabelEventOf(t.event, t.pc.result), LReady, true))
    case Requeue => x.raw(again)
    case Detach => x.raw(t.(held := false)) + x.raw(again)
    case _ => 0
  }

  lemma TotalsOfRaw(x: Weights, w: World, rules: seq<Rules.UserRule>, t: RawTask, a: RawAct)
    requires RawEnabled(t, a)
    ensures Total(RawAfter(w, rules, t, a), x.raw) + Total(Forwarded(t, a), x.lab)
         == RawLeft(x, t, a, w.triage(rules, t.event.user, t.event.message))
  {
    var again := RawTask(t.event, Ready, true);
    match a {
      case Take => TotalOne(t.(pc := Taken), x.raw);
      case ReadRules => TotalOne(t.(pc := Ruled(w.triage(rules, t.event.user, t.event.message))), x.raw);
      case Store => TotalOne(t.(pc := Stored(t.pc.result)), x.raw);
      case Forward =>
        TotalOne(t.(pc := Sent), x.raw);
        TotalOne(LabelTask(LabelEventOf(t.event, t.pc.result), LReady, true), x.lab);
      case Requeue => TotalOne(again, x.raw);
      case Detach => TotalTwo(t.(held := false), again, x.raw);
      case _ =>
    }
  }

  /** The weight of what an act of a label task leaves behind; `found` is what its search finds. */
  function LabLeft(x: Weights, c: LabelTask, a: LabelAct, found: Option<LabelId>): nat {
    var again := LabelTask(c.event, LReady, true);
    match a
    case LTake => x.lab(c.(pc := LTaken))
    case LSkip => x.lab(c.(pc := LMarked))
    case LList => x.lab(c.(pc := if found.Some? then LFound(found.value) else LMissing))
    case LCreate(id) => x.lab(c.(pc := LFound(id)))
    case LModify => x.lab(c.(pc := LEdited))
    case LMark => x.lab(c.(pc := LMarked))
    case LRequeue => x.lab(again)
    case LDetach => x.lab(c.(held := false)) + x.lab(again)
    case _ => 0
  }

  lemma TotalsOfLab(x: Weights, w: World, g: Gmail, c: LabelTask, a: LabelAct)
    requires LabEnabled(w, g, c, a)
    ensures Total(LabAfter(w, g, c, a), x.lab) == LabLeft(x, c, a, FindLabel(w, g.labels, c.event.labelName))
  {
    var again := LabelTask(c.event, LReady, true);
    match a {
      case LTake => TotalOne(c.(pc := LTaken), x.lab);
      case LSkip => TotalOne(c.(pc := LMarked), x.lab);
      case LList =>
        var found := FindLabel(w, g.labels, c.event.labelName);
        TotalOne(c.(pc := if found.Some? then LFound(found.value) else LMissing), x.lab);
      case LCreate(id) => TotalOne(c.(pc := LFound(id)), x.lab);
      case LModify => TotalOne(c.(pc := LEdited), x.lab);
      case LMark => TotalOne(c.(pc := LMarked), x.lab);
      case LRequeue => TotalOne(again, x.lab);
      case LDetach => TotalTwo(c.(held := false), again, x.lab);
      case _ =>
    }
  }

  lemma SettlesRaw(t: RawTask, a: RawAct, c: Classification)
    requires RawEnabled(t, a)
    ensures Settles(Raw(t, a)) + RawLeft(Units(), t, a, c) <= RawUnits(t) + Extra(Raw(t, a))
  {
  }

  lemma SettlesLab(w: World, g: Gmail, c: LabelTask, a: LabelAct, found: Option<LabelId>)
    requires LabEnabled(w, g, c, a)
    ensures Settles(Lab(c, a)) + LabLeft(Units(), c, a, found) <= LabelUnits(c)
  {
  }

  lemma TotalOfQueue(x: Weights, es: seq<RawEvent>)
    requires |es| <= 1
    ensures Total(Queue(es), x.raw) == if es == [] then 0 else x.raw(RawTask(es[0], Ready, true))
  {
    QueueOfOne(es);
    if es != [] { TotalOne(RawTask(es[0], Ready, true), x.raw); }
  }

  lemma SettlesApi(contents: map<string, Message>, q: Scans, r: RunId, a: ApiAct)
    requires ApiEnabled(q, contents, r, a)
    ensures var l := q.loops[r];
      Settles(Api(r, a)) + LoopWeight(Units(), LoopAfter(l, contents, a)) + Total(Queue(Emitted(r, l, a)), RawUnits)
      <= LoopUnits(l) + Extra(Api(r, a))
  {
    TotalOfQueue(Units(), Emitted(r, q.loops[r], a));
  }

  lemma SettlesStep(w: World, s: State, step: Step)
    requires Enabled(w, s, step) && ScansOk(s.scans)
    ensures Settles(step) + Potential(Units(), Next(w, s, step)) <= Potential(Units(), s) + Extra(step)
  {
    match step {
      case Api(r, a) => SettlesApi(s.gmail.contents, s.scans, r, a); ApiChange(Units(), s, r, a);
      case Raw(t, a) =>
        SettlesRaw(t, a, w.triage(s.rules, t.event.user, t.event.message));
        RawChange(Units(), w, s, t, a);
      case Lab(c, a) =>
        SettlesLab(w, s.gmail, c, a, FindLabel(w, s.gmail.labels, c.event.labelName));
        LabChange(Units(), w, s, c, a);
      case StartScan(req) => ScanChange(Units(), s, req);
      case _ =>
    }
  }

  lemma {:induction false} SettlementsAreBounded(w: World, s: State, steps: seq<Step>)
    requires Inv(w, s) && Valid(w, s, steps)
    ensures Sum(steps, Settles) + Potential(Units(), Exec(w, s, steps)) <= Potential(Units(), s) + Sum(steps, Extra)
  {
    if steps != [] {
      var n := |steps| - 1;
      SettlementsAreBounded(w, s, steps[..n]);
      InvAlways(w, s, steps[..n]);
      SettlesStep(w, Exec(w, s, steps[..n]), steps[n]);
    }
  }

  /** Draining bound. Over any run, publishes and settlements number at most three for each message not
      yet published (found already or during the run), two for each raw event, one for each classified
      event, and one for each raw event that comes back when its label event was already published. */
  lemma DrainingBound(w: World, s: State, steps: seq<Step>)
    requires Inv(w, s) && Valid(w, s, steps)
    ensures Sum(steps, Settles) <= LoopTotal(s.scans.loops, LoopUnits) + 2 * |s.raw| + |s.lab| + Sum(steps, Extra)
  {
    SettlementsAreBounded(w, s, steps);
    TotalAtMostTwos(s.raw, RawUnits);
    TotalAtMostOnes(s.lab, LabelUnits);
  }

  // ----- steps --------------------------------------------------------------------------

  function RawEffort(t: RawTask): nat {
    match t.pc
    case Ready => 11
    case Taken => 10
    case Ruled(_) => 9
    case Stored(_) => 8
    case Sent => 1
  }

  function LabelEffort(c: LabelTask): nat {
    match c.pc
    case LReady => 6
    case LTaken => 5
    case LMissing => 4
    case LFound(_) => 3
    case LEdited => 2
    case LMarked => 1
  }

  function LoopEffort(l: Loop): nat {
    match l.phase
    case Between => 2
    case Batch(pending) => 3 + 12 * |pending|
    case Failing => 1
  }

  function Effort(): Weights { Weights(RawEffort, LabelEffort, LoopEffort) }

  /** Steps that are the pipeline's own work: neither something new from outside nor a delivery coming back. */
  function Works(step: Step): nat {
    match step
    case Api(_, Fetch(_)) => 0
    case Api(_, _) => 1
    case Raw(_, a) => if a == Requeue || a == Detach then 0 else 1
    case Lab(_, a) => if a == LRequeue || a == LDetach then 0 else 1
    case _ => 0
  }

  /** The work that the other steps bring. */
  function Brings(step: Step): nat {
    match step
    case StartScan(_) => 2
    case Api(_, Fetch(ids)) => 1 + 12 * |ids|
    case Raw(_, Requeue) => 10
    case Raw(_, Detach) => 11
    case Lab(_, LRequeue) => 5
    case Lab(_, LDetach) => 6
    case _ => 0
  }

  lemma EffortRaw(t: RawTask, a: RawAct, c: Classification)
    requires RawEnabled(t, a)
    ensures Works(Raw(t, a)) + RawLeft(Effort(), t, a, c) <= RawEffort(t) + Brings(Raw(t, a))
  {
  }

  lemma EffortLab(w: World, g: Gmail, c: LabelTask, a: LabelAct, found: Option<LabelId>)
    requires LabEnabled(w, g, c, a)
    ensures Works(Lab(c, a)) + LabLeft(Effort(), c, a, found) <= LabelEffort(c) + Brings(Lab(c, a))
  {
  }

  lemma EffortApi(contents: map<string, Message>, q: Scans, r: RunId, a: ApiAct)
    requires ApiEnabled(q, contents, r, a)
    ensures var l := q.loops[r];
      Works(Api(r, a)) + LoopWeight(Effort(), LoopAfter(l, contents, a)) + Total(Queue(Emitted(r, l, a)), RawEffort)
      <= LoopEffort(l) + Brings(Api(r, a))
  {
    TotalOfQueue(Effort(), Emitted(r, q.loops[r], a));
  }

  lemma EffortStep(w: World, s: State, step: Step)
    requires Enabled(w, s, step) && ScansOk(s.scans)
    ensures Works(step) + Potential(Effort(), Next(w, s, step)) <= Potential(Effort(), s) + Brings(step)
  {
    match step {
      case Api(r, a) => EffortApi(s.gmail.contents, s.scans, r, a); ApiChange(Effort(), s, r, a);
      case Raw(t, a) =>
        EffortRaw(t, a, w.triage(s.rules, t.event.user, t.event.message));
        RawChange(Effort(), w, s, t, a);
      case Lab(c, a) =>
        EffortLab(w, s.gmail, c, a, FindLabel(w, s.gmail.labels, c.event.labelName));
        LabChange(Effort(), w, s, c, a);
      case StartScan(req) => ScanChange(Effort(), s, req);
      case _ =>
    }
  }

  /** Every run: the steps of the pipeline's own work are bounded by the work there was and the work
      that scans, pages and returning deliveries brought. */
  lemma {:induction false} WorkIsBounded(w: World, s: State, steps: seq<Step>)
    requires Inv(w, s) && Valid(w, s, steps)
    ensures Sum(steps, Works) + Potential(Effort(), Exec(w, s, steps))
         <= Potential(Effort(), s) + Sum(steps, Brings)
  {
    if steps != [] {
      var n := |steps| - 1;
      WorkIsBounded(w, s, steps[..n]);
      InvAlways(w, s, steps[..n]);
      EffortStep(w, Exec(w, s, steps[..n]), steps[n]);
    }
  }

  // ----- and it never gets stuck -----------------------------------------------------------

  lemma {:induction false} LongerThanAll(ids: set<LabelId>) returns (n: nat)
    ensures forall x :: x in ids && x.Other? ==> |x.id| <= n
    decreases |ids|
  {
    n := 0;
    if ids != {} {
      var y :| y in ids;
      n := LongerThanAll(ids - {y});
      if y.Other? && |y.id| > n { n := |y.id|; }
    }
  }

  /** Gmail can always find an id for a new label. */
  lemma FreshIdExists(g: Gmail) returns (id: LabelId)
    ensures FreshId(g, id)
  {
    var used := (set l | l in g.labels :: l.id)
      + (set m, x | m in g.mail && x in g.mail[m] :: x)
      + (set m, x | m in g.arrived && x in g.arrived[m] :: x);
    var n := LongerThanAll(used);
    id := Other(seq(n + 1, _ => 'x'));
    assert id !in used;
  }

  /** The next act of a raw task; a handler that lost its delivery just ends. */
  function RawProgress(t: RawTask): RawAct {
    if !t.held then Abandon
    else
      match t.pc
      case Ready => Take
      case Taken => ReadRules
      case Ruled(_) => Store
      case Stored(_) => if t.event.mode == Apply then Forward else Ack
      case Sent => Ack
  }

  lemma RawCanWorkOn(t: RawTask)
    ensures RawEnabled(t, RawProgress(t)) && Works(Raw(t, RawProgress(t))) == 1
  {
  }

  /** The next act of a label task; it gives up only when its label was created by somebody else in between. */
  lemma LabelProgress(w: World, g: Gmail, c: LabelTask) returns (a: LabelAct)
    requires c.event.id in g.mail
    ensures LabEnabled(w, g, c, a) && Works(Lab(c, a)) == 1
    ensures a.LDrop? ==> c.pc == LMissing && FindLabel(w, g.labels, c.event.labelName).Some?
  {
    match c.pc {
      case LReady => a := if c.held then LTake else LAbandon;
      case LTaken => a := if c.event.mode == Apply then LList else LSkip;
      case LMissing =>
        if FindLabel(w, g.labels, c.event.labelName).None? {
          var id := FreshIdExists(g);
          a := LCreate(id);
        } else {
          a := if c.held then LDrop(CONFLICT) else LAbandon;
        }
      case LFound(_) => a := LModify;
      case LEdited => a := LMark;
      case LMarked => a := if c.held then LAck else LAbandon;
    }
  }

  lemma LoopProgress(q: Scans, contents: map<string, Message>, r: RunId) returns (a: ApiAct)
    requires ScansOk(q) && r in q.loops
    ensures ApiEnabled(q, contents, r, a) && Works(Api(r, a)) == 1 && a != Crash
  {
    match q.loops[r].phase {
      case Between => a := Finish(true);
      case Batch(pending) => a := if pending == [] then Progress(true, true) else Publish(true);
      case Failing => a := FailRun(true);
    }
  }

  lemma LabelMessageExists(w: World, s: State, c: LabelTask)
    requires Inv(w, s) && c in s.lab
    ensures c.event.id in s.gmail.mail
  {
    var e :| e in s.scans.published[c.event.run] && Parent(e, c.event);
    assert FromRun(s.scans, s.gmail.contents, c.event.run, e);
  }

  /** While an event is on a queue or a scan is being enqueued, the pipeline can work on. */
  lemma CanWorkOn(w: World, s: State) returns (step: Step)
    requires Inv(w, s) && !(Quiescent(s) && s.scans.loops == map[])
    ensures Enabled(w, s, step) && Works(step) == 1
  {
    if s.raw != multiset{} {
      var t :| t in s.raw;
      RawCanWorkOn(t);
      step := Raw(t, RawProgress(t));
    } else if s.lab != multiset{} {
      var c :| c in s.lab;
      LabelMessageExists(w, s, c);
      var a := LabelProgress(w, s.gmail, c);
      step := Lab(c, a);
    } else {
      var r :| r in s.scans.loops;
      var a := LoopProgress(s.scans, s.gmail.contents, r);
      step := Api(r, a);
    }
  }

  /** A run of nothing but work cannot be longer than the work there is, and where it cannot be
      extended both queues are empty and every scan is enqueued. */
  lemma WorkEmptiesTheQueues(w: World, s: State, steps: seq<Step>)
    requires Inv(w, s) && Valid(w, s, steps) && forall i :: 0 <= i < |steps| ==> Works(steps[i]) == 1
    ensures |steps| <= Potential(Effort(), s)
    ensures (forall step :: Works(step) == 1 ==> !Enabled(w, Exec(w, s, steps), step)) ==>
      Quiescent(Exec(w, s, steps)) && Exec(w, s, steps).scans.loops == map[]
  {
    var end := Exec(w, s, steps);
    WorkIsBounded(w, s, steps);
    AllWork(steps);
    InvAlways(w, s, steps);
    if !(Quiescent(end) && end.scans.loops == map[]) {
      var step := CanWorkOn(w, end);
    }
  }

  lemma {:induction false} AllWork(steps: seq<Step>)
    requires forall i :: 0 <= i < |steps| ==> Works(steps[i]) == 1
    ensures Sum(steps, Works) == |steps| && Sum(steps, Brings) == 0
  {
    if steps != [] { AllWork(steps[..|steps| - 1]); }
  }
}
