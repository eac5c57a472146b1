/** A scan can always be enqueued to the end and brought to rest without dropping or stranding anything, with
    any number of label workers: a worker that finds its label created by somebody else, and would be refused
    when it creates it too, starts its event over. */
module Finishing {
  import opened Common
  import opened Pipeline
  import opened Invariants
  import opened LabelNames
  import opened NoLostWork
  import opened Draining
  import opened ExactlyOnce

  // ----- label workers that found no label ----------------------------------------

  function MissingOne(c: LabelTask): nat { if c.pc == LMissing then 1 else 0 }

  /** How many label workers are about to create a label. */
  ghost function Missing(lab: multiset<LabelTask>): nat { Total(lab, MissingOne) }

  function MissingOnes(): Weights { Weights(_ => 0, MissingOne, _ => 0) }

  lemma MissingLeft(w: World, g: Gmail, c: LabelTask, a: LabelAct)
    requires LabEnabled(w, g, c, a)
    ensures LabLeft(MissingOnes(), c, a, FindLabel(w, g.labels, c.event.labelName)) ==
      if a == LList && FindLabel(w, g.labels, c.event.labelName).None? then 1
      else if a == LDetach then MissingOne(c) else 0
  {
  }

  lemma MissingChange(w: World, g: Gmail, lab: multiset<LabelTask>, c: LabelTask, a: LabelAct)
    requires c in lab && LabEnabled(w, g, c, a)
    ensures Missing(lab - multiset{c} + LabAfter(w, g, c, a)) + MissingOne(c) ==
      Missing(lab) + if a == LList && FindLabel(w, g.labels, c.event.labelName).None? then 1
                     else if a == LDetach then MissingOne(c) else 0
  {
    MissingLeft(w, g, c, a);
    TotalsOfLab(MissingOnes(), w, g, c, a);
    TotalTakeOut(lab, MissingOne, c);
    TotalUnion(lab - multiset{c}, LabAfter(w, g, c, a), MissingOne);
  }

  lemma NoneMissing(lab: multiset<LabelTask>, c: LabelTask)
    requires Missing(lab) == 0 && c in lab
    ensures c.pc != LMissing
  {
    TotalTakeOut(lab, MissingOne, c);
  }

  lemma OthersNotMissing(lab: multiset<LabelTask>, c: LabelTask, d: LabelTask)
    requires Missing(lab) <= MissingOne(c) && c in lab && d in lab - multiset{c}
    ensures d.pc != LMissing
  {
    TotalTakeOut(lab, MissingOne, c);
    NoneMissing(lab - multiset{c}, d);
  }

  /** At most one worker is about to create a label, and it will not be refused. */
  ghost predicate Peaceful(w: World, g: Gmail, lab: multiset<LabelTask>) {
    Missing(lab) <= 1 && NoConflict(w, g, lab)
  }

  /** It stays so while that worker goes first. */
  lemma StaysPeaceful(w: World, g: Gmail, lab: multiset<LabelTask>, c: LabelTask, a: LabelAct)
    requires c in lab && LabEnabled(w, g, c, a) && Missing(lab) <= MissingOne(c) && a != LDetach
    ensures Peaceful(w, GmailAfter(w, g, c, a), lab - multiset{c} + LabAfter(w, g, c, a))
  {
    MissingChange(w, g, lab, c, a);
    forall d | d in lab - multiset{c} ensures d.pc != LMissing { OthersNotMissing(lab, c, d); }
  }

  // ----- the next step ------------------------------------------------------------------

  /** What the next step must be: of this scan, by label workers that take turns, dropping and stranding nothing,
      and starting over only where a create would be refused. */
  ghost predicate Good(w: World, s: State, r: RunId, step: Step) {
    && Enabled(w, s, step) && Clean(r, step) && OneAtATime(s, step) && !Strands(s, r, step)
    && (step.Lab? ==> !step.lact.LDrop? && (step.lact == LRequeue ==> Conflicted(w, s.gmail, step.job)))
  }

  /** Who goes first: somebody about to create a label, or else somebody who is busy. */
  lemma NextLabelTask(lab: multiset<LabelTask>) returns (c: LabelTask)
    requires lab != multiset{}
    ensures c in lab && (Active(c) || Idle(lab))
    ensures Missing(lab) > 0 ==> c.pc == LMissing
  {
    c :| c in lab;
    if x :| x in lab && x.pc == LMissing {
      c := x;
    } else {
      NoneAtMissing(lab);
      if y :| y in lab && Active(y) { c := y; }
    }
  }

  lemma {:induction false} NoneAtMissing(lab: multiset<LabelTask>)
    requires forall x :: x in lab ==> x.pc != LMissing
    ensures Missing(lab) == 0
    decreases |lab|
  {
    if lab != multiset{} {
      var x :| x in lab;
      TotalTakeOut(lab, MissingOne, x);
      NoneAtMissing(lab - multiset{x});
    }
  }

  lemma NextLabelAct(w: World, g: Gmail, c: LabelTask) returns (a: LabelAct)
    requires c.event.id in g.mail
    ensures LabEnabled(w, g, c, a) && !a.LDrop? && a != LDetach && (a == LTake ==> !Active(c))
    ensures a == LRequeue ==> Conflicted(w, g, c)
    ensures !Conflicted(w, g, c) ==> Works(Lab(c, a)) == 1
  {
    if Conflicted(w, g, c) {
      a := if c.held then LRequeue else LAbandon;
    } else {
      a := LabelProgress(w, g, c);
    }
  }

  lemma NotPeaceful(w: World, g: Gmail, lab: multiset<LabelTask>)
    requires !Peaceful(w, g, lab)
    ensures Missing(lab) > 0
  {
    if Missing(lab) == 0 {
      forall c | c in lab ensures !Conflicted(w, g, c) { NoneMissing(lab, c); }
    }
  }

  /** A label act: it brings the label workers to peace, or keeps them there. */
  lemma NextLabelWork(w: World, g: Gmail, lab: multiset<LabelTask>) returns (c: LabelTask, a: LabelAct)
    requires lab != multiset{} && forall x :: x in lab ==> x.event.id in g.mail
    ensures c in lab && LabEnabled(w, g, c, a) && (a == LTake ==> Idle(lab))
    ensures !a.LDrop? && (a == LRequeue ==> Conflicted(w, g, c))
    ensures var after := lab - multiset{c} + LabAfter(w, g, c, a);
      if Peaceful(w, g, lab) then Peaceful(w, GmailAfter(w, g, c, a), after) && Works(Lab(c, a)) == 1
      else Missing(after) < Missing(lab)
  {
    c := NextLabelTask(lab);
    a := NextLabelAct(w, g, c);
    MissingChange(w, g, lab, c, a);
    if Peaceful(w, g, lab) {
      StaysPeaceful(w, g, lab, c, a);
    } else {
      NotPeaceful(w, g, lab);
    }
  }

  lemma MessagesExist(w: World, s: State)
    requires Inv(w, s)
    ensures forall x :: x in s.lab ==> x.event.id in s.gmail.mail
  {
    forall x | x in s.lab ensures x.event.id in s.gmail.mail { LabelMessageExists(w, s, x); }
  }

  lemma NextLabelStep(w: World, s: State, r: RunId) returns (step: Step)
    requires s.lab != multiset{} && forall x :: x in s.lab ==> x.event.id in s.gmail.mail
    ensures Good(w, s, r, step)
    ensures var s' := Next(w, s, step);
      if Peaceful(w, s.gmail, s.lab) then Peaceful(w, s'.gmail, s'.lab) && Works(step) == 1
      else Missing(s'.lab) < Missing(s.lab)
  {
    var c, a := NextLabelWork(w, s.gmail, s.lab);
    step := Lab(c, a);
  }

  /** A classifier handler goes on to its end, unless it lost its delivery. */
  lemma NextRawStep(w: World, s: State, r: RunId, t: RawTask) returns (step: Step)
    requires t in s.raw
    ensures Good(w, s, r, step) && Works(step) == 1
    ensures Peaceful(w, s.gmail, s.lab) ==> Peaceful(w, Next(w, s, step).gmail, Next(w, s, step).lab)
  {
    RawCanWorkOn(t);
    step := Raw(t, RawProgress(t));
    ForwardedIsReady(t, step.act);
    TotalUnion(s.lab, Forwarded(t, step.act), MissingOne);
  }

  lemma ForwardedIsReady(t: RawTask, a: RawAct)
    requires RawEnabled(t, a)
    ensures Missing(Forwarded(t, a)) == 0 && forall c :: c in Forwarded(t, a) ==> !Active(c)
  {
    NoneAtMissing(Forwarded(t, a));
  }

  /** The enqueue loop goes on to its end. */
  lemma NextLoopStep(w: World, s: State, r: RunId) returns (step: Step)
    requires ScansOk(s.scans) && r in s.scans.loops
    ensures Good(w, s, r, step) && Works(step) == 1
    ensures Next(w, s, step).gmail == s.gmail && Next(w, s, step).lab == s.lab
  {
    var a := LoopProgress(s.scans, s.gmail.contents, r);
    step := Api(r, a);
  }

  /** The scan's loop has ended and both queues are empty. */
  predicate AtRest(s: State, r: RunId) {
    Quiescent(s) && r !in s.scans.loops
  }

  /** How far the label workers are from peace. */
  ghost function Quarrel(w: World, s: State): nat {
    if Peaceful(w, s.gmail, s.lab) then 0 else Missing(s.lab)
  }

  lemma NextStep(w: World, s: State, r: RunId) returns (step: Step)
    requires Inv(w, s) && !AtRest(s, r)
    ensures Good(w, s, r, step)
    ensures var s' := Next(w, s, step);
      Quarrel(w, s') < Quarrel(w, s) || (Quarrel(w, s') == Quarrel(w, s) && Works(step) == 1)
  {
    MessagesExist(w, s);
    if !Peaceful(w, s.gmail, s.lab) {
      NotPeaceful(w, s.gmail, s.lab);
      step := NextLabelStep(w, s, r);
    } else if r in s.scans.loops {
      step := NextLoopStep(w, s, r);
    } else if s.raw != multiset{} {
      var t :| t in s.raw;
      step := NextRawStep(w, s, r, t);
    } else {
      step := NextLabelStep(w, s, r);
    }
  }

  // ----- all of them ----------------------------------------------------------------------

  /** A run of the scan alone. */
  ghost predicate ScanOnly(w: World, s: State, r: RunId, steps: seq<Step>) {
    Valid(w, s, steps) && AllClean(r, steps)
  }

  /** What one more good step does to what was true of all steps. */
  lemma OneMoreGood(w: World, s: State, r: RunId, steps: seq<Step>, step: Step)
    requires ScanOnly(w, s, r, steps) && Good(w, Exec(w, s, steps), r, step)
    ensures ScanOnly(w, s, r, steps + [step])
    ensures NeverStrands(w, s, r, steps) ==> NeverStrands(w, s, r, steps + [step])
    ensures AlwaysOneAtATime(w, s, steps) ==> AlwaysOneAtATime(w, s, steps + [step])
    ensures Exec(w, s, steps + [step]) == Next(w, Exec(w, s, steps), step)
    ensures Exec(w, s, steps + [step]).lost.drops == Exec(w, s, steps).lost.drops
  {
    ExecStep(w, s, steps, step);
    assert (steps + [step])[..|steps|] == steps;
  }

  lemma NothingBrought(step: Step)
    requires Works(step) == 1
    ensures Brings(step) == 0
  {
  }

  /** Work on until the scan is at rest. */
  lemma {:induction false} FinishFrom(w: World, s: State, r: RunId, steps: seq<Step>, t: State)
    returns (all: seq<Step>)
    requires ScanOnly(w, s, r, steps) && t == Exec(w, s, steps) && Inv(w, t)
    ensures steps <= all && ScanOnly(w, s, r, all) && AtRest(Exec(w, s, all), r)
    ensures Exec(w, s, all).lost.drops == t.lost.drops
    ensures NeverStrands(w, s, r, steps) ==> NeverStrands(w, s, r, all)
    ensures AlwaysOneAtATime(w, s, steps) ==> AlwaysOneAtATime(w, s, all)
    decreases Quarrel(w, t), Potential(Effort(), t)
  {
    if AtRest(t, r) {
      all := steps;
    } else {
      var step := NextStep(w, t, r);
      InvKept(w, t, step);
      EffortStep(w, t, step);
      if Works(step) == 1 { NothingBrought(step); }
      OneMoreGood(w, s, r, steps, step);
      all := FinishFrom(w, s, r, steps + [step], Next(w, t, step));
    }
  }

  /** Whatever a scan has been through, with any number of label workers, it can be enqueued to its end and brought
      to rest with no event dropped and no row stranded that was not before, and by one label worker at a time if
      that is how it was done so far; so the exactly-once theorems speak about every such scan. */
  lemma EveryScanCanFinish(w: World, s0: State, req: Request, s1: State, steps: seq<Step>, r: RunId)
    requires Reachable(w, s0) && Quiescent(s0) && r == s0.scans.nextRun
    requires s1 == s0.(scans := NewScan(s0.scans, req)) && ScanOnly(w, s1, r, steps)
    ensures exists all ::
      && steps <= all && ScanOnly(w, s1, r, all) && AtRest(Exec(w, s1, all), r)
      && Exec(w, s1, all).lost.drops == Exec(w, s1, steps).lost.drops
      && (NeverStrands(w, s1, r, steps) ==> NeverStrands(w, s1, r, all))
      && (AlwaysOneAtATime(w, s1, steps) ==> AlwaysOneAtATime(w, s1, all))
  {
    InvReachable(w, s0);
    InvKeptScan(w, s0, req);
    InvAlways(w, s1, steps);
    var all := FinishFrom(w, s1, r, steps, Exec(w, s1, steps));
  }

  /** The outcome is the reference's. */
  ghost predicate Matches(w: World, s0: State, s: State, r: RunId) {
    r in s.scans.published && Outcome(s.rows, s.gmail.mail) == Reference(w, s0, s, r)
  }

  /** A scan that has dropped and stranded nothing so far can be finished with exactly the reference's outcome. */
  lemma EveryScanCanSucceed(w: World, s0: State, req: Request, s1: State, steps: seq<Step>, r: RunId)
    requires Reachable(w, s0) && Quiescent(s0) && r == s0.scans.nextRun
    requires s1 == s0.(scans := NewScan(s0.scans, req)) && ScanOnly(w, s1, r, steps)
    requires NoDrops(Exec(w, s1, steps).lost.drops, r) && NeverStrands(w, s1, r, steps)
    ensures exists all ::
      && steps <= all && Valid(w, s1, all) && AtRest(Exec(w, s1, all), r)
      && Matches(w, s0, Exec(w, s1, all), r)
  {
    EveryScanCanFinish(w, s0, req, s1, steps, r);
    var all :| steps <= all && ScanOnly(w, s1, r, all) && AtRest(Exec(w, s1, all), r)
      && Exec(w, s1, all).lost.drops == Exec(w, s1, steps).lost.drops && NeverStrands(w, s1, r, all);
    UnstrandedScan(w, s0, req, s1, all, Exec(w, s1, all), r);
  }
}
