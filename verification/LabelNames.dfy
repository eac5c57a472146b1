/** Label names: when a create meets a name that is already there, and that one label worker prevents it. */
module LabelNames {
  import opened Common
  import opened Pipeline
  import opened Invariants

  /** A worker is busy with it. */
  predicate Active(c: LabelTask) { c.pc != LReady }

  predicate Idle(lab: multiset<LabelTask>) { forall c | c in lab :: !Active(c) }

  /** At most one label task is being worked on, counting one whose delivery was lost meanwhile. */
  ghost predicate OneActive(lab: multiset<LabelTask>) {
    forall c, d :: c in lab && d in lab && Active(c) && Active(d) ==> c == d && lab[c] == 1
  }

  /** One worker: it takes a delivery only when it is through with the one before. */
  predicate OneAtATime(s: State, step: Step) {
    step.Lab? && step.lact == LTake ==> Idle(s.lab)
  }

  ghost function Alone(): (State, Step) -> bool {
    (s: State, step: Step) => OneAtATime(s, step)
  }

  ghost predicate AlwaysOneAtATime(w: World, s: State, steps: seq<Step>) {
    Always(w, s, steps, Alone())
  }

  /** The worker is about to create a label whose name Gmail would refuse. */
  predicate Conflicted(w: World, g: Gmail, c: LabelTask) {
    c.pc == LMissing && FindLabel(w, g.labels, c.event.labelName).Some?
  }

  ghost predicate NoConflict(w: World, g: Gmail, lab: multiset<LabelTask>) {
    forall c :: c in lab ==> !Conflicted(w, g, c)
  }

  // ----- when a conflict arises ---------------------------------------------------

  /** A create of a label that another worker has also found missing. */
  ghost predicate Collides(w: World, s: State, step: Step) {
    && step.Lab? && step.lact.LCreate?
    && exists d :: d in s.lab - multiset{step.job} && d.pc == LMissing
         && w.fold(d.event.labelName) == w.fold(step.job.event.labelName)
  }

  /** After a create exactly the tasks that look for an equal name run into it. */
  lemma ConflictAfterCreate(w: World, g: Gmail, c: LabelTask, id: LabelId, d: LabelTask)
    requires LabEnabled(w, g, c, LCreate(id)) && !Conflicted(w, g, d)
    ensures Conflicted(w, GmailAfter(w, g, c, LCreate(id)), d) <==>
      d.pc == LMissing && w.fold(d.event.labelName) == w.fold(c.event.labelName)
  {
    FindLabelAppend(w, g.labels, Label(id, c.event.labelName), d.event.labelName);
  }

  /** After a create a task is conflicted exactly if it is another one that looks for an equal name. */
  lemma ConflictsOfCreate(w: World, g: Gmail, lab: multiset<LabelTask>, c: LabelTask, id: LabelId)
    requires NoConflict(w, g, lab) && c in lab && LabEnabled(w, g, c, LCreate(id))
    ensures NoConflict(w, GmailAfter(w, g, c, LCreate(id)), lab - multiset{c} + multiset{c.(pc := LFound(id))}) <==>
      forall d :: d in lab - multiset{c} ==>
        !(d.pc == LMissing && w.fold(d.event.labelName) == w.fold(c.event.labelName))
  {
    var rest, g' := lab - multiset{c}, GmailAfter(w, g, c, LCreate(id));
    forall d | d in rest
      ensures Conflicted(w, g', d) <==> d.pc == LMissing && w.fold(d.event.labelName) == w.fold(c.event.labelName)
    {
      ConflictAfterCreate(w, g, c, id, d);
    }
    assert forall d :: d in rest + multiset{c.(pc := LFound(id))} <==> d in rest || d == c.(pc := LFound(id));
  }

  lemma ConflictsOfOther(w: World, g: Gmail, lab: multiset<LabelTask>, c: LabelTask, a: LabelAct)
    requires NoConflict(w, g, lab) && c in lab && LabEnabled(w, g, c, a) && !a.LCreate?
    ensures NoConflict(w, GmailAfter(w, g, c, a), lab - multiset{c} + LabAfter(w, g, c, a))
  {
    assert GmailAfter(w, g, c, a).labels == g.labels;
  }

  lemma ConflictStepLab(w: World, s: State, c: LabelTask, a: LabelAct)
    requires NoConflict(w, s.gmail, s.lab) && c in s.lab && LabEnabled(w, s.gmail, c, a)
    ensures var s' := NextLab(w, s, c, a); NoConflict(w, s'.gmail, s'.lab) <==> !Collides(w, s, Lab(c, a))
  {
    if a.LCreate? {
      ConflictsOfCreate(w, s.gmail, s.lab, c, a.id);
    } else {
      ConflictsOfOther(w, s.gmail, s.lab, c, a);
    }
  }

  /** A step brings about a conflict exactly when it creates a label another worker found missing too. */
  lemma ConflictStep(w: World, s: State, step: Step)
    requires NoConflict(w, s.gmail, s.lab) && Enabled(w, s, step)
    ensures var s' := Next(w, s, step); NoConflict(w, s'.gmail, s'.lab) <==> !Collides(w, s, step)
  {
    match step {
      case Lab(c, a) => ConflictStepLab(w, s, c, a);
      case Raw(t, a) => assert forall c :: c in Forwarded(t, a) ==> !Active(c);
      case _ =>
    }
  }

  ghost function Apart(w: World): (State, Step) -> bool {
    (s: State, step: Step) => !Collides(w, s, step)
  }

  ghost predicate NeverCollides(w: World, s: State, steps: seq<Step>) {
    Always(w, s, steps, Apart(w))
  }

  ghost function Peace(w: World): (State, seq<Step>) -> bool {
    (s: State, steps: seq<Step>) => NoConflict(w, s.gmail, s.lab)
  }

  /** No state the run goes through has a worker about to create a label that exists. */
  ghost predicate ConflictFree(w: World, s: State, steps: seq<Step>) {
    Throughout(w, s, steps, Peace(w))
  }

  /** The exact condition, for any number of workers: a run is free of label conflicts if and only if no
      create of it is for a label that another worker has also found missing. */
  lemma {:induction false} ConflictFreeUnlessColliding(w: World, s: State, steps: seq<Step>)
    requires NoConflict(w, s.gmail, s.lab) && Valid(w, s, steps)
    ensures ConflictFree(w, s, steps) <==> NeverCollides(w, s, steps)
  {
    if steps != [] {
      var n := |steps| - 1;
      var before := Exec(w, s, steps[..n]);
      ConflictFreeUnlessColliding(w, s, steps[..n]);
      if NoConflict(w, before.gmail, before.lab) {
        ConflictStep(w, before, steps[n]);
      } else {
        assert !ConflictFree(w, s, steps[..n]);
      }
    }
  }

  // ----- one worker ------------------------------------------------------------------

  lemma OneActiveKept(w: World, g: Gmail, lab: multiset<LabelTask>, c: LabelTask, a: LabelAct)
    requires OneActive(lab) && c in lab && LabEnabled(w, g, c, a) && (a == LTake ==> Idle(lab))
    ensures OneActive(lab - multiset{c} + LabAfter(w, g, c, a))
  {
    assert Active(c) ==> forall d :: d in lab - multiset{c} ==> !Active(d);
  }

  /** One worker collides with nobody. */
  lemma OneNeverCollides(w: World, s: State, step: Step)
    requires OneActive(s.lab) && Enabled(w, s, step)
    ensures !Collides(w, s, step)
  {
    if step.Lab? && Active(step.job) {
      assert forall d :: d in s.lab - multiset{step.job} ==> !Active(d);
    }
  }

  lemma StepKeepsApart(w: World, s: State, step: Step)
    requires OneActive(s.lab) && NoConflict(w, s.gmail, s.lab) && Enabled(w, s, step) && OneAtATime(s, step)
    ensures var s' := Next(w, s, step); OneActive(s'.lab) && NoConflict(w, s'.gmail, s'.lab)
  {
    OneNeverCollides(w, s, step);
    ConflictStep(w, s, step);
    match step {
      case Lab(c, a) => OneActiveKept(w, s.gmail, s.lab, c, a);
      case Raw(t, a) => assert forall c :: c in Forwarded(t, a) ==> !Active(c);
      case _ =>
    }
  }

  lemma {:induction false} RunKeepsApart(w: World, s: State, steps: seq<Step>)
    requires OneActive(s.lab) && NoConflict(w, s.gmail, s.lab)
    requires Valid(w, s, steps) && AlwaysOneAtATime(w, s, steps)
    ensures var s' := Exec(w, s, steps); OneActive(s'.lab) && NoConflict(w, s'.gmail, s'.lab)
  {
    if steps != [] {
      var n := |steps| - 1;
      RunKeepsApart(w, s, steps[..n]);
      StepKeepsApart(w, Exec(w, s, steps[..n]), steps[n]);
    }
  }

  /** With one label worker no create meets an existing name, through any redeliveries and crashes: whenever
      the search found nothing, the name is still free, so names stay distinct by the worker's own doing. */
  lemma OneWorkerNeverConflicts(w: World, s0: State, steps: seq<Step>, s: State, c: LabelTask, id: LabelId)
    requires Initial(w, s0) && Valid(w, s0, steps) && AlwaysOneAtATime(w, s0, steps) && s == Exec(w, s0, steps)
    requires c in s.lab && c.pc == LMissing && FreshId(s.gmail, id)
    ensures !Conflicted(w, s.gmail, c) && Enabled(w, s, Lab(c, LCreate(id)))
  {
    RunKeepsApart(w, s0, steps);
  }
}
