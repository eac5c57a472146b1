/** Runs with their steps in hand: what one more step of a handler does to a run. */
module Traces {
  import opened Common
  import opened Rules
  import opened Classifier
  import opened Pipeline

  /** The steps lead from one state to the other. */
  ghost predicate Runs(w: World, s: State, steps: seq<Step>, t: State) {
    Valid(w, s, steps) && Exec(w, s, steps) == t
  }

  lemma RunsNone(w: World, s: State)
    ensures Runs(w, s, [], s)
  {
  }

  lemma RunsNext(w: World, s: State, steps: seq<Step>, t: State, step: Step)
    requires Runs(w, s, steps, t) && Enabled(w, t, step)
    ensures Runs(w, s, steps + [step], Next(w, t, step))
  {
    ExecStep(w, s, steps, step);
  }

  /** One act of a raw task beside the others in `rest`. */
  lemma RawBeside(w: World, t: State, rest: multiset<RawTask>, x: RawTask, a: RawAct, next: multiset<RawTask>)
    requires t.raw == rest + multiset{x} && RawEnabled(x, a) && next == RawAfter(w, t.rules, x, a)
    ensures Enabled(w, t, Raw(x, a))
    ensures Next(w, t, Raw(x, a)) ==
      t.(raw := rest + next, rows := RowsAfterRaw(t.rows, x, a), lab := t.lab + Forwarded(x, a))
  {
    assert t.raw - multiset{x} + RawAfter(w, t.rules, x, a) == rest + next;
  }

  /** One act of a label task beside the others in `rest`. */
  lemma LabBeside(w: World, t: State, rest: multiset<LabelTask>, c: LabelTask, a: LabelAct, next: multiset<LabelTask>)
    requires t.lab == rest + multiset{c} && LabEnabled(w, t.gmail, c, a) && next == LabAfter(w, t.gmail, c, a)
    ensures Enabled(w, t, Lab(c, a))
    ensures Next(w, t, Lab(c, a)) ==
      t.(lab := rest + next, rows := RowsAfterLab(t.rows, c, a), gmail := GmailAfter(w, t.gmail, c, a),
         lost := LostAfter(t.lost, t.rows, c, a))
  {
    assert t.lab - multiset{c} + LabAfter(w, t.gmail, c, a) == rest + next;
  }

  lemma RunsRaw(w: World, s: State, steps: seq<Step>, t: State, rest: multiset<RawTask>, x: RawTask, a: RawAct,
                next: multiset<RawTask>)
    requires Runs(w, s, steps, t) && t.raw == rest + multiset{x} && RawEnabled(x, a)
    requires next == RawAfter(w, t.rules, x, a)
    ensures Runs(w, s, steps + [Raw(x, a)],
      t.(raw := rest + next, rows := RowsAfterRaw(t.rows, x, a), lab := t.lab + Forwarded(x, a)))
  {
    RawBeside(w, t, rest, x, a, next);
    RunsNext(w, s, steps, t, Raw(x, a));
  }

  lemma RunsLab(w: World, s: State, steps: seq<Step>, t: State, rest: multiset<LabelTask>, c: LabelTask, a: LabelAct,
                next: multiset<LabelTask>)
    requires Runs(w, s, steps, t) && t.lab == rest + multiset{c} && LabEnabled(w, t.gmail, c, a)
    requires next == LabAfter(w, t.gmail, c, a)
    ensures Runs(w, s, steps + [Lab(c, a)],
      t.(lab := rest + next, rows := RowsAfterLab(t.rows, c, a), gmail := GmailAfter(w, t.gmail, c, a),
         lost := LostAfter(t.lost, t.rows, c, a)))
  {
    LabBeside(w, t, rest, c, a, next);
    RunsNext(w, s, steps, t, Lab(c, a));
  }
}
