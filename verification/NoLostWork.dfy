/** No published event is forgotten, and no row is left classified with nobody to label it. */
module NoLostWork {
  import opened Common
  import opened Rules
  import opened Classifier
  import opened Pipeline
  import opened Invariants

  // ----- published events reach a row -------------------------------------------

  ghost predicate Awaited(raw: multiset<RawTask>, e: RawEvent) {
    exists t :: t in raw && t.held && t.event == e
  }

  ghost predicate HasRow(rows: map<Key, Row>, base: RunId, k: Key) {
    k in rows && rows[k].run >= base
  }

  /** An event published by a run from `base` on is still on the queue or unsettled in a handler, or
      its row was written by such a run. With `base` zero this is every published event. */
  ghost predicate EventsKept(published: map<RunId, seq<RawEvent>>, raw: multiset<RawTask>, rows: map<Key, Row>,
                             base: RunId) {
    forall r, e :: r in published && r >= base && e in published[r] ==> Awaited(raw, e) || HasRow(rows, base, KeyOf(e))
  }

  /** Handlers past their upsert find a row of a run from `base` on. */
  ghost predicate Landed(raw: multiset<RawTask>, rows: map<Key, Row>, base: RunId) {
    forall t :: t in raw ==>
      t.event.run >= base && (t.pc.Stored? || t.pc == Sent ==> HasRow(rows, base, KeyOf(t.event)))
  }

  /** Only an acknowledgement takes a held delivery away for good. */
  lemma HeldSuccessor(w: World, rules: seq<UserRule>, t: RawTask, a: RawAct) returns (x: RawTask)
    requires RawEnabled(t, a) && t.held && a != Ack
    ensures x in RawAfter(w, rules, t, a) && x.held && x.event == t.event
    ensures a != Forward && t.pc != Sent ==> x.pc != Sent
  {
    match a {
      case Take => x := t.(pc := Taken);
      case ReadRules => x := t.(pc := Ruled(w.triage(rules, t.event.user, t.event.message)));
      case Store => x := t.(pc := Stored(t.pc.result));
      case Forward => x := t.(pc := Sent);
      case _ => x := RawTask(t.event, Ready, true);
    }
  }

  lemma OtherStays<T>(m: multiset<T>, t: T, next: multiset<T>, x: T)
    requires x in m && x != t
    ensures x in m - multiset{t} + next
  {
  }

  /** A task that leaves its place without leaving a held one behind has its row. */
  lemma AwaitedKept(w: World, s: State, base: RunId, t: RawTask, a: RawAct, e: RawEvent)
    requires Landed(s.raw, s.rows, base) && t in s.raw && RawEnabled(t, a)
    requires Awaited(s.raw, e)
    ensures var s' := NextRaw(w, s, t, a); Awaited(s'.raw, e) || HasRow(s'.rows, base, KeyOf(e))
  {
    var x :| x in s.raw && x.held && x.event == e;
    if x != t {
      OtherStays(s.raw, t, RawAfter(w, s.rules, t, a), x);
    } else if a != Ack {
      x := HeldSuccessor(w, s.rules, t, a);
    }
  }

  lemma EventsKeptRaw(w: World, s: State, base: RunId, t: RawTask, a: RawAct)
    requires Landed(s.raw, s.rows, base) && t in s.raw && RawEnabled(t, a)
    requires EventsKept(s.scans.published, s.raw, s.rows, base)
    ensures var s' := NextRaw(w, s, t, a); EventsKept(s.scans.published, s'.raw, s'.rows, base)
  {
    var s' := NextRaw(w, s, t, a);
    forall e | Awaited(s.raw, e) ensures Awaited(s'.raw, e) || HasRow(s'.rows, base, KeyOf(e)) {
      AwaitedKept(w, s, base, t, a, e);
    }
    assert forall k :: HasRow(s.rows, base, k) ==> HasRow(s'.rows, base, k);
  }

  /** A bigger queue awaits at least as much. */
  lemma AwaitedMore(raw: multiset<RawTask>, more: multiset<RawTask>)
    ensures forall e :: Awaited(raw, e) ==> Awaited(raw + more, e)
    ensures forall e :: RawTask(e, Ready, true) in more ==> Awaited(raw + more, e)
  {
    forall e | Awaited(raw, e) ensures Awaited(raw + more, e) {
      var x :| x in raw && x.held && x.event == e;
      assert x in raw + more;
    }
    forall e | RawTask(e, Ready, true) in more ensures Awaited(raw + more, e) {
      assert RawTask(e, Ready, true) in raw + more;
    }
  }

  lemma EventsKeptApi(s: State, base: RunId, r: RunId, a: ApiAct)
    requires ApiEnabled(s.scans, s.gmail.contents, r, a) && EventsKept(s.scans.published, s.raw, s.rows, base)
    ensures var s' := NextApi(s, r, a); EventsKept(s'.scans.published, s'.raw, s.rows, base)
  {
    var es := Emitted(r, s.scans.loops[r], a);
    QueueOfOne(es);
    AwaitedMore(s.raw, Queue(es));
  }

  lemma EventsKeptLab(w: World, s: State, base: RunId, c: LabelTask, a: LabelAct)
    requires c in s.lab && LabEnabled(w, s.gmail, c, a) && EventsKept(s.scans.published, s.raw, s.rows, base)
    ensures var s' := NextLab(w, s, c, a); EventsKept(s.scans.published, s.raw, s'.rows, base)
  {
    assert forall k :: HasRow(s.rows, base, k) ==> HasRow(RowsAfterLab(s.rows, c, a), base, k);
  }

  lemma EventsKeptStep(w: World, s: State, base: RunId, step: Step)
    requires Landed(s.raw, s.rows, base) && Enabled(w, s, step)
    requires EventsKept(s.scans.published, s.raw, s.rows, base)
    ensures var s' := Next(w, s, step); EventsKept(s'.scans.published, s'.raw, s'.rows, base)
  {
    match step {
      case Api(r, a) => EventsKeptApi(s, base, r, a);
      case Raw(t, a) => EventsKeptRaw(w, s, base, t, a);
      case Lab(c, a) => EventsKeptLab(w, s, base, c, a);
      case _ =>
    }
  }

  lemma {:induction false} EventsKeptAlways(w: World, s: State, steps: seq<Step>)
    requires Initial(w, s) && Valid(w, s, steps)
    ensures var s' := Exec(w, s, steps); EventsKept(s'.scans.published, s'.raw, s'.rows, 0)
  {
    if steps != [] {
      var n := |steps| - 1;
      EventsKeptAlways(w, s, steps[..n]);
      InvInitial(w, s);
      InvAlways(w, s, steps[..n]);
      EventsKeptStep(w, Exec(w, s, steps[..n]), 0, steps[n]);
    }
  }

  /** In every reachable state each published raw event is unsettled or has a row. */
  lemma NoEventLost(w: World, s: State)
    requires Reachable(w, s)
    ensures forall r, e :: r in s.scans.published && e in s.scans.published[r] ==>
      Awaited(s.raw, e) || KeyOf(e) in s.rows
  {
    var s0, steps :| Initial(w, s0) && Valid(w, s0, steps) && Exec(w, s0, steps) == s;
    EventsKeptAlways(w, s0, steps);
  }

  // ----- and apply events reach the mailbox ---------------------------------------

  /** The event has been seen to the end: its message edited, or its label event dropped. */
  ghost predicate Settled(edits: set<Edit>, drops: set<Drop>, e: RawEvent) {
    || (exists x :: x in edits && Parent(e, x.event))
    || (exists d :: d in drops && Parent(e, d.event))
  }

  /** Somebody who has its delivery will see to the event. */
  ghost predicate Pending(raw: multiset<RawTask>, lab: multiset<LabelTask>, e: RawEvent) {
    || (exists t :: t in raw && t.held && t.pc != Sent && t.event == e)
    || (exists c :: c in lab && c.held && Parent(e, c.event))
  }

  ghost predicate Pursued(s: State, e: RawEvent) {
    Pending(s.raw, s.lab, e) || Settled(s.gmail.edits, s.lost.drops, e)
  }

  /** Every apply event of a run from `base` on. */
  ghost predicate AllPursued(s: State, base: RunId) {
    forall r, e {:trigger s.scans.published[r], Pursued(s, e)} ::
      r in s.scans.published && r >= base && e in s.scans.published[r] && e.mode == Apply ==> Pursued(s, e)
  }

  lemma PendingRaw(w: World, rules: seq<UserRule>, raw: multiset<RawTask>, lab: multiset<LabelTask>, t: RawTask,
                   a: RawAct, e: RawEvent)
    requires t in raw && RawEnabled(t, a) && Pending(raw, lab, e) && e.mode == Apply
    ensures Pending(raw - multiset{t} + RawAfter(w, rules, t, a), lab + Forwarded(t, a), e)
  {
    if x :| x in raw && x.held && x.pc != Sent && x.event == e {
      if x != t {
        OtherStays(raw, t, RawAfter(w, rules, t, a), x);
      } else if a == Forward {
        assert LabelTask(LabelEventOf(e, t.pc.result), LReady, true) in Forwarded(t, a);
      } else {
        var y := HeldSuccessor(w, rules, t, a);
      }
    } else if c :| c in lab && c.held && Parent(e, c.event) {
      assert c in lab + Forwarded(t, a);
    }
  }

  /** A held label task stays until it is acknowledged or dropped. */
  lemma HeldLabelSuccessor(w: World, g: Gmail, c: LabelTask, a: LabelAct) returns (x: LabelTask)
    requires LabEnabled(w, g, c, a) && c.held && a != LAck && !a.LDrop?
    ensures x in LabAfter(w, g, c, a) && x.held && x.event == c.event
    ensures a != LMark && a != LSkip && c.pc != LMarked ==> x.pc != LMarked
  {
    match a {
      case LTake => x := c.(pc := LTaken);
      case LSkip => x := c.(pc := LMarked);
      case LList =>
        var found := FindLabel(w, g.labels, c.event.labelName);
        x := c.(pc := if found.Some? then LFound(found.value) else LMissing);
      case LCreate(id) => x := c.(pc := LFound(id));
      case LModify => x := c.(pc := LEdited);
      case LMark => x := c.(pc := LMarked);
      case _ => x := LabelTask(c.event, LReady, true);
    }
  }

  /** An act of a held label task leaves one with the same event, unless it settles the event. */
  lemma PendingLab(w: World, g: Gmail, raw: multiset<RawTask>, lab: multiset<LabelTask>, c: LabelTask, a: LabelAct,
                   e: RawEvent)
    requires c in lab && LabEnabled(w, g, c, a) && Pending(raw, lab, e)
    ensures Pending(raw, lab - multiset{c} + LabAfter(w, g, c, a), e) || (Parent(e, c.event) && (a == LAck || a.LDrop?))
  {
    if x :| x in lab && x.held && Parent(e, x.event) {
      if x != c {
        OtherStays(lab, c, LabAfter(w, g, c, a), x);
      } else if a != LAck && !a.LDrop? {
        var y := HeldLabelSuccessor(w, g, c, a);
      }
    }
  }

  lemma PursuedLab(w: World, s: State, c: LabelTask, a: LabelAct, e: RawEvent)
    requires c in s.lab && LabEnabled(w, s.gmail, c, a) && EditedOk(s.gmail.edits, s.lab) && Pursued(s, e)
    ensures Pursued(NextLab(w, s, c, a), e)
  {
    var s' := NextLab(w, s, c, a);
    assert s.gmail.edits <= s'.gmail.edits && s.lost.drops <= s'.lost.drops;
    if Pending(s.raw, s.lab, e) {
      PendingLab(w, s.gmail, s.raw, s.lab, c, a, e);
      if a == LAck { assert HasEdit(s.gmail.edits, c.event); }
      if a.LDrop? { assert Drop(c.event, a.error) in s'.lost.drops; }
    }
  }

  lemma AllPursuedApi(s: State, base: RunId, r: RunId, a: ApiAct)
    requires ApiEnabled(s.scans, s.gmail.contents, r, a) && AllPursued(s, base)
    ensures AllPursued(NextApi(s, r, a), base)
  {
    var s' := NextApi(s, r, a);
    var es := Emitted(r, s.scans.loops[r], a);
    QueueOfOne(es);
    forall e | Pursued(s, e) ensures Pursued(s', e) {
      if t :| t in s.raw && t.held && t.pc != Sent && t.event == e { assert t in s'.raw; }
    }
    forall e | e in es ensures Pursued(s', e) {
      assert RawTask(e, Ready, true) in s'.raw;
    }
  }

  lemma AllPursuedStep(w: World, s: State, base: RunId, step: Step)
    requires EditedOk(s.gmail.edits, s.lab) && AllPursued(s, base) && Enabled(w, s, step)
    ensures AllPursued(Next(w, s, step), base)
  {
    match step {
      case Api(r, a) => AllPursuedApi(s, base, r, a);
      case Raw(t, a) =>
        forall e: RawEvent | e.mode == Apply && Pursued(s, e) ensures Pursued(NextRaw(w, s, t, a), e) {
          if Pending(s.raw, s.lab, e) { PendingRaw(w, s.rules, s.raw, s.lab, t, a, e); }
        }
      case Lab(c, a) =>
        forall e | Pursued(s, e) ensures Pursued(NextLab(w, s, c, a), e) { PursuedLab(w, s, c, a, e); }
      case _ => assert forall e :: Pursued(s, e) ==> Pursued(Next(w, s, step), e);
    }
  }

  lemma {:induction false} AllPursuedAlways(w: World, s: State, steps: seq<Step>)
    requires Inv(w, s) && AllPursued(s, 0) && Valid(w, s, steps)
    ensures AllPursued(Exec(w, s, steps), 0)
  {
    if steps != [] {
      var n := |steps| - 1;
      AllPursuedAlways(w, s, steps[..n]);
      InvAlways(w, s, steps[..n]);
      AllPursuedStep(w, Exec(w, s, steps[..n]), 0, steps[n]);
    }
  }

  lemma SettledAtRest(s: State, base: RunId, r: RunId, e: RawEvent)
    requires AllPursued(s, base) && Quiescent(s)
    requires r in s.scans.published && r >= base && e in s.scans.published[r] && e.mode == Apply
    ensures Settled(s.gmail.edits, s.lost.drops, e)
  {
    assert Pursued(s, e);
  }

  /** In every reachable state each published apply event is unsettled, or its message has the edit of just this
      event, or its label event was dropped for a permanent error; and at rest one of the last two. */
  lemma NoEditLost(w: World, s: State, r: RunId, e: RawEvent)
    requires Reachable(w, s) && r in s.scans.published && e in s.scans.published[r] && e.mode == Apply
    ensures Pursued(s, e)
    ensures Quiescent(s) ==> Settled(s.gmail.edits, s.lost.drops, e)
    ensures forall d :: d in s.lost.drops ==> IsPermanentError(d.error)
  {
    var s0, steps :| Initial(w, s0) && Valid(w, s0, steps) && Exec(w, s0, steps) == s;
    InvInitial(w, s0);
    InvAlways(w, s0, steps);
    AllPursuedAlways(w, s0, steps);
    if Quiescent(s) { SettledAtRest(s, 0, r, e); }
  }

  // ----- classified rows have somebody to label them ------------------------------

  /** A raw task that will still publish a label event for the key: one that has its delivery. */
  ghost predicate OwesRaw(t: RawTask, k: Key) {
    KeyOf(t.event) == k && t.event.mode == Apply && t.held && t.pc != Sent
  }

  /** A label task that will still mark the row of the key. */
  ghost predicate OwesLabel(c: LabelTask, k: Key) {
    KeyOfLabel(c.event) == k && c.held && c.pc != LMarked
  }

  /** An unsettled event will mark the row of the key. */
  ghost predicate Owed(raw: multiset<RawTask>, lab: multiset<LabelTask>, k: Key) {
    (exists t :: t in raw && OwesRaw(t, k)) || (exists c :: c in lab && OwesLabel(c, k))
  }

  /** The keys with a drop since their row was last stored, after one more step. */
  function Excused(excused: set<Key>, step: Step): set<Key> {
    match step
    case Raw(t, Store) => excused - {KeyOf(t.event)}
    case Lab(c, LDrop(error)) => excused + if IsPermanentError(error) then {KeyOfLabel(c.event)} else {}
    case _ => excused
  }

  function ExcusedBy(excused: set<Key>, steps: seq<Step>): set<Key> {
    if steps == [] then excused else Excused(ExcusedBy(excused, steps[..|steps| - 1]), steps[|steps| - 1])
  }

  /** A label event for the key was dropped for a permanent error, and the row has not been stored since. */
  ghost predicate DroppedSinceStore(steps: seq<Step>, k: Key) {
    exists i :: 0 <= i < |steps| && DropsFor(steps[i], k) && forall j :: i < j < |steps| ==> !StoresFor(steps[j], k)
  }

  predicate DropsFor(step: Step, k: Key) {
    step.Lab? && step.lact.LDrop? && KeyOfLabel(step.job.event) == k && IsPermanentError(step.lact.error)
  }

  predicate StoresFor(step: Step, k: Key) {
    step.Raw? && step.act == Store && KeyOf(step.task.event) == k
  }

  lemma {:induction false} ExcusedIsDropped(steps: seq<Step>, k: Key)
    ensures k in ExcusedBy({}, steps) <==> DroppedSinceStore(steps, k)
  {
    if steps != [] {
      var n := |steps| - 1;
      ExcusedIsDropped(steps[..n], k);
      if DroppedSinceStore(steps[..n], k) && !StoresFor(steps[n], k) {
        var i :| 0 <= i < n && DropsFor(steps[..n][i], k) && forall j :: i < j < n ==> !StoresFor(steps[..n][j], k);
        assert DropsFor(steps[i], k);
        forall j | i < j < |steps| ensures !StoresFor(steps[j], k) {
          if j < n { assert steps[..n][j] == steps[j]; }
        }
      }
      if DroppedSinceStore(steps, k) && !DropsFor(steps[n], k) {
        var i :| 0 <= i < |steps| && DropsFor(steps[i], k) && forall j :: i < j < |steps| ==> !StoresFor(steps[j], k);
        assert DropsFor(steps[..n][i], k) && !StoresFor(steps[n], k);
      }
    }
  }

  /** Every row that a run from `base` on classified will be marked by an unsettled event, or a label event for it
      was dropped since it was last stored. With `base` zero this is every classified row. */
  ghost predicate RowsServed(s: State, base: RunId, excused: set<Key>) {
    forall k :: k in s.rows && s.rows[k].run >= base && s.rows[k].status == Classified ==>
      Owed(s.raw, s.lab, k) || k in excused
  }

  /** The one way to strand a row: a handler that lost its delivery stores the row when no event that is
      unsettled will mark it. */
  ghost predicate Strands(s: State, base: RunId, step: Step) {
    && step.Raw? && step.act == Store && !step.task.held
    && step.task.event.mode == Apply && step.task.event.run >= base
    && !Owed(s.raw, s.lab, KeyOf(step.task.event))
  }

  /** What a raw task owes passes to its successor, or to the label event it forwards. */
  lemma DebtPassesOn(w: World, s: State, t: RawTask, a: RawAct, k: Key)
    requires RawEnabled(t, a) && OwesRaw(t, k)
    ensures (exists x :: x in RawAfter(w, s.rules, t, a) && OwesRaw(x, k))
         || (exists c :: c in Forwarded(t, a) && OwesLabel(c, k))
  {
    if a == Forward {
      assert LabelTask(LabelEventOf(t.event, t.pc.result), LReady, true) in Forwarded(t, a);
    } else {
      var x := HeldSuccessor(w, s.rules, t, a);
    }
  }

  lemma OwedKeptRaw(w: World, s: State, t: RawTask, a: RawAct, k: Key)
    requires t in s.raw && RawEnabled(t, a) && Owed(s.raw, s.lab, k)
    ensures var s' := NextRaw(w, s, t, a); Owed(s'.raw, s'.lab, k)
  {
    var s' := NextRaw(w, s, t, a);
    if OwesRaw(t, k) { DebtPassesOn(w, s, t, a, k); }
    assert forall x :: x in RawAfter(w, s.rules, t, a) || (x in s.raw && x != t) ==> x in s'.raw;
    assert forall c :: c in Forwarded(t, a) || c in s.lab ==> c in s'.lab;
  }

  lemma ServedKeptRaw(w: World, s: State, base: RunId, excused: set<Key>, t: RawTask, a: RawAct)
    requires t in s.raw && RawEnabled(t, a) && RowsServed(s, base, excused) && !Strands(s, base, Raw(t, a))
    ensures RowsServed(NextRaw(w, s, t, a), base, Excused(excused, Raw(t, a)))
  {
    var s' := NextRaw(w, s, t, a);
    forall k | k in s'.rows && s'.rows[k].run >= base && s'.rows[k].status == Classified
      ensures Owed(s'.raw, s'.lab, k) || k in Excused(excused, Raw(t, a))
    {
      if a == Store && KeyOf(t.event) == k {
        assert t.held ==> OwesRaw(t, k);
        OwedKeptRaw(w, s, t, a, k);
      } else if Owed(s.raw, s.lab, k) {
        OwedKeptRaw(w, s, t, a, k);
      }
    }
  }

  /** The stranding step leaves a classified row that nobody will label. */
  lemma StrandedRowIsNotServed(w: World, s: State, base: RunId, excused: set<Key>, t: RawTask)
    requires t in s.raw && RawEnabled(t, Store) && Strands(s, base, Raw(t, Store))
    ensures !RowsServed(NextRaw(w, s, t, Store), base, Excused(excused, Raw(t, Store)))
  {
    var s' := NextRaw(w, s, t, Store);
    var k := KeyOf(t.event);
    assert forall x :: x in s'.raw && OwesRaw(x, k) ==> x in s.raw;
    assert k in s'.rows && !Owed(s'.raw, s'.lab, k);
  }

  lemma OwedKeptLab(w: World, s: State, c: LabelTask, a: LabelAct, k: Key)
    requires c in s.lab && c.event.mode == Apply && LabEnabled(w, s.gmail, c, a) && Owed(s.raw, s.lab, k)
    requires a == LMark || a.LDrop? ==> KeyOfLabel(c.event) != k
    ensures var s' := NextLab(w, s, c, a); Owed(s'.raw, s'.lab, k)
  {
    var s' := NextLab(w, s, c, a);
    if OwesLabel(c, k) { var x := HeldLabelSuccessor(w, s.gmail, c, a); }
    assert forall x :: x in LabAfter(w, s.gmail, c, a) || (x in s.lab && x != c) ==> x in s'.lab;
  }

  /** A row still classified after an act of a label task was so before, and the act did not mark it. */
  lemma StillClassified(rows: map<Key, Row>, c: LabelTask, a: LabelAct, k: Key)
    requires KeyOfLabel(c.event) in rows && k in RowsAfterLab(rows, c, a)
    requires RowsAfterLab(rows, c, a)[k].status == Classified
    ensures k in rows && rows[k] == RowsAfterLab(rows, c, a)[k] && (a == LMark ==> KeyOfLabel(c.event) != k)
  {
  }

  lemma ServedKeptLab(w: World, s: State, base: RunId, excused: set<Key>, c: LabelTask, a: LabelAct)
    requires LabOk(s.lab, s.scans.published, s.rows)
    requires c in s.lab && LabEnabled(w, s.gmail, c, a) && RowsServed(s, base, excused)
    ensures RowsServed(NextLab(w, s, c, a), base, Excused(excused, Lab(c, a)))
  {
    var s' := NextLab(w, s, c, a);
    forall k | k in s'.rows && s'.rows[k].run >= base && s'.rows[k].status == Classified
      ensures Owed(s'.raw, s'.lab, k) || k in Excused(excused, Lab(c, a))
    {
      StillClassified(s.rows, c, a, k);
      if Owed(s.raw, s.lab, k) && !DropsFor(Lab(c, a), k) { OwedKeptLab(w, s, c, a, k); }
    }
  }

  lemma ServedKeptApi(s: State, base: RunId, excused: set<Key>, r: RunId, a: ApiAct)
    requires ApiEnabled(s.scans, s.gmail.contents, r, a) && RowsServed(s, base, excused)
    ensures RowsServed(NextApi(s, r, a), base, excused)
  {
    var s' := NextApi(s, r, a);
    forall k | Owed(s.raw, s.lab, k) ensures Owed(s'.raw, s'.lab, k) {
      if t :| t in s.raw && OwesRaw(t, k) { assert t in s'.raw; }
    }
  }

  /** One step keeps every classified row served exactly when it does not strand one. */
  lemma ServedStep(w: World, s: State, base: RunId, excused: set<Key>, step: Step)
    requires Inv(w, s) && Enabled(w, s, step) && RowsServed(s, base, excused)
    ensures RowsServed(Next(w, s, step), base, Excused(excused, step)) <==> !Strands(s, base, step)
  {
    match step {
      case Api(r, a) => ServedKeptApi(s, base, excused, r, a);
      case Raw(t, a) =>
        if Strands(s, base, step) {
          StrandedRowIsNotServed(w, s, base, excused, t);
        } else {
          ServedKeptRaw(w, s, base, excused, t, a);
        }
      case Lab(c, a) => ServedKeptLab(w, s, base, excused, c, a);
      case _ =>
    }
  }

  ghost function Serving(base: RunId): (State, Step) -> bool {
    (s: State, step: Step) => !Strands(s, base, step)
  }

  /** No step of the run strands a row of a run from `base` on. */
  ghost predicate NeverStrands(w: World, s: State, base: RunId, steps: seq<Step>) {
    Always(w, s, steps, Serving(base))
  }

  ghost function AllServed(base: RunId, excused: set<Key>): (State, seq<Step>) -> bool {
    (s: State, steps: seq<Step>) => RowsServed(s, base, ExcusedBy(excused, steps))
  }

  /** Every classified row is served in every state the run goes through. */
  ghost predicate ServedThroughout(w: World, s: State, base: RunId, excused: set<Key>, steps: seq<Step>) {
    Throughout(w, s, steps, AllServed(base, excused))
  }

  lemma ServedLastStep(w: World, s: State, base: RunId, excused: set<Key>, steps: seq<Step>, before: State)
    requires steps != [] && before == Exec(w, s, steps[..|steps| - 1]) && Inv(w, before) && Valid(w, s, steps)
    requires RowsServed(before, base, ExcusedBy(excused, steps[..|steps| - 1]))
    ensures AllServed(base, excused)(Exec(w, s, steps), steps) <==> Serving(base)(before, steps[|steps| - 1])
  {
    ServedStep(w, before, base, ExcusedBy(excused, steps[..|steps| - 1]), steps[|steps| - 1]);
  }

  /** The condition is exact: rows are served throughout a run if and only if no step strands one. */
  lemma {:induction false} ServedUnlessStranded(w: World, s: State, base: RunId, excused: set<Key>, steps: seq<Step>)
    requires Inv(w, s) && RowsServed(s, base, excused) && Valid(w, s, steps)
    ensures ServedThroughout(w, s, base, excused, steps) <==> NeverStrands(w, s, base, steps)
  {
    if steps != [] {
      var n := |steps| - 1;
      ServedUnlessStranded(w, s, base, excused, steps[..n]);
      if ServedThroughout(w, s, base, excused, steps[..n]) {
        InvAlways(w, s, steps[..n]);
        assert AllServed(base, excused)(Exec(w, s, steps[..n]), steps[..n]);
        ServedLastStep(w, s, base, excused, steps, Exec(w, s, steps[..n]));
      }
    }
  }

  /** On a run that never strands a row, a row still classified when both queues are empty is so because its
      label event was dropped for a permanent Gmail error, after the row was last stored. */
  lemma NoRowLeftBehind(w: World, s0: State, steps: seq<Step>, s: State, k: Key)
    requires Initial(w, s0) && Valid(w, s0, steps) && NeverStrands(w, s0, 0, steps) && s == Exec(w, s0, steps)
    requires Quiescent(s) && k in s.rows && s.rows[k].status == Classified
    ensures DroppedSinceStore(steps, k)
  {
    InvInitial(w, s0);
    ServedUnlessStranded(w, s0, 0, {}, steps);
    assert ServedThroughout(w, s0, 0, {}, steps);
    ExcusedIsDropped(steps, k);
  }
}
