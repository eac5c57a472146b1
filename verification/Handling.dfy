/** What handling one delivery amounts to, and that it is a run of the transition system. */
module Handling {
  import opened Common
  import opened Rules
  import opened Classifier
  import opened Pipeline
  import opened Traces

  // ----- raw events ------------------------------------------------------------------

  /** The points a classifier handler can get to with result `c`. */
  predicate RawPoint(e: RawEvent, c: Classification, pc: RawPc) {
    pc == Taken || pc == Ruled(c) || pc == Stored(c) || (pc == Sent && e.mode == Apply)
  }

  function RuledSteps(e: RawEvent): seq<Step> {
    [Raw(RawTask(e, Taken, true), ReadRules)]
  }

  function StoredSteps(e: RawEvent, c: Classification): seq<Step> {
    RuledSteps(e) + [Raw(RawTask(e, Ruled(c), true), Store)]
  }

  /** The steps from taking a raw event to a point. */
  function RawSteps(e: RawEvent, c: Classification, pc: RawPc): seq<Step> {
    match pc
    case Ruled(_) => RuledSteps(e)
    case Stored(_) => StoredSteps(e, c)
    case Sent => StoredSteps(e, c) + [Raw(RawTask(e, Stored(c), true), Forward)]
    case _ => []
  }

  function RowsAt(rows: map<Key, Row>, e: RawEvent, c: Classification, pc: RawPc): map<Key, Row> {
    if pc == Stored(c) || pc == Sent then rows[KeyOf(e) := NewRow(e, c)] else rows
  }

  function LabAt(lab: multiset<LabelTask>, e: RawEvent, c: Classification, pc: RawPc): multiset<LabelTask> {
    lab + if pc == Sent then multiset{LabelTask(LabelEventOf(e, c), LReady, true)} else multiset{}
  }

  function RawStateAt(s: State, rest: multiset<RawTask>, e: RawEvent, c: Classification, pc: RawPc): State {
    s.(raw := rest + multiset{RawTask(e, pc, true)}, rows := RowsAt(s.rows, e, c, pc), lab := LabAt(s.lab, e, c, pc))
  }

  lemma RuledRun(w: World, s: State, rest: multiset<RawTask>, e: RawEvent, c: Classification)
    requires s.raw == rest + multiset{RawTask(e, Taken, true)} && c == w.triage(s.rules, e.user, e.message)
    ensures Runs(w, s, RuledSteps(e), RawStateAt(s, rest, e, c, Ruled(c)))
  {
    var x := RawTask(e, Taken, true);
    RunsNone(w, s);
    RunsRaw(w, s, [], s, rest, x, ReadRules, multiset{x.(pc := Ruled(c))});
    assert [] + RuledSteps(e) == RuledSteps(e);
  }

  lemma StoredRun(w: World, s: State, rest: multiset<RawTask>, e: RawEvent, c: Classification)
    requires s.raw == rest + multiset{RawTask(e, Taken, true)} && c == w.triage(s.rules, e.user, e.message)
    ensures Runs(w, s, StoredSteps(e, c), RawStateAt(s, rest, e, c, Stored(c)))
  {
    var x := RawTask(e, Ruled(c), true);
    RuledRun(w, s, rest, e, c);
    RunsRaw(w, s, RuledSteps(e), RawStateAt(s, rest, e, c, Ruled(c)), rest, x, Store, multiset{x.(pc := Stored(c))});
  }

  lemma SentRun(w: World, s: State, rest: multiset<RawTask>, e: RawEvent, c: Classification)
    requires s.raw == rest + multiset{RawTask(e, Taken, true)} && c == w.triage(s.rules, e.user, e.message)
    requires e.mode == Apply
    ensures Runs(w, s, RawSteps(e, c, Sent), RawStateAt(s, rest, e, c, Sent))
  {
    var x := RawTask(e, Stored(c), true);
    StoredRun(w, s, rest, e, c);
    RunsRaw(w, s, StoredSteps(e, c), RawStateAt(s, rest, e, c, Stored(c)), rest, x, Forward, multiset{x.(pc := Sent)});
  }

  /** Whatever point a classifier handler gets to, it has got there by steps of the transition system. */
  lemma RawRun(w: World, s: State, rest: multiset<RawTask>, e: RawEvent, c: Classification, pc: RawPc)
    requires s.raw == rest + multiset{RawTask(e, Taken, true)} && c == w.triage(s.rules, e.user, e.message)
    requires RawPoint(e, c, pc)
    ensures Runs(w, s, RawSteps(e, c, pc), RawStateAt(s, rest, e, c, pc))
  {
    match pc {
      case Taken =>
        RunsNone(w, s);
        assert RawStateAt(s, rest, e, c, Taken) == s;
      case Ruled(_) => RuledRun(w, s, rest, e, c);
      case Stored(_) => StoredRun(w, s, rest, e, c);
      case Sent => SentRun(w, s, rest, e, c);
      case _ =>
    }
  }

  /** What a settlement leaves on the queue. */
  function Back(e: RawEvent, a: RawAct): multiset<RawTask> {
    if a == Ack then multiset{} else multiset{RawTask(e, Ready, true)}
  }

  lemma RunsSettled(w: World, s: State, steps: seq<Step>, t: State, rest: multiset<RawTask>, x: RawTask, a: RawAct)
    requires Runs(w, s, steps, t) && t.raw == rest + multiset{x} && RawEnabled(x, a) && (a == Ack || a == Requeue)
    ensures Runs(w, s, steps + [Raw(x, a)], t.(raw := rest + Back(x.event, a)))
  {
    RunsRaw(w, s, steps, t, rest, x, a, Back(x.event, a));
    assert Forwarded(x, a) == multiset{};
  }

  /** And by one more it settles. */
  lemma RawSettledRun(w: World, s: State, t: RawTask, c: Classification, pc: RawPc, a: RawAct)
    requires t in s.raw && t == RawTask(t.event, Taken, true) && c == w.triage(s.rules, t.event.user, t.event.message)
    requires RawPoint(t.event, c, pc) && (a == Ack || a == Requeue) && RawEnabled(RawTask(t.event, pc, true), a)
    ensures Runs(w, s, RawSteps(t.event, c, pc) + [Raw(RawTask(t.event, pc, true), a)],
      s.(raw := s.raw - multiset{t} + Back(t.event, a),
         rows := RowsAt(s.rows, t.event, c, pc), lab := LabAt(s.lab, t.event, c, pc)))
  {
    var rest := s.raw - multiset{t};
    var x := RawTask(t.event, pc, true);
    assert s.raw == rest + multiset{t};
    RawRun(w, s, rest, t.event, c, pc);
    RunsSettled(w, s, RawSteps(t.event, c, pc), RawStateAt(s, rest, t.event, c, pc), rest, x, a);
  }

  /** All steps are acts of one raw event. */
  ghost predicate OfRawEvent(steps: seq<Step>, e: RawEvent) {
    forall step :: step in steps ==> step.Raw? && step.task.event == e
  }

  lemma RawStepsAreOwn(e: RawEvent, c: Classification, pc: RawPc, x: RawTask, a: RawAct)
    requires x.event == e
    ensures OfRawEvent(RawSteps(e, c, pc) + [Raw(x, a)], e)
  {
  }

  // ----- classified events -----------------------------------------------------------

  /** The points a label handler can get to. */
  datatype LabelPoint = Start | Missing | Found | Edited | Marked | Skipped

  /** The label EnsureLabel ends with, and the mailbox it leaves; `newId` is what Gmail gives a new label. */
  function LabelFor(w: World, g: Gmail, name: string, newId: LabelId): LabelId {
    var found := FindLabel(w, g.labels, name);
    if found.Some? then found.value else newId
  }

  function Ensured(w: World, g: Gmail, name: string, newId: LabelId): Gmail {
    if FindLabel(w, g.labels, name).Some? then g else g.(labels := g.labels + [Label(newId, name)])
  }

  /** The mailbox with the message edited. */
  function EditedGmail(g: Gmail, e: LabelEvent, id: LabelId): Gmail {
    if e.id in g.mail
    then g.(mail := g.mail[e.id := Modified(g.mail[e.id], id, e.markRead)], edits := g.edits + {Edit(e, id)})
    else g
  }

  predicate LabelPointOk(w: World, g: Gmail, e: LabelEvent, newId: LabelId, p: LabelPoint) {
    match p
    case Start => true
    case Skipped => e.mode != Apply
    case Missing => e.mode == Apply && FindLabel(w, g.labels, e.labelName).None?
    case Found => e.mode == Apply && FreshId(g, newId)
    case _ => e.mode == Apply && FreshId(g, newId) && e.id in g.mail
  }

  function LabelPcAt(w: World, g: Gmail, e: LabelEvent, newId: LabelId, p: LabelPoint): LabelPc {
    match p
    case Start => LTaken
    case Missing => LMissing
    case Found => LFound(LabelFor(w, g, e.labelName, newId))
    case Edited => LEdited
    case _ => LMarked
  }

  function GmailAt(w: World, g: Gmail, e: LabelEvent, newId: LabelId, p: LabelPoint): Gmail {
    match p
    case Found => Ensured(w, g, e.labelName, newId)
    case Edited => EditedGmail(Ensured(w, g, e.labelName, newId), e, LabelFor(w, g, e.labelName, newId))
    case Marked => EditedGmail(Ensured(w, g, e.labelName, newId), e, LabelFor(w, g, e.labelName, newId))
    case _ => g
  }

  function MarkedRows(rows: map<Key, Row>, e: LabelEvent, p: LabelPoint): map<Key, Row> {
    var k := KeyOfLabel(e);
    if p == Marked && k in rows then rows[k := MarkRow(rows[k], e.labelName)] else rows
  }

  function MarkedLost(lost: Lost, rows: map<Key, Row>, e: LabelEvent, p: LabelPoint): Lost {
    if p == Marked && KeyOfLabel(e) !in rows then lost.(missed := lost.missed + {e}) else lost
  }

  function LabelStateAt(w: World, s: State, rest: multiset<LabelTask>, e: LabelEvent, newId: LabelId, p: LabelPoint)
    : State
  {
    s.(lab := rest + multiset{LabelTask(e, LabelPcAt(w, s.gmail, e, newId, p), true)},
       gmail := GmailAt(w, s.gmail, e, newId, p),
       rows := MarkedRows(s.rows, e, p), lost := MarkedLost(s.lost, s.rows, e, p))
  }

  function ListSteps(e: LabelEvent): seq<Step> {
    [Lab(LabelTask(e, LTaken, true), LList)]
  }

  function EnsureSteps(w: World, g: Gmail, e: LabelEvent, newId: LabelId): seq<Step> {
    if FindLabel(w, g.labels, e.labelName).Some? then ListSteps(e)
    else ListSteps(e) + [Lab(LabelTask(e, LMissing, true), LCreate(newId))]
  }

  function EditSteps(w: World, g: Gmail, e: LabelEvent, newId: LabelId): seq<Step> {
    EnsureSteps(w, g, e, newId) + [Lab(LabelTask(e, LFound(LabelFor(w, g, e.labelName, newId)), true), LModify)]
  }

  /** The steps from taking a classified event to a point. */
  function LabelSteps(w: World, g: Gmail, e: LabelEvent, newId: LabelId, p: LabelPoint): seq<Step> {
    match p
    case Start => []
    case Skipped => [Lab(LabelTask(e, LTaken, true), LSkip)]
    case Missing => ListSteps(e)
    case Found => EnsureSteps(w, g, e, newId)
    case Edited => EditSteps(w, g, e, newId)
    case Marked => EditSteps(w, g, e, newId) + [Lab(LabelTask(e, LEdited, true), LMark)]
  }

  lemma ListRun(w: World, s: State, rest: multiset<LabelTask>, e: LabelEvent, newId: LabelId)
    requires s.lab == rest + multiset{LabelTask(e, LTaken, true)} && e.mode == Apply
    ensures var p := if FindLabel(w, s.gmail.labels, e.labelName).Some? then Found else Missing;
      Runs(w, s, ListSteps(e), LabelStateAt(w, s, rest, e, newId, p))
  {
    var x := LabelTask(e, LTaken, true);
    var p := if FindLabel(w, s.gmail.labels, e.labelName).Some? then Found else Missing;
    RunsNone(w, s);
    RunsLab(w, s, [], s, rest, x, LList, multiset{x.(pc := LabelPcAt(w, s.gmail, e, newId, p))});
    assert [] + ListSteps(e) == ListSteps(e);
  }

  /** The search found nothing, and the label is created. */
  lemma CreateRun(w: World, s: State, rest: multiset<LabelTask>, e: LabelEvent, newId: LabelId)
    requires s.lab == rest + multiset{LabelTask(e, LTaken, true)} && LabelPointOk(w, s.gmail, e, newId, Found)
    requires FindLabel(w, s.gmail.labels, e.labelName).None?
    ensures Runs(w, s, ListSteps(e) + [Lab(LabelTask(e, LMissing, true), LCreate(newId))],
                 LabelStateAt(w, s, rest, e, newId, Found))
  {
    var x := LabelTask(e, LMissing, true);
    var t := LabelStateAt(w, s, rest, e, newId, Missing);
    ListRun(w, s, rest, e, newId);
    assert t.gmail == s.gmail;
    RunsLab(w, s, ListSteps(e), t, rest, x, LCreate(newId), multiset{x.(pc := LFound(newId))});
  }

  lemma EnsureRun(w: World, s: State, rest: multiset<LabelTask>, e: LabelEvent, newId: LabelId)
    requires s.lab == rest + multiset{LabelTask(e, LTaken, true)} && LabelPointOk(w, s.gmail, e, newId, Found)
    ensures Runs(w, s, EnsureSteps(w, s.gmail, e, newId), LabelStateAt(w, s, rest, e, newId, Found))
  {
    if FindLabel(w, s.gmail.labels, e.labelName).None? {
      CreateRun(w, s, rest, e, newId);
    } else {
      ListRun(w, s, rest, e, newId);
    }
  }

  lemma EditRun(w: World, s: State, rest: multiset<LabelTask>, e: LabelEvent, newId: LabelId)
    requires s.lab == rest + multiset{LabelTask(e, LTaken, true)} && LabelPointOk(w, s.gmail, e, newId, Edited)
    ensures Runs(w, s, EditSteps(w, s.gmail, e, newId), LabelStateAt(w, s, rest, e, newId, Edited))
  {
    var x := LabelTask(e, LFound(LabelFor(w, s.gmail, e.labelName, newId)), true);
    EnsureRun(w, s, rest, e, newId);
    RunsLab(w, s, EnsureSteps(w, s.gmail, e, newId), LabelStateAt(w, s, rest, e, newId, Found), rest, x, LModify,
            multiset{x.(pc := LEdited)});
  }

  lemma MarkRun(w: World, s: State, rest: multiset<LabelTask>, e: LabelEvent, newId: LabelId)
    requires s.lab == rest + multiset{LabelTask(e, LTaken, true)} && LabelPointOk(w, s.gmail, e, newId, Marked)
    ensures Runs(w, s, LabelSteps(w, s.gmail, e, newId, Marked), LabelStateAt(w, s, rest, e, newId, Marked))
  {
    var x := LabelTask(e, LEdited, true);
    EditRun(w, s, rest, e, newId);
    RunsLab(w, s, EditSteps(w, s.gmail, e, newId), LabelStateAt(w, s, rest, e, newId, Edited), rest, x, LMark,
            multiset{x.(pc := LMarked)});
  }

  lemma SkipRun(w: World, s: State, rest: multiset<LabelTask>, e: LabelEvent, newId: LabelId)
    requires s.lab == rest + multiset{LabelTask(e, LTaken, true)} && e.mode != Apply
    ensures Runs(w, s, LabelSteps(w, s.gmail, e, newId, Skipped), LabelStateAt(w, s, rest, e, newId, Skipped))
  {
    var x := LabelTask(e, LTaken, true);
    RunsNone(w, s);
    RunsLab(w, s, [], s, rest, x, LSkip, multiset{x.(pc := LMarked)});
    assert [] + [Lab(x, LSkip)] == LabelSteps(w, s.gmail, e, newId, Skipped);
  }

  /** Whatever point a label handler gets to, it has got there by steps of the transition system. */
  lemma LabelRun(w: World, s: State, rest: multiset<LabelTask>, e: LabelEvent, newId: LabelId, p: LabelPoint)
    requires s.lab == rest + multiset{LabelTask(e, LTaken, true)} && LabelPointOk(w, s.gmail, e, newId, p)
    ensures Runs(w, s, LabelSteps(w, s.gmail, e, newId, p), LabelStateAt(w, s, rest, e, newId, p))
  {
    match p {
      case Start =>
        RunsNone(w, s);
        assert LabelStateAt(w, s, rest, e, newId, Start) == s;
      case Skipped => SkipRun(w, s, rest, e, newId);
      case Missing => ListRun(w, s, rest, e, newId);
      case Found => EnsureRun(w, s, rest, e, newId);
      case Edited => EditRun(w, s, rest, e, newId);
      case Marked => MarkRun(w, s, rest, e, newId);
    }
  }

  /** How a label handler that got to a point settles: done, given up for good, or refused. */
  predicate LabelSettlement(w: World, g: Gmail, e: LabelEvent, newId: LabelId, p: LabelPoint, a: LabelAct) {
    && (a == LAck || a.LDrop? || a == LRequeue)
    && LabEnabled(w, GmailAt(w, g, e, newId, p), LabelTask(e, LabelPcAt(w, g, e, newId, p), true), a)
  }

  /** The record with the event's drop, if it is dropped. */
  function Given(lost: Lost, e: LabelEvent, a: LabelAct): Lost {
    if a.LDrop? then lost.(drops := lost.drops + {Drop(e, a.error)}) else lost
  }

  /** Settling changes the queue, and records a drop. */
  lemma SettlingOnly(w: World, g: Gmail, rows: map<Key, Row>, lost: Lost, x: LabelTask, a: LabelAct)
    requires (a == LAck || a.LDrop? || a == LRequeue) && LabEnabled(w, g, x, a)
    ensures RowsAfterLab(rows, x, a) == rows && GmailAfter(w, g, x, a) == g
    ensures LostAfter(lost, rows, x, a) == Given(lost, x.event, a)
    ensures LabAfter(w, g, x, a) == if a == LRequeue then multiset{LabelTask(x.event, LReady, true)} else multiset{}
  {
  }

  function LabelSettledAt(w: World, s: State, c: LabelTask, newId: LabelId, p: LabelPoint, a: LabelAct): State {
    s.(lab := s.lab - multiset{c} + (if a == LRequeue then multiset{LabelTask(c.event, LReady, true)} else multiset{}),
       gmail := GmailAt(w, s.gmail, c.event, newId, p), rows := MarkedRows(s.rows, c.event, p),
       lost := Given(MarkedLost(s.lost, s.rows, c.event, p), c.event, a))
  }

  /** And by one more it settles. */
  lemma LabelSettledRun(w: World, s: State, c: LabelTask, newId: LabelId, p: LabelPoint, a: LabelAct)
    requires c in s.lab && c == LabelTask(c.event, LTaken, true) && LabelPointOk(w, s.gmail, c.event, newId, p)
    requires LabelSettlement(w, s.gmail, c.event, newId, p, a)
    ensures var at := LabelTask(c.event, LabelPcAt(w, s.gmail, c.event, newId, p), true);
      Runs(w, s, LabelSteps(w, s.gmail, c.event, newId, p) + [Lab(at, a)], LabelSettledAt(w, s, c, newId, p, a))
  {
    var e := c.event;
    var rest := s.lab - multiset{c};
    var at := LabelTask(e, LabelPcAt(w, s.gmail, e, newId, p), true);
    var t := LabelStateAt(w, s, rest, e, newId, p);
    assert s.lab == rest + multiset{c};
    LabelRun(w, s, rest, e, newId, p);
    SettlingOnly(w, t.gmail, t.rows, t.lost, at, a);
    RunsLab(w, s, LabelSteps(w, s.gmail, e, newId, p), t, rest, at, a, LabAfter(w, t.gmail, at, a));
  }

  /** All steps are acts of one classified event. */
  ghost predicate OfLabelEvent(steps: seq<Step>, e: LabelEvent) {
    forall step :: step in steps ==> step.Lab? && step.job.event == e
  }

  lemma LabelStepsAreOwn(w: World, g: Gmail, e: LabelEvent, newId: LabelId, p: LabelPoint, x: LabelTask, a: LabelAct)
    requires x.event == e
    ensures OfLabelEvent(LabelSteps(w, g, e, newId, p) + [Lab(x, a)], e)
  {
  }
}
