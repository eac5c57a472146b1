/** While the rules stay as they are, every result in the pipeline is the one triage gives. */
module FixedRules {
  import opened Common
  import opened Rules
  import opened Classifier
  import opened Pipeline
  import opened Invariants

  /** What triage says about the message of a key. */
  ghost function Want(w: World, table: seq<UserRule>, contents: map<string, Message>, k: Key): Classification
    requires k.id in contents
  {
    w.triage(table, k.user, contents[k.id])
  }

  // `base` bounds the runs the statements speak about: those from `base` on.

  ghost predicate TaskSays(w: World, table: seq<UserRule>, base: RunId, rows: map<Key, Row>, t: RawTask) {
    && t.event.run >= base
    && (t.pc.Ruled? || t.pc.Stored? ==> t.pc.result == w.triage(table, t.event.user, t.event.message))
    && (t.pc.Stored? || t.pc == Sent ==> KeyOf(t.event) in rows && rows[KeyOf(t.event)].run >= base)
  }

  ghost predicate RawSays(w: World, table: seq<UserRule>, base: RunId, raw: multiset<RawTask>, rows: map<Key, Row>) {
    forall t :: t in raw ==> TaskSays(w, table, base, rows, t)
  }

  ghost predicate EventSays(w: World, table: seq<UserRule>, contents: map<string, Message>, e: LabelEvent) {
    && e.id in contents
    && e.labelName == Want(w, table, contents, KeyOfLabel(e)).labelName
    && e.confidence == Want(w, table, contents, KeyOfLabel(e)).confidence
  }

  ghost predicate LabSays(w: World, table: seq<UserRule>, contents: map<string, Message>, base: RunId,
                          lab: multiset<LabelTask>, rows: map<Key, Row>) {
    forall c :: c in lab ==>
      && c.event.run >= base && EventSays(w, table, contents, c.event)
      && KeyOfLabel(c.event) in rows && rows[KeyOfLabel(c.event)].run >= base
  }

  ghost predicate RowSays(w: World, table: seq<UserRule>, contents: map<string, Message>, k: Key, row: Row) {
    && k.id in contents
    && row.predicted == Want(w, table, contents, k).labelName
    && row.confidence == Want(w, table, contents, k).confidence
    && row.reason == Want(w, table, contents, k).reason
    && (row.applied.Some? ==> row.applied.value == row.predicted)
  }

  ghost predicate RowsSay(w: World, table: seq<UserRule>, contents: map<string, Message>, base: RunId,
                          rows: map<Key, Row>) {
    forall k :: k in rows && rows[k].run >= base ==> RowSays(w, table, contents, k, rows[k])
  }

  ghost predicate EditsSay(w: World, table: seq<UserRule>, contents: map<string, Message>, base: RunId,
                           edits: set<Edit>) {
    forall e :: e in edits && e.event.run >= base ==> EventSays(w, table, contents, e.event)
  }

  ghost predicate Says(w: World, s: State, base: RunId) {
    && RawSays(w, s.rules, base, s.raw, s.rows)
    && LabSays(w, s.rules, s.gmail.contents, base, s.lab, s.rows)
    && RowsSay(w, s.rules, s.gmail.contents, base, s.rows)
    && EditsSay(w, s.rules, s.gmail.contents, base, s.gmail.edits)
    && base <= s.scans.nextRun
  }

  lemma SaysKeptApi(w: World, s: State, base: RunId, r: RunId, a: ApiAct)
    requires Inv(w, s) && Says(w, s, base) && ApiEnabled(s.scans, s.gmail.contents, r, a) && r >= base
    ensures Says(w, NextApi(s, r, a), base)
  {
    QueueOfOne(Emitted(r, s.scans.loops[r], a));
  }

  lemma IssuedIsKnown(s: State, e: RawEvent)
    requires EventsOk(s.scans, s.gmail.contents) && Issued(s.scans.published, e)
    ensures Known(s.gmail.contents, e.message)
  {
    assert FromRun(s.scans, s.gmail.contents, e.run, e);
  }

  lemma SuccessorSays(w: World, table: seq<UserRule>, base: RunId, rows: map<Key, Row>, t: RawTask, a: RawAct)
    requires TaskSays(w, table, base, rows, t) && RawEnabled(t, a)
    ensures forall x :: x in RawAfter(w, table, t, a) ==> TaskSays(w, table, base, RowsAfterRaw(rows, t, a), x)
  {
  }

  lemma RawSaysKept(w: World, s: State, base: RunId, t: RawTask, a: RawAct)
    requires RawSays(w, s.rules, base, s.raw, s.rows) && t in s.raw && RawEnabled(t, a)
    ensures var s' := NextRaw(w, s, t, a); RawSays(w, s.rules, base, s'.raw, s'.rows)
  {
    SuccessorSays(w, s.rules, base, s.rows, t, a);
    assert t.event.run >= base;
  }

  lemma LabSaysRaw(w: World, s: State, base: RunId, t: RawTask, a: RawAct)
    requires RawSays(w, s.rules, base, s.raw, s.rows) && LabSays(w, s.rules, s.gmail.contents, base, s.lab, s.rows)
    requires t in s.raw && RawEnabled(t, a) && Known(s.gmail.contents, t.event.message)
    ensures var s' := NextRaw(w, s, t, a); LabSays(w, s.rules, s.gmail.contents, base, s'.lab, s'.rows)
  {
  }

  lemma RowsSayRaw(w: World, s: State, base: RunId, t: RawTask, a: RawAct)
    requires RawSays(w, s.rules, base, s.raw, s.rows) && RowsSay(w, s.rules, s.gmail.contents, base, s.rows)
    requires t in s.raw && RawEnabled(t, a) && Known(s.gmail.contents, t.event.message)
    ensures RowsSay(w, s.rules, s.gmail.contents, base, RowsAfterRaw(s.rows, t, a))
  {
  }

  lemma SaysKeptRaw(w: World, s: State, base: RunId, t: RawTask, a: RawAct)
    requires Says(w, s, base) && t in s.raw && RawEnabled(t, a) && Known(s.gmail.contents, t.event.message)
    ensures Says(w, NextRaw(w, s, t, a), base)
  {
    RawSaysKept(w, s, base, t, a);
    LabSaysRaw(w, s, base, t, a);
    RowsSayRaw(w, s, base, t, a);
  }

  lemma RowsSayKeptLab(w: World, s: State, base: RunId, c: LabelTask, a: LabelAct)
    requires LabSays(w, s.rules, s.gmail.contents, base, s.lab, s.rows)
    requires RowsSay(w, s.rules, s.gmail.contents, base, s.rows)
    requires c in s.lab && LabEnabled(w, s.gmail, c, a)
    ensures RowsSay(w, s.rules, s.gmail.contents, base, RowsAfterLab(s.rows, c, a))
  {
  }

  lemma LabSaysKept(w: World, s: State, base: RunId, c: LabelTask, a: LabelAct)
    requires LabSays(w, s.rules, s.gmail.contents, base, s.lab, s.rows)
    requires c in s.lab && LabEnabled(w, s.gmail, c, a)
    ensures var s' := NextLab(w, s, c, a); LabSays(w, s.rules, s.gmail.contents, base, s'.lab, s'.rows)
  {
    LabelSuccessor(w, s.gmail, c, a);
    RowsStay(s.rows, c, a);
  }

  lemma RawSaysLab(w: World, table: seq<UserRule>, base: RunId, raw: multiset<RawTask>, rows: map<Key, Row>,
                   c: LabelTask, a: LabelAct)
    requires RawSays(w, table, base, raw, rows)
    ensures RawSays(w, table, base, raw, RowsAfterLab(rows, c, a))
  {
  }

  lemma EditsSayKept(w: World, s: State, base: RunId, c: LabelTask, a: LabelAct)
    requires EditsSay(w, s.rules, s.gmail.contents, base, s.gmail.edits)
    requires EventSays(w, s.rules, s.gmail.contents, c.event) && LabEnabled(w, s.gmail, c, a)
    ensures EditsSay(w, s.rules, s.gmail.contents, base, GmailAfter(w, s.gmail, c, a).edits)
  {
  }

  lemma SaysKeptLab(w: World, s: State, base: RunId, c: LabelTask, a: LabelAct)
    requires Says(w, s, base) && c in s.lab && LabEnabled(w, s.gmail, c, a)
    ensures Says(w, NextLab(w, s, c, a), base)
  {
    RowsSayKeptLab(w, s, base, c, a);
    LabSaysKept(w, s, base, c, a);
    RawSaysLab(w, s.rules, base, s.raw, s.rows, c, a);
    EditsSayKept(w, s, base, c, a);
    assert GmailAfter(w, s.gmail, c, a).contents == s.gmail.contents;
  }

  lemma SaysKeptArrive(w: World, s: State, base: RunId, m: Message, on: set<LabelId>)
    requires Inv(w, s) && Says(w, s, base) && m.id !in s.gmail.contents
    ensures Says(w, NextArrive(s, m, on), base)
  {
    var more := s.gmail.contents[m.id := m];
    forall e | EventSays(w, s.rules, s.gmail.contents, e) ensures EventSays(w, s.rules, more, e) {}
    forall k, row | RowSays(w, s.rules, s.gmail.contents, k, row) ensures RowSays(w, s.rules, more, k, row) {}
  }

  lemma SaysStep(w: World, s: State, base: RunId, step: Step)
    requires Inv(w, s) && Says(w, s, base) && Enabled(w, s, step)
    requires !step.EditRules? && (step.Api? ==> step.run >= base)
    ensures Says(w, Next(w, s, step), base)
  {
    match step {
      case Api(r, a) => SaysKeptApi(w, s, base, r, a);
      case Raw(t, a) => IssuedIsKnown(s, t.event); SaysKeptRaw(w, s, base, t, a);
      case Lab(c, a) => SaysKeptLab(w, s, base, c, a);
      case Arrive(m, on) => SaysKeptArrive(w, s, base, m, on);
      case StartScan(req) =>
    }
  }

  lemma {:induction false} SaysAlways(w: World, s: State, steps: seq<Step>)
    requires Initial(w, s) && Valid(w, s, steps)
    requires forall i :: 0 <= i < |steps| ==> !steps[i].EditRules?
    ensures var s' := Exec(w, s, steps); Says(w, s', 0) && s'.rules == s.rules
  {
    if steps != [] {
      var n := |steps| - 1;
      SaysAlways(w, s, steps[..n]);
      InvInitial(w, s);
      InvAlways(w, s, steps[..n]);
      SaysStep(w, Exec(w, s, steps[..n]), 0, steps[n]);
    }
  }

  /** Over any number of overlapping runs, redeliveries and crashes with fixed rules: every row's
      prediction, every pending label event and every applied label is what triage says. */
  lemma ResultsAreTriage(w: World, s0: State, steps: seq<Step>, s: State)
    requires Initial(w, s0) && Valid(w, s0, steps) && s == Exec(w, s0, steps)
    requires forall i :: 0 <= i < |steps| ==> !steps[i].EditRules?
    ensures forall k :: k in s.rows ==> RowSays(w, s0.rules, s.gmail.contents, k, s.rows[k])
    ensures forall c :: c in s.lab ==> EventSays(w, s0.rules, s.gmail.contents, c.event)
  {
    SaysAlways(w, s0, steps);
  }

  /** When one user asks for all scans, a message never carries two triage labels. */
  lemma OneTriageLabel(w: World, s0: State, steps: seq<Step>, s: State, user: string, id: string)
    requires Initial(w, s0) && Valid(w, s0, steps) && s == Exec(w, s0, steps)
    requires forall i :: 0 <= i < |steps| ==> !steps[i].EditRules?
    requires forall r :: r in s.scans.asked ==> s.scans.asked[r].user == user
    ensures |Added(s.gmail.edits, id)| <= 1
  {
    SaysAlways(w, s0, steps);
    InvInitial(w, s0);
    InvAlways(w, s0, steps);
    forall e, f | e in s.gmail.edits && f in s.gmail.edits && e.event.id == id && f.event.id == id
      ensures e.id == f.id
    {
      SameUserSameLabel(w, s, user, e, f);
    }
    OneAdded(s.gmail.edits, id);
  }

  lemma SameUserSameLabel(w: World, s: State, user: string, e: Edit, f: Edit)
    requires Inv(w, s) && EditsSay(w, s.rules, s.gmail.contents, 0, s.gmail.edits)
    requires forall r :: r in s.scans.asked ==> s.scans.asked[r].user == user
    requires e in s.gmail.edits && f in s.gmail.edits && e.event.id == f.event.id
    ensures e.id == f.id
  {
    EditUser(s, e);
    EditUser(s, f);
  }

  lemma OneAdded(edits: set<Edit>, id: string)
    requires forall e, f :: e in edits && f in edits && e.event.id == id && f.event.id == id ==> e.id == f.id
    ensures |Added(edits, id)| <= 1
  {
    var ids := Added(edits, id);
    if ids != {} {
      var x :| x in ids;
      assert ids == {x};
    }
  }

  lemma EditUser(s: State, e: Edit)
    requires EventsOk(s.scans, s.gmail.contents) && Traced(s.scans.published, e.event)
    ensures e.event.run in s.scans.asked && e.event.user == s.scans.asked[e.event.run].user
  {
    var p :| p in s.scans.published[e.event.run] && Parent(p, e.event);
    assert FromRun(s.scans, s.gmail.contents, e.event.run, p);
  }
}
