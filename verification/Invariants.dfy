/** What every reachable state of the pipeline satisfies. */
module Invariants {
  import opened Common
  import Rules
  import opened Classifier
  import opened Pipeline

  // ----- scan runs and what they publish ----------------------------------------

  ghost predicate Known(contents: map<string, Message>, m: Message) {
    m.id in contents && contents[m.id] == m
  }

  ghost predicate ScansOk(q: Scans) {
    && q.asked.Keys == q.runs.Keys && q.published.Keys == q.runs.Keys && q.loops.Keys <= q.runs.Keys
    && (forall r :: r in q.runs ==> r < q.nextRun)
    && (forall r :: r in q.runs ==> q.runs[r].user == q.asked[r].user && q.runs[r].mode == q.asked[r].mode)
    && (forall r :: r in q.loops ==> q.loops[r].req == q.asked[r])
  }

  /** An event says what its run asked for, about a message of the mailbox. */
  ghost predicate FromRun(q: Scans, contents: map<string, Message>, r: RunId, e: RawEvent) {
    r in q.asked && e == EventFor(r, q.asked[r], e.message) && Known(contents, e.message)
  }

  ghost predicate EventsOk(q: Scans, contents: map<string, Message>) {
    && (forall r, e :: r in q.published && e in q.published[r] ==> FromRun(q, contents, r, e))
    && (forall r, m :: r in q.loops && q.loops[r].phase.Batch? && m in q.loops[r].phase.pending ==> Known(contents, m))
    && (forall id :: id in contents ==> contents[id].id == id)
  }

  /** Histories only grow. */
  ghost predicate Grows(p: map<RunId, seq<RawEvent>>, q: map<RunId, seq<RawEvent>>) {
    forall r, e :: r in p && e in p[r] ==> r in q && e in q[r]
  }

  lemma ScansOkKept(q: Scans, contents: map<string, Message>, r: RunId, a: ApiAct)
    requires ScansOk(q) && EventsOk(q, contents) && ApiEnabled(q, contents, r, a)
    ensures ScansOk(ScansAfter(q, contents, r, a)) && Grows(q.published, ScansAfter(q, contents, r, a).published)
  {
  }

  lemma LoopMessagesKnown(l: Loop, contents: map<string, Message>, a: ApiAct)
    requires a.Fetch? ==> forall id :: id in a.ids ==> id in contents
    requires a.Publish? ==> l.phase.Batch? && l.phase.pending != []
    requires forall id :: id in contents ==> contents[id].id == id
    requires l.phase.Batch? ==> forall m :: m in l.phase.pending ==> Known(contents, m)
    ensures var after := LoopAfter(l, contents, a);
      after.Some? && after.value.phase.Batch? ==> forall m :: m in after.value.phase.pending ==> Known(contents, m)
  {
    if a.Fetch? {
      forall m | m in Lookup(contents, a.ids) ensures Known(contents, m) {
        var i :| 0 <= i < |a.ids| && Lookup(contents, a.ids)[i] == m;
        assert a.ids[i] in contents;
      }
    }
  }

  lemma EventsOkKept(q: Scans, contents: map<string, Message>, r: RunId, a: ApiAct)
    requires ScansOk(q) && EventsOk(q, contents) && ApiEnabled(q, contents, r, a)
    ensures EventsOk(ScansAfter(q, contents, r, a), contents)
  {
    LoopMessagesKnown(q.loops[r], contents, a);
    if a == Publish(true) {
      assert q.loops[r].phase.pending[0] in q.loops[r].phase.pending;
    }
  }

  // ----- raw tasks and rows --------------------------------------------------------

  ghost predicate Issued(published: map<RunId, seq<RawEvent>>, e: RawEvent) {
    e.run in published && e in published[e.run]
  }

  ghost predicate RawOk(raw: multiset<RawTask>, published: map<RunId, seq<RawEvent>>, rows: map<Key, Row>) {
    forall t :: t in raw ==>
      && Issued(published, t.event)
      && (t.pc.Stored? || t.pc == Sent ==> KeyOf(t.event) in rows)
  }

  /** Some event of the run is about the key. */
  ghost predicate Stamp(published: map<RunId, seq<RawEvent>>, r: RunId, k: Key) {
    r in published && exists e :: e in published[r] && KeyOf(e) == k
  }

  ghost predicate RowsOk(rows: map<Key, Row>, published: map<RunId, seq<RawEvent>>) {
    forall k :: k in rows ==>
      Stamp(published, rows[k].run, k) && (rows[k].status == Applied <==> rows[k].applied.Some?)
  }

  /** What an act leaves of a raw task is about the same event, and has its row if it is past the upsert. */
  lemma SuccessorOk(w: World, rules: seq<Rules.UserRule>, rows: map<Key, Row>, t: RawTask, a: RawAct)
    requires RawEnabled(t, a) && (t.pc.Stored? || t.pc == Sent ==> KeyOf(t.event) in rows)
    ensures forall x :: x in RawAfter(w, rules, t, a) ==>
      x.event == t.event && (x.pc.Stored? || x.pc == Sent ==> KeyOf(t.event) in RowsAfterRaw(rows, t, a))
  {
  }

  lemma RawOkReplaced(raw: multiset<RawTask>, published: map<RunId, seq<RawEvent>>, rows: map<Key, Row>, t: RawTask,
                      next: multiset<RawTask>, more: map<Key, Row>)
    requires RawOk(raw, published, rows) && t in raw && rows.Keys <= more.Keys
    requires forall x :: x in next ==> x.event == t.event && (x.pc.Stored? || x.pc == Sent ==> KeyOf(t.event) in more)
    ensures RawOk(raw - multiset{t} + next, published, more)
  {
  }

  lemma RawOkKept(w: World, s: State, t: RawTask, a: RawAct)
    requires RawOk(s.raw, s.scans.published, s.rows) && t in s.raw && RawEnabled(t, a)
    ensures var s' := NextRaw(w, s, t, a); RawOk(s'.raw, s.scans.published, s'.rows)
  {
    SuccessorOk(w, s.rules, s.rows, t, a);
    RawOkReplaced(s.raw, s.scans.published, s.rows, t, RawAfter(w, s.rules, t, a), RowsAfterRaw(s.rows, t, a));
  }

  lemma RowsOkKeptRaw(rows: map<Key, Row>, published: map<RunId, seq<RawEvent>>, t: RawTask, a: RawAct)
    requires RowsOk(rows, published) && Issued(published, t.event) && RawEnabled(t, a)
    ensures RowsOk(RowsAfterRaw(rows, t, a), published)
  {
  }

  lemma RowsOkKeptLab(rows: map<Key, Row>, published: map<RunId, seq<RawEvent>>, c: LabelTask, a: LabelAct)
    requires RowsOk(rows, published)
    ensures RowsOk(RowsAfterLab(rows, c, a), published)
  {
  }

  /** More published events do no harm. */
  lemma RawAndRowsGrow(raw: multiset<RawTask>, rows: map<Key, Row>,
                       p: map<RunId, seq<RawEvent>>, q: map<RunId, seq<RawEvent>>)
    requires RawOk(raw, p, rows) && RowsOk(rows, p) && Grows(p, q)
    ensures RawOk(raw, q, rows) && RowsOk(rows, q)
  {
    forall k | k in rows ensures Stamp(q, rows[k].run, k) {
      var e :| e in p[rows[k].run] && KeyOf(e) == k;
      assert e in q[rows[k].run];
    }
  }

  // ----- label tasks, edits, drops ---------------------------------------------------

  ghost predicate Parent(e: RawEvent, le: LabelEvent) {
    && e.run == le.run && KeyOf(e) == KeyOfLabel(le)
    && e.mode == Apply && e.markRead == le.markRead
  }

  /** A label event descends from an apply-mode raw event of the same run, user, message and read flag. */
  ghost predicate Traced(published: map<RunId, seq<RawEvent>>, le: LabelEvent) {
    && le.run in published && le.mode == Apply
    && exists e :: e in published[le.run] && Parent(e, le)
  }

  ghost predicate LabOk(lab: multiset<LabelTask>, published: map<RunId, seq<RawEvent>>, rows: map<Key, Row>) {
    forall c :: c in lab ==> Traced(published, c.event) && KeyOfLabel(c.event) in rows
  }

  ghost predicate LogOk(edits: set<Edit>, lost: Lost, published: map<RunId, seq<RawEvent>>) {
    && (forall e :: e in edits ==> Traced(published, e.event))
    && (forall d :: d in lost.drops ==> Traced(published, d.event) && IsPermanentError(d.error))
    && lost.missed == {}
  }

  lemma LabOkKeptRaw(w: World, s: State, t: RawTask, a: RawAct)
    requires RawOk(s.raw, s.scans.published, s.rows) && LabOk(s.lab, s.scans.published, s.rows)
    requires t in s.raw && RawEnabled(t, a)
    ensures var s' := NextRaw(w, s, t, a); LabOk(s'.lab, s.scans.published, s'.rows)
  {
    if a == Forward { assert Parent(t.event, LabelEventOf(t.event, t.pc.result)); }
  }

  /** What an act leaves of a label task is about the same event. */
  lemma LabelSuccessor(w: World, g: Gmail, c: LabelTask, a: LabelAct)
    requires LabEnabled(w, g, c, a)
    ensures forall x :: x in LabAfter(w, g, c, a) ==> x.event == c.event
  {
  }

  /** No row goes away or changes its run. */
  lemma RowsStay(rows: map<Key, Row>, c: LabelTask, a: LabelAct)
    ensures forall k :: k in rows ==> k in RowsAfterLab(rows, c, a) && RowsAfterLab(rows, c, a)[k].run == rows[k].run
  {
  }

  lemma LabOkKept(w: World, s: State, c: LabelTask, a: LabelAct)
    requires LabOk(s.lab, s.scans.published, s.rows) && c in s.lab && LabEnabled(w, s.gmail, c, a)
    ensures var s' := NextLab(w, s, c, a); LabOk(s'.lab, s.scans.published, s'.rows)
  {
    LabelSuccessor(w, s.gmail, c, a);
    RowsStay(s.rows, c, a);
  }

  lemma LogOkKept(w: World, s: State, c: LabelTask, a: LabelAct)
    requires LabOk(s.lab, s.scans.published, s.rows) && LogOk(s.gmail.edits, s.lost, s.scans.published)
    requires c in s.lab && LabEnabled(w, s.gmail, c, a)
    ensures var s' := NextLab(w, s, c, a); LogOk(s'.gmail.edits, s'.lost, s.scans.published)
  {
  }

  lemma TracedGrows(p: map<RunId, seq<RawEvent>>, q: map<RunId, seq<RawEvent>>, le: LabelEvent)
    requires Grows(p, q) && Traced(p, le)
    ensures Traced(q, le)
  {
    var e :| e in p[le.run] && Parent(e, le);
    assert e in q[le.run];
  }

  lemma LabAndLogGrow(s: State, q: map<RunId, seq<RawEvent>>)
    requires LabOk(s.lab, s.scans.published, s.rows) && LogOk(s.gmail.edits, s.lost, s.scans.published)
    requires Grows(s.scans.published, q)
    ensures LabOk(s.lab, q, s.rows) && LogOk(s.gmail.edits, s.lost, q)
  {
    forall le | Traced(s.scans.published, le) ensures Traced(q, le) {
      TracedGrows(s.scans.published, q, le);
    }
  }

  // ----- the mailbox ------------------------------------------------------------------

  /** Labels the system put on a message. */
  ghost function Added(edits: set<Edit>, id: string): set<LabelId> {
    set e | e in edits && e.event.id == id :: e.id
  }

  ghost predicate Touched(edits: set<Edit>, id: string) {
    exists e :: e in edits && e.event.id == id
  }

  ghost predicate TouchedRead(edits: set<Edit>, id: string) {
    exists e :: e in edits && e.event.id == id && e.event.markRead
  }

  /** A message's labels depend on the edits made to it, and not on their order. */
  ghost function MailAfter(on: set<LabelId>, edits: set<Edit>, id: string): set<LabelId> {
    on + Added(edits, id)
    - (if Touched(edits, id) then {Inbox} else {})
    - (if TouchedRead(edits, id) then {Unread} else {})
  }

  /** A run numbered `base` or later has put the label `name` on the message of the key. */
  ghost predicate EditedFor(edits: set<Edit>, base: RunId, k: Key, name: string) {
    exists e :: e in edits && e.event.run >= base && KeyOfLabel(e.event) == k && e.event.labelName == name
  }

  ghost predicate GmailOk(w: World, g: Gmail) {
    && LabelsApart(w, g.labels)
    && g.mail.Keys == g.contents.Keys && g.arrived.Keys == g.contents.Keys
    && (forall e :: e in g.edits ==>
          FindLabel(w, g.labels, e.event.labelName) == Some(e.id) && e.id.Other? && e.event.id in g.contents)
    && (forall id :: id in g.mail ==> g.mail[id] == MailAfter(g.arrived[id], g.edits, id))
  }

  /** Tasks and rows past an edit have it on record. */
  ghost predicate EditsOk(w: World, g: Gmail, lab: multiset<LabelTask>, rows: map<Key, Row>) {
    FoundOk(w, g.labels, lab) && EditedOk(g.edits, lab) && AppliedOk(g.edits, 0, rows)
  }

  ghost predicate FoundOk(w: World, labels: seq<Label>, lab: multiset<LabelTask>) {
    forall c :: c in lab && c.pc.LFound? ==> FindLabel(w, labels, c.event.labelName) == Some(c.pc.id)
  }

  /** The edit that a label event asks for has been made. */
  ghost predicate HasEdit(edits: set<Edit>, le: LabelEvent) {
    exists e :: e in edits && e.event == le
  }

  ghost predicate EditedOk(edits: set<Edit>, lab: multiset<LabelTask>) {
    forall c :: c in lab && (c.pc == LEdited || c.pc == LMarked) ==> HasEdit(edits, c.event)
  }

  ghost predicate AppliedOk(edits: set<Edit>, base: RunId, rows: map<Key, Row>) {
    forall k :: k in rows && rows[k].run >= base && rows[k].applied.Some? ==>
      EditedFor(edits, base, k, rows[k].applied.value)
  }

  lemma {:induction false} FindLabelAppend(w: World, labels: seq<Label>, x: Label, name: string)
    ensures FindLabel(w, labels + [x], name) ==
      if FindLabel(w, labels, name).Some? then FindLabel(w, labels, name)
      else if w.fold(x.name) == w.fold(name) then Some(x.id)
      else None
  {
    if labels != [] {
      FindLabelAppend(w, labels[1..], x, name);
      assert (labels + [x])[1..] == labels[1..] + [x];
    }
  }

  lemma {:induction false} FindLabelFound(w: World, labels: seq<Label>, name: string) returns (i: nat)
    ensures FindLabel(w, labels, name).None? ==>
      forall j :: 0 <= j < |labels| ==> w.fold(labels[j].name) != w.fold(name)
    ensures FindLabel(w, labels, name).Some? ==>
      && i < |labels| && labels[i].id == FindLabel(w, labels, name).value && w.fold(labels[i].name) == w.fold(name)
      && forall j :: 0 <= j < i ==> w.fold(labels[j].name) != w.fold(name)
  {
    i := 0;
    if labels != [] && w.fold(labels[0].name) != w.fold(name) {
      var k := FindLabelFound(w, labels[1..], name);
      i := k + 1;
    }
  }

  lemma AddedMore(edits: set<Edit>, e: Edit, id: string)
    ensures Added(edits + {e}, id) == Added(edits, id) + if e.event.id == id then {e.id} else {}
    ensures Touched(edits + {e}, id) <==> Touched(edits, id) || e.event.id == id
    ensures TouchedRead(edits + {e}, id) <==> TouchedRead(edits, id) || (e.event.id == id && e.event.markRead)
  {
    var more := edits + {e};
    assert e in more;
    forall x | x in edits ensures x in more {}
    forall l | l in Added(edits, id) ensures l in Added(more, id) {
      var x :| x in edits && x.event.id == id && x.id == l;
      assert x in more;
    }
  }

  /** One modification is one more edit. */
  lemma ModifiedIsMailAfter(on: set<LabelId>, edits: set<Edit>, e: Edit)
    requires e.id.Other?
    ensures Modified(MailAfter(on, edits, e.event.id), e.id, e.event.markRead)
         == MailAfter(on, edits + {e}, e.event.id)
  {
    AddedMore(edits, e, e.event.id);
  }

  lemma GmailOkModify(w: World, g: Gmail, c: LabelTask)
    requires GmailOk(w, g) && LabEnabled(w, g, c, LModify)
    requires FindLabel(w, g.labels, c.event.labelName) == Some(c.pc.id)
    ensures GmailOk(w, GmailAfter(w, g, c, LModify))
  {
    var g' := GmailAfter(w, g, c, LModify);
    var i := FindLabelFound(w, g.labels, c.event.labelName);
    MailModify(w, g, c);
  }

  lemma MailModify(w: World, g: Gmail, c: LabelTask)
    requires GmailOk(w, g) && LabEnabled(w, g, c, LModify) && c.pc.id.Other?
    ensures var g' := GmailAfter(w, g, c, LModify);
      forall id :: id in g'.mail ==> g'.mail[id] == MailAfter(g'.arrived[id], g'.edits, id)
  {
    var g' := GmailAfter(w, g, c, LModify);
    var e := Edit(c.event, c.pc.id);
    forall id | id in g'.mail ensures g'.mail[id] == MailAfter(g'.arrived[id], g'.edits, id) {
      if id == c.event.id {
        ModifiedIsMailAfter(g.arrived[id], g.edits, e);
      } else {
        AddedMore(g.edits, e, id);
      }
    }
  }

  /** A created label is found by its own name; other lookups are as before. */
  lemma CreatedLabel(w: World, g: Gmail, c: LabelTask, id: LabelId, name: string)
    requires LabEnabled(w, g, c, LCreate(id))
    ensures var g' := GmailAfter(w, g, c, LCreate(id));
      && (FindLabel(w, g.labels, name).Some? ==> FindLabel(w, g'.labels, name) == FindLabel(w, g.labels, name))
      && FindLabel(w, g'.labels, c.event.labelName) == Some(id)
  {
    FindLabelAppend(w, g.labels, Label(id, c.event.labelName), name);
    FindLabelAppend(w, g.labels, Label(id, c.event.labelName), c.event.labelName);
  }

  lemma GmailOkCreate(w: World, g: Gmail, c: LabelTask, id: LabelId)
    requires GmailOk(w, g) && LabEnabled(w, g, c, LCreate(id))
    ensures GmailOk(w, GmailAfter(w, g, c, LCreate(id)))
  {
    var g' := GmailAfter(w, g, c, LCreate(id));
    forall e | e in g.edits ensures FindLabel(w, g'.labels, e.event.labelName) == Some(e.id) {
      CreatedLabel(w, g, c, id, e.event.labelName);
    }
    var i := FindLabelFound(w, g.labels, c.event.labelName);
  }

  lemma EditedForMore(edits: set<Edit>, base: RunId, e: Edit)
    ensures forall k, name :: EditedFor(edits, base, k, name) ==> EditedFor(edits + {e}, base, k, name)
  {
    assert e in edits + {e};
    forall k, name | EditedFor(edits, base, k, name) ensures EditedFor(edits + {e}, base, k, name) {
      var x :| x in edits && x.event.run >= base && KeyOfLabel(x.event) == k && x.event.labelName == name;
      assert x in edits + {e};
    }
  }

  lemma FoundOkKept(w: World, g: Gmail, lab: multiset<LabelTask>, c: LabelTask, a: LabelAct)
    requires FoundOk(w, g.labels, lab) && c in lab && LabEnabled(w, g, c, a)
    ensures FoundOk(w, GmailAfter(w, g, c, a).labels, lab - multiset{c} + LabAfter(w, g, c, a))
  {
    if a.LCreate? {
      forall name ensures FindLabel(w, g.labels, name).Some? ==>
        FindLabel(w, GmailAfter(w, g, c, a).labels, name) == FindLabel(w, g.labels, name)
      {
        CreatedLabel(w, g, c, a.id, name);
      }
      CreatedLabel(w, g, c, a.id, c.event.labelName);
    }
  }

  lemma EditedOkKept(w: World, g: Gmail, lab: multiset<LabelTask>, published: map<RunId, seq<RawEvent>>,
                     rows: map<Key, Row>, c: LabelTask, a: LabelAct)
    requires EditedOk(g.edits, lab) && LabOk(lab, published, rows) && c in lab && LabEnabled(w, g, c, a)
    ensures EditedOk(GmailAfter(w, g, c, a).edits, lab - multiset{c} + LabAfter(w, g, c, a))
  {
    if a == LModify {
      assert Edit(c.event, c.pc.id) in GmailAfter(w, g, c, a).edits;
      assert forall le :: HasEdit(g.edits, le) ==> HasEdit(GmailAfter(w, g, c, a).edits, le);
    }
  }

  lemma AppliedOkKept(w: World, g: Gmail, base: RunId, lab: multiset<LabelTask>, rows: map<Key, Row>,
                      c: LabelTask, a: LabelAct)
    requires EditedOk(g.edits, lab) && AppliedOk(g.edits, base, rows)
    requires c in lab && c.event.run >= base && LabEnabled(w, g, c, a)
    ensures AppliedOk(GmailAfter(w, g, c, a).edits, base, RowsAfterLab(rows, c, a))
  {
    if a == LModify { EditedForMore(g.edits, base, Edit(c.event, c.pc.id)); }
    if a == LMark {
      assert HasEdit(g.edits, c.event);
      assert EditedFor(g.edits, base, KeyOfLabel(c.event), c.event.labelName);
    }
  }

  lemma EditsOkKeptRaw(w: World, s: State, t: RawTask, a: RawAct)
    requires EditsOk(w, s.gmail, s.lab, s.rows) && t in s.raw && RawEnabled(t, a)
    ensures var s' := NextRaw(w, s, t, a); EditsOk(w, s.gmail, s'.lab, s'.rows)
  {
  }

  /** Nothing was ever done to a message that has not arrived. */
  lemma GmailOkArrive(w: World, g: Gmail, m: Message, on: set<LabelId>)
    requires GmailOk(w, g) && m.id !in g.contents
    ensures GmailOk(w, g.(contents := g.contents[m.id := m], mail := g.mail[m.id := on],
                          arrived := g.arrived[m.id := on]))
  {
    assert Added(g.edits, m.id) == {} && !Touched(g.edits, m.id) && !TouchedRead(g.edits, m.id);
  }

  // ----- all of it ----------------------------------------------------------------------

  ghost predicate Inv(w: World, s: State) {
    && ScansOk(s.scans) && EventsOk(s.scans, s.gmail.contents)
    && RawOk(s.raw, s.scans.published, s.rows) && RowsOk(s.rows, s.scans.published)
    && LabOk(s.lab, s.scans.published, s.rows) && LogOk(s.gmail.edits, s.lost, s.scans.published)
    && GmailOk(w, s.gmail) && EditsOk(w, s.gmail, s.lab, s.rows)
  }

  /** New scan rows, a longer history and at most one new event of it on the queue do no harm. */
  lemma InvWithScans(w: World, s: State, q: Scans, es: seq<RawEvent>)
    requires Inv(w, s) && ScansOk(q) && EventsOk(q, s.gmail.contents) && Grows(s.scans.published, q.published)
    requires |es| <= 1 && forall e :: e in es ==> Issued(q.published, e)
    ensures Inv(w, s.(scans := q, raw := s.raw + Queue(es)))
  {
    RawAndRowsGrow(s.raw, s.rows, s.scans.published, q.published);
    LabAndLogGrow(s, q.published);
    RawOkQueued(s.raw, q.published, s.rows, es);
  }

  lemma EmittedIsIssued(q: Scans, contents: map<string, Message>, r: RunId, a: ApiAct)
    requires ApiEnabled(q, contents, r, a)
    ensures var es := Emitted(r, q.loops[r], a);
      |es| <= 1 && forall e :: e in es ==> Issued(ScansAfter(q, contents, r, a).published, e)
  {
  }

  lemma InvKeptApi(w: World, s: State, r: RunId, a: ApiAct)
    requires Inv(w, s) && ApiEnabled(s.scans, s.gmail.contents, r, a)
    ensures Inv(w, NextApi(s, r, a))
  {
    ScansOkKept(s.scans, s.gmail.contents, r, a);
    EventsOkKept(s.scans, s.gmail.contents, r, a);
    EmittedIsIssued(s.scans, s.gmail.contents, r, a);
    InvWithScans(w, s, ScansAfter(s.scans, s.gmail.contents, r, a), Emitted(r, s.scans.loops[r], a));
  }

  lemma RawOkQueued(raw: multiset<RawTask>, published: map<RunId, seq<RawEvent>>, rows: map<Key, Row>,
                    es: seq<RawEvent>)
    requires RawOk(raw, published, rows) && |es| <= 1 && forall e :: e in es ==> Issued(published, e)
    ensures RawOk(raw + Queue(es), published, rows)
  {
    QueueOfOne(es);
  }

  lemma QueueOfOne(es: seq<RawEvent>)
    requires |es| <= 1
    ensures Queue(es) == if es == [] then multiset{} else multiset{RawTask(es[0], Ready, true)}
  {
  }

  lemma InvKeptRaw(w: World, s: State, t: RawTask, a: RawAct)
    requires Inv(w, s) && t in s.raw && RawEnabled(t, a)
    ensures Inv(w, NextRaw(w, s, t, a))
  {
    RawOkKept(w, s, t, a);
    RowsOkKeptRaw(s.rows, s.scans.published, t, a);
    LabOkKeptRaw(w, s, t, a);
    EditsOkKeptRaw(w, s, t, a);
  }

  lemma InvKeptLab(w: World, s: State, c: LabelTask, a: LabelAct)
    requires Inv(w, s) && c in s.lab && LabEnabled(w, s.gmail, c, a)
    ensures Inv(w, NextLab(w, s, c, a))
  {
    RowsOkKeptLab(s.rows, s.scans.published, c, a);
    LabOkKept(w, s, c, a);
    LogOkKept(w, s, c, a);
    FoundOkKept(w, s.gmail, s.lab, c, a);
    EditedOkKept(w, s.gmail, s.lab, s.scans.published, s.rows, c, a);
    AppliedOkKept(w, s.gmail, 0, s.lab, s.rows, c, a);
    match a {
      case LModify => GmailOkModify(w, s.gmail, c);
      case LCreate(id) => GmailOkCreate(w, s.gmail, c, id);
      case _ =>
    }
  }

  lemma NewScanOk(q: Scans, contents: map<string, Message>, req: Request)
    requires ScansOk(q) && EventsOk(q, contents)
    ensures var q' := NewScan(q, req);
      ScansOk(q') && EventsOk(q', contents) && Grows(q.published, q'.published)
  {
    var q' := NewScan(q, req);
    forall r, e | r in q'.published && e in q'.published[r] ensures FromRun(q', contents, r, e) {
      assert r != q.nextRun;
      assert FromRun(q, contents, r, e);
    }
  }

  lemma InvKeptScan(w: World, s: State, req: Request)
    requires Inv(w, s)
    ensures Inv(w, s.(scans := NewScan(s.scans, req)))
  {
    NewScanOk(s.scans, s.gmail.contents, req);
    InvWithScans(w, s, NewScan(s.scans, req), []);
    assert s.raw + Queue([]) == s.raw;
  }

  lemma EventsOkArrive(q: Scans, contents: map<string, Message>, m: Message)
    requires EventsOk(q, contents) && m.id !in contents
    ensures EventsOk(q, contents[m.id := m])
  {
    var more := contents[m.id := m];
    forall r, x | r in q.loops && q.loops[r].phase.Batch? && x in q.loops[r].phase.pending ensures Known(more, x) {
      assert Known(contents, x);
    }
    forall r, e | r in q.published && e in q.published[r] ensures FromRun(q, more, r, e) {
      assert FromRun(q, contents, r, e);
    }
  }

  lemma InvKeptArrive(w: World, s: State, m: Message, on: set<LabelId>)
    requires Inv(w, s) && m.id !in s.gmail.contents
    ensures Inv(w, NextArrive(s, m, on))
  {
    GmailOkArrive(w, s.gmail, m, on);
    EventsOkArrive(s.scans, s.gmail.contents, m);
  }

  lemma InvKept(w: World, s: State, step: Step)
    requires Inv(w, s) && Enabled(w, s, step)
    ensures Inv(w, Next(w, s, step))
  {
    match step {
      case Api(r, a) => InvKeptApi(w, s, r, a);
      case Raw(t, a) => InvKeptRaw(w, s, t, a);
      case Lab(c, a) => InvKeptLab(w, s, c, a);
      case StartScan(req) => InvKeptScan(w, s, req);
      case Arrive(m, on) => InvKeptArrive(w, s, m, on);
      case EditRules(_) =>
    }
  }

  lemma InvInitial(w: World, s: State)
    requires Initial(w, s)
    ensures Inv(w, s)
  {
  }

  lemma {:induction false} InvAlways(w: World, s: State, steps: seq<Step>)
    requires Inv(w, s) && Valid(w, s, steps)
    ensures Inv(w, Exec(w, s, steps))
  {
    if steps != [] {
      var n := |steps| - 1;
      InvAlways(w, s, steps[..n]);
      InvKept(w, Exec(w, s, steps[..n]), steps[n]);
    }
  }

  /** The invariant holds in every reachable state, whatever the interleaving, faults and crashes. */
  lemma InvReachable(w: World, s: State)
    requires Reachable(w, s)
    ensures Inv(w, s)
  {
    var s0, steps :| Initial(w, s0) && Valid(w, s0, steps) && Exec(w, s0, steps) == s;
    InvInitial(w, s0);
    InvAlways(w, s0, steps);
  }
}
