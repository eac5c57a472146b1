/** One scan, any interleaving: the outcome is that of handling each published message once, in order. */
module ExactlyOnce {
  import opened Common
  import opened Rules
  import opened Classifier
  import opened Pipeline
  import opened Invariants
  import opened NoLostWork
  import opened FixedRules
  import opened Safety

  // ----- the reference: one message after the other ------------------------------

  datatype Outcome = Outcome(rows: map<Key, Row>, mail: map<string, set<LabelId>>)

  /** The final row of a message handled once. */
  function DoneRow(e: RawEvent, c: Classification): Row {
    if e.mode == DryRun then NewRow(e, c) else MarkRow(NewRow(e, c), c.labelName)
  }

  /** The labels of a message handled once; `labels` says which label ids names stand for. */
  function Relabelled(w: World, labels: seq<Label>, e: RawEvent, c: Classification, on: set<LabelId>): set<LabelId> {
    var id := FindLabel(w, labels, c.labelName);
    if e.mode == Apply && id.Some? then Modified(on, id.value, e.markRead) else on
  }

  /** Handle one message to the end. */
  function HandleOne(w: World, table: seq<UserRule>, labels: seq<Label>, e: RawEvent, o: Outcome): Outcome {
    var c := w.triage(table, e.user, e.message);
    var id := e.message.id;
    Outcome(
      o.rows[KeyOf(e) := DoneRow(e, c)],
      if id in o.mail then o.mail[id := Relabelled(w, labels, e, c, o.mail[id])] else o.mail)
  }

  function HandleAll(w: World, table: seq<UserRule>, labels: seq<Label>, es: seq<RawEvent>, o: Outcome): Outcome {
    if es == [] then o
    else HandleOne(w, table, labels, es[|es| - 1], HandleAll(w, table, labels, es[..|es| - 1], o))
  }

  /** The first event about each message. */
  function FirstSeen(es: seq<RawEvent>): seq<RawEvent> {
    if es == [] then []
    else
      var before := FirstSeen(es[..|es| - 1]);
      var last := es[|es| - 1];
      if Mentions(before, KeyOf(last)) then before else before + [last]
  }

  // ----- what holds from the start of the scan on ----------------------------------

  ghost predicate RowsFrame(rows0: map<Key, Row>, rows: map<Key, Row>, r: RunId) {
    && rows0.Keys <= rows.Keys
    && forall k :: k in rows ==> rows[k].run >= r || (k in rows0 && rows[k] == rows0[k])
  }

  /** The edits of the runs before `r` are those there were, and messages arrived as they did. */
  ghost predicate MailFrame(g0: Gmail, g: Gmail, r: RunId) {
    && (forall e :: e in g0.edits <==> e in g.edits && e.event.run < r)
    && (forall id :: id in g0.arrived ==> id in g.arrived && g.arrived[id] == g0.arrived[id])
  }

  /** The label table has grown by labels that were called for. */
  ghost predicate TableFrame(w: World, table: seq<UserRule>, labels0: seq<Label>, labels: seq<Label>,
                             es: seq<RawEvent>) {
    && labels0 <= labels
    && forall i :: |labels0| <= i < |labels| ==> LabelWanted(w, table, es, labels[i].name)
  }

  /** Some apply-mode event calls for the label name, up to case folding. */
  ghost predicate LabelWanted(w: World, table: seq<UserRule>, es: seq<RawEvent>, name: string) {
    exists e :: e in es && e.mode == Apply && w.fold(w.triage(table, e.user, e.message).labelName) == w.fold(name)
  }

  ghost predicate StatusFits(rows: map<Key, Row>, r: RunId, mode: Mode) {
    forall k :: k in rows && rows[k].run >= r ==> (rows[k].status == DryRunDone <==> mode == DryRun)
  }

  /** A run from `r` on has edited the message of the key. */
  ghost predicate EditedKey(edits: set<Edit>, r: RunId, k: Key) {
    exists e :: e in edits && e.event.run >= r && KeyOfLabel(e.event) == k
  }

  ghost predicate Since(w: World, s0: State, s: State, r: RunId) {
    && r == s0.scans.nextRun && s.scans.nextRun == r + 1 && r in s.scans.asked && r in s.scans.published
    && s.rules == s0.rules
    && Inv(w, s) && Says(w, s, r) && AllPursued(s, r)
    && EventsKept(s.scans.published, s.raw, s.rows, r)
    && AppliedOk(s.gmail.edits, r, s.rows)
    && RowsFrame(s0.rows, s.rows, r)
    && MailFrame(s0.gmail, s.gmail, r)
    && TableFrame(w, s0.rules, s0.gmail.labels, s.gmail.labels, s.scans.published[r])
    && StatusFits(s.rows, r, s.scans.asked[r].mode)
  }

  /** Steps of one scan with fixed rules: no other scan starts or publishes. */
  predicate Clean(r: RunId, step: Step) {
    && !step.EditRules? && !step.StartScan?
    && (step.Api? ==> step.run == r)
  }

  lemma OldRows(q: Scans, rows: map<Key, Row>)
    requires ScansOk(q) && RowsOk(rows, q.published)
    ensures forall k :: k in rows ==> rows[k].run < q.nextRun
  {
    forall k | k in rows ensures rows[k].run < q.nextRun {
      assert Stamp(q.published, rows[k].run, k);
    }
  }

  lemma OldEdits(q: Scans, g: Gmail, lost: Lost)
    requires ScansOk(q) && LogOk(g.edits, lost, q.published)
    ensures forall e :: e in g.edits ==> e.event.run < q.nextRun
  {
    assert forall le :: Traced(q.published, le) ==> le.run < q.nextRun;
  }

  lemma StartSays(w: World, s: State, r: RunId)
    requires Quiescent(s) && r <= s.scans.nextRun
    requires forall k :: k in s.rows ==> s.rows[k].run < r
    requires forall e :: e in s.gmail.edits ==> e.event.run < r
    ensures Says(w, s, r)
    ensures AppliedOk(s.gmail.edits, r, s.rows)
    ensures forall mode :: StatusFits(s.rows, r, mode)
  {
  }

  /** No event of the new run was published yet. */
  lemma StartEvents(s: State, req: Request)
    requires ScansOk(s.scans)
    ensures var s1 := s.(scans := NewScan(s.scans, req));
      && EventsKept(s1.scans.published, s1.raw, s1.rows, s.scans.nextRun)
      && AllPursued(s1, s.scans.nextRun)
  {
  }

  lemma StartOfScan(w: World, s0: State, req: Request)
    requires Inv(w, s0) && Quiescent(s0)
    ensures Since(w, s0, s0.(scans := NewScan(s0.scans, req)), s0.scans.nextRun)
  {
    var r := s0.scans.nextRun;
    InvKeptScan(w, s0, req);
    OldRows(s0.scans, s0.rows);
    OldEdits(s0.scans, s0.gmail, s0.lost);
    StartEvents(s0, req);
    StartSays(w, s0.(scans := NewScan(s0.scans, req)), r);
  }

  // ----- kept by every clean step --------------------------------------------------------

  lemma TheOnlyRun(w: World, s0: State, s: State, r: RunId, le: LabelEvent)
    requires Since(w, s0, s, r) && Traced(s.scans.published, le) && le.run >= r
    ensures le.run == r && s.scans.asked[r].mode == Apply
    ensures exists e ::
      e in s.scans.published[r] && Parent(e, le) && FromRun(s.scans, s.gmail.contents, r, e)
  {
    var e :| e in s.scans.published[le.run] && Parent(e, le);
    assert FromRun(s.scans, s.gmail.contents, le.run, e);
  }

  lemma SinceApi(w: World, s0: State, s: State, r: RunId, a: ApiAct)
    requires Since(w, s0, s, r) && ApiEnabled(s.scans, s.gmail.contents, r, a)
    ensures Since(w, s0, NextApi(s, r, a), r)
  {
    InvKeptApi(w, s, r, a);
    SaysKeptApi(w, s, r, r, a);
    AllPursuedApi(s, r, r, a);
    EventsKeptApi(s, r, r, a);
    WantedMore(w, s0.rules, s.scans.published[r], Emitted(r, s.scans.loops[r], a));
  }

  lemma WantedMore(w: World, table: seq<UserRule>, es: seq<RawEvent>, more: seq<RawEvent>)
    ensures forall name :: LabelWanted(w, table, es, name) ==> LabelWanted(w, table, es + more, name)
  {
    assert forall e :: e in es ==> e in es + more;
  }

  lemma LandedFromSays(w: World, s: State, r: RunId)
    requires RawSays(w, s.rules, r, s.raw, s.rows)
    ensures Landed(s.raw, s.rows, r)
  {
    forall t | t in s.raw
      ensures t.event.run >= r && (t.pc.Stored? || t.pc == Sent ==> HasRow(s.rows, r, KeyOf(t.event)))
    {
      assert TaskSays(w, s.rules, r, s.rows, t);
    }
  }

  lemma StatusFitsRaw(q: Scans, contents: map<string, Message>, rows: map<Key, Row>, r: RunId, t: RawTask, a: RawAct)
    requires FromRun(q, contents, r, t.event) && RawEnabled(t, a)
    requires StatusFits(rows, r, q.asked[r].mode)
    ensures StatusFits(RowsAfterRaw(rows, t, a), r, q.asked[r].mode)
  {
  }

  lemma SinceRaw(w: World, s0: State, s: State, r: RunId, t: RawTask, a: RawAct)
    requires Since(w, s0, s, r) && t in s.raw && RawEnabled(t, a)
    ensures Since(w, s0, NextRaw(w, s, t, a), r)
  {
    InvKeptRaw(w, s, t, a);
    IssuedIsKnown(s, t.event);
    assert TaskSays(w, s.rules, r, s.rows, t);
    assert t.event.run == r && FromRun(s.scans, s.gmail.contents, r, t.event);
    SaysKeptRaw(w, s, r, t, a);
    AllPursuedStep(w, s, r, Raw(t, a));
    LandedFromSays(w, s, r);
    EventsKeptRaw(w, s, r, t, a);
    StatusFitsRaw(s.scans, s.gmail.contents, s.rows, r, t, a);
    FrameRaw(s0, s, w, r, t, a);
  }

  lemma FrameRaw(s0: State, s: State, w: World, r: RunId, t: RawTask, a: RawAct)
    requires t in s.raw && RawEnabled(t, a) && t.event.run >= r
    requires RowsFrame(s0.rows, s.rows, r)
    requires AppliedOk(s.gmail.edits, r, s.rows)
    ensures var s' := NextRaw(w, s, t, a);
      RowsFrame(s0.rows, s'.rows, r) && AppliedOk(s.gmail.edits, r, s'.rows)
  {
  }

  lemma TableFrameKept(w: World, table: seq<UserRule>, labels0: seq<Label>, g: Gmail, es: seq<RawEvent>,
                       c: LabelTask, a: LabelAct)
    requires TableFrame(w, table, labels0, g.labels, es) && LabEnabled(w, g, c, a)
    requires LabelWanted(w, table, es, c.event.labelName)
    ensures TableFrame(w, table, labels0, GmailAfter(w, g, c, a).labels, es)
  {
  }

  lemma MailFrameKept(w: World, g0: Gmail, g: Gmail, r: RunId, c: LabelTask, a: LabelAct)
    requires MailFrame(g0, g, r) && LabEnabled(w, g, c, a) && c.event.run >= r
    ensures MailFrame(g0, GmailAfter(w, g, c, a), r)
  {
  }

  /** A label event asks for what triage says of a published event. */
  lemma EventIsWanted(w: World, s: State, r: RunId, e: RawEvent, le: LabelEvent)
    requires r in s.scans.published && e in s.scans.published[r] && Parent(e, le) && Known(s.gmail.contents, e.message)
    requires EventSays(w, s.rules, s.gmail.contents, le)
    ensures LabelWanted(w, s.rules, s.scans.published[r], le.labelName)
  {
    assert w.triage(s.rules, e.user, e.message).labelName == le.labelName;
  }

  lemma GmailFramesKept(w: World, s0: State, s: State, r: RunId, c: LabelTask, a: LabelAct)
    requires Since(w, s0, s, r) && c in s.lab && LabEnabled(w, s.gmail, c, a)
    ensures var g' := GmailAfter(w, s.gmail, c, a);
      MailFrame(s0.gmail, g', r) && TableFrame(w, s0.rules, s0.gmail.labels, g'.labels, s.scans.published[r])
  {
    TheOnlyRun(w, s0, s, r, c.event);
    var e :| e in s.scans.published[r] && Parent(e, c.event) && FromRun(s.scans, s.gmail.contents, r, e);
    EventIsWanted(w, s, r, e, c.event);
    TableFrameKept(w, s0.rules, s0.gmail.labels, s.gmail, s.scans.published[r], c, a);
    MailFrameKept(w, s0.gmail, s.gmail, r, c, a);
  }

  lemma FrameLab(w: World, s0: State, s: State, r: RunId, c: LabelTask, a: LabelAct)
    requires Since(w, s0, s, r) && c in s.lab && LabEnabled(w, s.gmail, c, a)
    ensures var s' := NextLab(w, s, c, a);
      RowsFrame(s0.rows, s'.rows, r) && StatusFits(s'.rows, r, s.scans.asked[r].mode)
  {
    TheOnlyRun(w, s0, s, r, c.event);
    RowsFrameLab(s0.rows, s.rows, r, s.scans.asked[r].mode, c, a);
  }

  lemma RowsFrameLab(rows0: map<Key, Row>, rows: map<Key, Row>, r: RunId, mode: Mode, c: LabelTask, a: LabelAct)
    requires RowsFrame(rows0, rows, r) && StatusFits(rows, r, mode) && mode == Apply
    requires HasRow(rows, r, KeyOfLabel(c.event))
    ensures RowsFrame(rows0, RowsAfterLab(rows, c, a), r) && StatusFits(RowsAfterLab(rows, c, a), r, mode)
  {
  }

  lemma SinceLab(w: World, s0: State, s: State, r: RunId, c: LabelTask, a: LabelAct)
    requires Since(w, s0, s, r) && c in s.lab && LabEnabled(w, s.gmail, c, a)
    ensures Since(w, s0, NextLab(w, s, c, a), r)
  {
    InvKeptLab(w, s, c, a);
    SaysKeptLab(w, s, r, c, a);
    AllPursuedStep(w, s, r, Lab(c, a));
    EventsKeptLab(w, s, r, c, a);
    AppliedOkKept(w, s.gmail, r, s.lab, s.rows, c, a);
    GmailFramesKept(w, s0, s, r, c, a);
    FrameLab(w, s0, s, r, c, a);
  }

  lemma SinceArrive(w: World, s0: State, s: State, r: RunId, m: Message, on: set<LabelId>)
    requires Since(w, s0, s, r) && m.id !in s.gmail.contents
    ensures Since(w, s0, NextArrive(s, m, on), r)
  {
    InvKeptArrive(w, s, m, on);
    SaysKeptArrive(w, s, r, m, on);
    AllPursuedStep(w, s, r, Arrive(m, on));
  }

  lemma SinceStep(w: World, s0: State, s: State, r: RunId, step: Step)
    requires Since(w, s0, s, r) && Enabled(w, s, step) && Clean(r, step)
    ensures Since(w, s0, Next(w, s, step), r)
  {
    match step {
      case Api(_, a) => SinceApi(w, s0, s, r, a);
      case Raw(t, a) => SinceRaw(w, s0, s, r, t, a);
      case Lab(c, a) => SinceLab(w, s0, s, r, c, a);
      case Arrive(m, on) => SinceArrive(w, s0, s, r, m, on);
    }
  }

  // ----- the reference in closed form ---------------------------------------------------

  /** The events are those of one run about messages of the mailbox, so a key determines its event. */
  ghost predicate OfRun(r: RunId, req: Request, contents: map<string, Message>, es: seq<RawEvent>) {
    forall e :: e in es ==> e == EventFor(r, req, e.message) && Known(contents, e.message)
  }

  lemma {:induction false} FirstSeenMentions(es: seq<RawEvent>, k: Key)
    ensures forall e :: e in FirstSeen(es) ==> e in es
    ensures Mentions(FirstSeen(es), k) <==> Mentions(es, k)
  {
    if es != [] {
      var n := |es| - 1;
      FirstSeenMentions(es[..n], k);
      assert es == es[..n] + [es[n]];
      if KeyOf(es[n]) == k { assert es[n] in es; }
      if Mentions(es, k) && KeyOf(es[n]) == k && FirstSeen(es) == FirstSeen(es[..n]) {
        assert Mentions(FirstSeen(es), k);
      }
    }
  }

  lemma OneMore(f: seq<RawEvent>, e: RawEvent)
    requires OncePerKey(f) && !Mentions(f, KeyOf(e))
    ensures OncePerKey(f + [e])
  {
    forall i | 0 <= i < |f| ensures KeyOf(f[i]) != KeyOf(e) {
      assert f[i] in f;
    }
  }

  /** No key comes twice in what the reference handles. */
  lemma {:induction false} FirstSeenOnce(es: seq<RawEvent>)
    ensures OncePerKey(FirstSeen(es))
  {
    if es != [] {
      FirstSeenOnce(es[..|es| - 1]);
      var before := FirstSeen(es[..|es| - 1]);
      var last := es[|es| - 1];
      if !Mentions(before, KeyOf(last)) { OneMore(before, last); }
    }
  }

  lemma MentionsMore(es: seq<RawEvent>, k: Key)
    requires es != []
    ensures Mentions(es, k) <==> Mentions(es[..|es| - 1], k) || KeyOf(es[|es| - 1]) == k
  {
    var n := |es| - 1;
    assert es == es[..n] + [es[n]];
    if KeyOf(es[n]) == k { assert es[n] in es; }
  }

  lemma {:induction false} HandledRows(w: World, table: seq<UserRule>, labels: seq<Label>, r: RunId, req: Request,
                                       contents: map<string, Message>, es: seq<RawEvent>, o: Outcome, k: Key)
    requires OfRun(r, req, contents, es)
    ensures var rows := HandleAll(w, table, labels, es, o).rows;
      && (Mentions(es, k) ==>
            && k in rows && k.id in contents && k.user == req.user
            && var e := EventFor(r, req, contents[k.id]);
               rows[k] == DoneRow(e, w.triage(table, e.user, e.message)))
      && (!Mentions(es, k) ==> (k in rows <==> k in o.rows) && (k in rows ==> rows[k] == o.rows[k]))
  {
    if es != [] {
      var n := |es| - 1;
      assert es[n] in es;
      HandledRows(w, table, labels, r, req, contents, es[..n], o, k);
      MentionsMore(es, k);
    }
  }

  /** Handling a message a second time changes nothing. */
  lemma RelabelledTwice(w: World, labels: seq<Label>, e: RawEvent, c: Classification, on: set<LabelId>)
    ensures Relabelled(w, labels, e, c, Relabelled(w, labels, e, c, on)) == Relabelled(w, labels, e, c, on)
  {
  }

  lemma {:induction false} HandledMail(w: World, table: seq<UserRule>, labels: seq<Label>, r: RunId, req: Request,
                                       contents: map<string, Message>, es: seq<RawEvent>, o: Outcome, id: string)
    requires OfRun(r, req, contents, es)
    ensures var mail := HandleAll(w, table, labels, es, o).mail;
      && (id in mail <==> id in o.mail)
      && (id in mail && !Mentions(es, Key(req.user, id)) ==> mail[id] == o.mail[id])
      && (id in mail && Mentions(es, Key(req.user, id)) ==>
            && id in contents
            && var e := EventFor(r, req, contents[id]);
               mail[id] == Relabelled(w, labels, e, w.triage(table, e.user, e.message), o.mail[id]))
  {
    if es != [] {
      var n := |es| - 1;
      var k := Key(req.user, id);
      assert es[n] in es;
      HandledMail(w, table, labels, r, req, contents, es[..n], o, id);
      MentionsMore(es, k);
      if KeyOf(es[n]) == k && id in o.mail {
        RelabelledTwice(w, labels, es[n], w.triage(table, es[n].user, es[n].message), o.mail[id]);
      }
    }
  }

  // ----- the scan in closed form ----------------------------------------------------------

  lemma PublishedOfRun(s: State, r: RunId)
    requires EventsOk(s.scans, s.gmail.contents) && r in s.scans.published && r in s.scans.asked
    ensures OfRun(r, s.scans.asked[r], s.gmail.contents, s.scans.published[r])
  {
    forall e | e in s.scans.published[r]
      ensures e == EventFor(r, s.scans.asked[r], e.message) && Known(s.gmail.contents, e.message)
    {
      assert FromRun(s.scans, s.gmail.contents, r, e);
    }
  }

  lemma LastRun(q: Scans, rows: map<Key, Row>, r: RunId, k: Key)
    requires ScansOk(q) && RowsOk(rows, q.published) && q.nextRun == r + 1 && HasRow(rows, r, k)
    ensures rows[k].run == r && Mentions(q.published[r], k)
  {
    assert Stamp(q.published, rows[k].run, k);
    var e :| e in q.published[rows[k].run] && KeyOf(e) == k;
  }

  lemma MentionedHasRow(q: Scans, raw: multiset<RawTask>, rows: map<Key, Row>, r: RunId, k: Key)
    requires EventsKept(q.published, raw, rows, r) && raw == multiset{}
    requires r in q.published && Mentions(q.published[r], k)
    ensures HasRow(rows, r, k)
  {
    var e :| e in q.published[r] && KeyOf(e) == k;
    assert Awaited(raw, e) || HasRow(rows, r, KeyOf(e));
  }

  /** With both queues empty, the rows of the run are exactly those of its published messages. */
  lemma RowsOfRun(w: World, s0: State, s: State, r: RunId, k: Key)
    requires Since(w, s0, s, r) && Quiescent(s)
    ensures HasRow(s.rows, r, k) <==> Mentions(s.scans.published[r], k)
    ensures HasRow(s.rows, r, k) ==> s.rows[k].run == r
  {
    if Mentions(s.scans.published[r], k) { MentionedHasRow(s.scans, s.raw, s.rows, r, k); }
    if HasRow(s.rows, r, k) { LastRun(s.scans, s.rows, r, k); }
  }

  /** An event of the run for the key was given up, for an error that Gmail does not take back. */
  ghost predicate DroppedFor(drops: set<Drop>, r: RunId, k: Key) {
    exists d :: d in drops && d.event.run == r && KeyOfLabel(d.event) == k && IsPermanentError(d.error)
  }

  /** An apply event of the run was published for the key, and its message has not been edited. */
  ghost predicate Missed(s: State, r: RunId, k: Key) {
    && r in s.scans.asked && r in s.scans.published && s.scans.asked[r].mode == Apply
    && Mentions(s.scans.published[r], k) && !EditedKey(s.gmail.edits, r, k)
  }

  ghost predicate NothingMissed(s: State, r: RunId) {
    forall k :: !Missed(s, r, k)
  }

  lemma SettledByEditOrDrop(edits: set<Edit>, drops: set<Drop>, r: RunId, e: RawEvent)
    requires Settled(edits, drops, e) && e.run == r && forall d :: d in drops ==> IsPermanentError(d.error)
    ensures EditedKey(edits, r, KeyOf(e)) || DroppedFor(drops, r, KeyOf(e))
  {
  }

  /** A message is missed only when its event was dropped. */
  lemma MissedWasDropped(w: World, s0: State, s: State, r: RunId, k: Key)
    requires Since(w, s0, s, r) && Quiescent(s) && Missed(s, r, k)
    ensures DroppedFor(s.lost.drops, r, k)
  {
    PublishedOfRun(s, r);
    var e :| e in s.scans.published[r] && KeyOf(e) == k;
    SettledAtRest(s, r, r, e);
    SettledByEditOrDrop(s.gmail.edits, s.lost.drops, r, e);
  }

  lemma AppliedWasEdited(edits: set<Edit>, r: RunId, rows: map<Key, Row>, k: Key)
    requires AppliedOk(edits, r, rows) && k in rows && rows[k].run >= r
    ensures rows[k].applied.Some? ==> EditedKey(edits, r, k)
  {
    if rows[k].applied.Some? { assert EditedFor(edits, r, k, rows[k].applied.value); }
  }

  /** And then its row is still classified. */
  lemma MissedIsLeft(w: World, s0: State, s: State, r: RunId, k: Key)
    requires Since(w, s0, s, r) && Quiescent(s) && Missed(s, r, k)
    ensures LeftClassified(s.rows, r, k)
  {
    FinalRow(w, s0, s, r, k);
    AppliedWasEdited(s.gmail.edits, r, s.rows, k);
  }

  /** The final row of a message of the run: its result, marked when it was labelled; an apply result is
      otherwise still classified. */
  lemma FinalRow(w: World, s0: State, s: State, r: RunId, k: Key)
    requires Since(w, s0, s, r) && Quiescent(s) && Mentions(s.scans.published[r], k)
    ensures k in s.rows && k.id in s.gmail.contents && k.user == s.scans.asked[r].user && s.rows[k].run == r
    ensures var e := EventFor(r, s.scans.asked[r], s.gmail.contents[k.id]);
      var c := w.triage(s0.rules, e.user, e.message);
      s.rows[k] == if s.rows[k].status == Classified then NewRow(e, c) else DoneRow(e, c)
  {
    RowsOfRun(w, s0, s, r, k);
    PublishedOfRun(s, r);
    assert RowSays(w, s.rules, s.gmail.contents, k, s.rows[k]);
  }

  /** What each message carried before the scan, or when it arrived during it. */
  function MailBefore(g0: Gmail, g: Gmail): map<string, set<LabelId>> {
    map id | id in g.mail :: if id in g0.mail then g0.mail[id] else if id in g.arrived then g.arrived[id] else {}
  }

  lemma MailBeforeIsMailAfter(w: World, g0: Gmail, g: Gmail, r: RunId, id: string)
    requires GmailOk(w, g0) && GmailOk(w, g) && MailFrame(g0, g, r) && id in g.mail
    ensures MailBefore(g0, g)[id] == MailAfter(g.arrived[id], g0.edits, id)
  {
    if id !in g0.mail {
      assert Added(g0.edits, id) == {} && !Touched(g0.edits, id) && !TouchedRead(g0.edits, id);
    }
  }

  /** The edits of one run to one message amount to a single modification. */
  lemma EditsAmountToOne(on: set<LabelId>, edits0: set<Edit>, edits: set<Edit>, r: RunId, id: string, x: LabelId,
                         read: bool)
    requires x.Other?
    requires forall e :: e in edits0 <==> e in edits && e.event.run < r
    requires forall e :: e in edits && e.event.id == id && e.event.run >= r ==> e.id == x && e.event.markRead == read
    requires exists e :: e in edits && e.event.id == id && e.event.run >= r
    ensures MailAfter(on, edits, id) == Modified(MailAfter(on, edits0, id), x, read)
  {
    var y :| y in edits && y.event.id == id && y.event.run >= r;
    assert Touched(edits, id);
    assert Added(edits, id) == Added(edits0, id) + {x} by {
      forall l | l in Added(edits, id) ensures l in Added(edits0, id) + {x} {
        var e :| e in edits && e.event.id == id && e.id == l;
        if e.event.run < r { assert e in edits0; }
      }
    }
    if TouchedRead(edits, id) {
      var e :| e in edits && e.event.id == id && e.event.markRead;
      assert e in edits0 || read;
    }
  }

  lemma NoEditsNoChange(on: set<LabelId>, edits0: set<Edit>, edits: set<Edit>, r: RunId, id: string)
    requires forall e :: e in edits0 <==> e in edits && e.event.run < r
    requires forall e :: e in edits && e.event.id == id ==> e.event.run < r
    ensures MailAfter(on, edits, id) == MailAfter(on, edits0, id)
  {
    assert Added(edits, id) == Added(edits0, id);
  }

  /** Every edit of the run puts the label triage chose on a message the run mentions. */
  lemma EditOfRun(w: World, s0: State, s: State, r: RunId, e: Edit)
    requires Since(w, s0, s, r) && e in s.gmail.edits && e.event.run >= r
    ensures s.scans.asked[r].mode == Apply
    ensures Mentions(s.scans.published[r], Key(s.scans.asked[r].user, e.event.id))
    ensures e.event.markRead == s.scans.asked[r].markRead
    ensures e.event.id in s.gmail.contents && KeyOfLabel(e.event).user == s.scans.asked[r].user
    ensures var c := w.triage(s0.rules, s.scans.asked[r].user, s.gmail.contents[e.event.id]);
      FindLabel(w, s.gmail.labels, c.labelName) == Some(e.id)
  {
    TheOnlyRun(w, s0, s, r, e.event);
    var p :| p in s.scans.published[r] && Parent(p, e.event) && FromRun(s.scans, s.gmail.contents, r, p);
    assert EventSays(w, s.rules, s.gmail.contents, e.event);
  }

  /** An edited message is one of an apply run, and its label exists. */
  lemma EditedMessage(w: World, s0: State, s: State, r: RunId, k: Key)
    requires Since(w, s0, s, r) && EditedKey(s.gmail.edits, r, k)
    ensures s.scans.asked[r].mode == Apply && Mentions(s.scans.published[r], k)
    ensures k.id in s.gmail.contents && k.user == s.scans.asked[r].user
    ensures FindLabel(w, s.gmail.labels, w.triage(s0.rules, k.user, s.gmail.contents[k.id]).labelName).Some?
  {
    var e :| e in s.gmail.edits && e.event.run >= r && KeyOfLabel(e.event) == k;
    EditOfRun(w, s0, s, r, e);
  }

  /** The labels of a message that the run did not edit. */
  lemma UneditedMail(w: World, s0: State, s: State, r: RunId, id: string)
    requires Inv(w, s0) && Since(w, s0, s, r) && id in s.gmail.mail
    requires !EditedKey(s.gmail.edits, r, Key(s.scans.asked[r].user, id))
    ensures s.gmail.mail[id] == MailBefore(s0.gmail, s.gmail)[id]
  {
    MailBeforeIsMailAfter(w, s0.gmail, s.gmail, r, id);
    forall e | e in s.gmail.edits && e.event.id == id ensures e.event.run < r {
      if e.event.run >= r { EditOfRun(w, s0, s, r, e); }
    }
    NoEditsNoChange(s.gmail.arrived[id], s0.gmail.edits, s.gmail.edits, r, id);
  }

  /** And of one that it did. */
  lemma EditedMail(w: World, s0: State, s: State, r: RunId, id: string)
    requires Inv(w, s0) && Since(w, s0, s, r) && id in s.gmail.mail
    requires EditedKey(s.gmail.edits, r, Key(s.scans.asked[r].user, id))
    ensures id in s.gmail.contents
    ensures var e := EventFor(r, s.scans.asked[r], s.gmail.contents[id]);
      s.gmail.mail[id] == Relabelled(w, s.gmail.labels, e, w.triage(s0.rules, e.user, e.message),
                                     MailBefore(s0.gmail, s.gmail)[id])
  {
    var req := s.scans.asked[r];
    MailBeforeIsMailAfter(w, s0.gmail, s.gmail, r, id);
    EditedMessage(w, s0, s, r, Key(req.user, id));
    var x := FindLabel(w, s.gmail.labels, w.triage(s0.rules, req.user, s.gmail.contents[id]).labelName).value;
    forall e | e in s.gmail.edits && e.event.id == id && e.event.run >= r
      ensures e.id == x && e.event.markRead == req.markRead
    {
      EditOfRun(w, s0, s, r, e);
    }
    assert x.Other? by { var i := FindLabelFound(w, s.gmail.labels,
                                                w.triage(s0.rules, req.user, s.gmail.contents[id]).labelName); }
    var y :| y in s.gmail.edits && y.event.run >= r && KeyOfLabel(y.event) == Key(req.user, id);
    EditsAmountToOne(s.gmail.arrived[id], s0.gmail.edits, s.gmail.edits, r, id, x, req.markRead);
  }

  // ----- the theorem ---------------------------------------------------------------------------

  ghost predicate AllClean(r: RunId, steps: seq<Step>) {
    forall i :: 0 <= i < |steps| ==> Clean(r, steps[i])
  }

  lemma {:induction false} SinceAlways(w: World, s0: State, s1: State, r: RunId, steps: seq<Step>)
    requires Since(w, s0, s1, r) && Valid(w, s1, steps) && AllClean(r, steps)
    ensures Since(w, s0, Exec(w, s1, steps), r)
  {
    if steps != [] {
      var n := |steps| - 1;
      SinceAlways(w, s0, s1, r, steps[..n]);
      SinceStep(w, s0, Exec(w, s1, steps[..n]), r, steps[n]);
    }
  }

  /** What the reference makes of the scan, given the label table the scan ended with. */
  function Reference(w: World, s0: State, s: State, r: RunId): Outcome
    requires r in s.scans.published
  {
    HandleAll(w, s0.rules, s.gmail.labels, FirstSeen(s.scans.published[r]),
              Outcome(s0.rows, MailBefore(s0.gmail, s.gmail)))
  }

  ghost predicate LeftClassified(rows: map<Key, Row>, r: RunId, k: Key) {
    k in rows && rows[k].run == r && rows[k].status == Classified
  }

  /** No row of the run is still classified. */
  ghost predicate NoneLeft(rows: map<Key, Row>, r: RunId) {
    forall k :: !LeftClassified(rows, r, k)
  }

  ghost predicate Agree<K, V>(a: map<K, V>, b: map<K, V>, k: K) {
    (k in a <==> k in b) && (k in a ==> a[k] == b[k])
  }

  /** A row differs from the reference exactly when it is a row of the run still classified. */
  lemma RowAgrees(w: World, s0: State, s: State, r: RunId, k: Key)
    requires Since(w, s0, s, r) && Quiescent(s)
    ensures Agree(s.rows, Reference(w, s0, s, r).rows, k) <==> !LeftClassified(s.rows, r, k)
  {
    var es := FirstSeen(s.scans.published[r]);
    FirstSeenMentions(s.scans.published[r], k);
    PublishedOfRun(s, r);
    HandledRows(w, s0.rules, s.gmail.labels, r, s.scans.asked[r], s.gmail.contents, es,
                Outcome(s0.rows, MailBefore(s0.gmail, s.gmail)), k);
    RowsOfRun(w, s0, s, r, k);
    if Mentions(s.scans.published[r], k) { FinalRow(w, s0, s, r, k); }
  }

  /** The labels of a message are the reference's, unless its event was dropped. */
  lemma MailAgrees(w: World, s0: State, s: State, r: RunId, id: string)
    requires Inv(w, s0) && Since(w, s0, s, r) && Quiescent(s) && !Missed(s, r, Key(s.scans.asked[r].user, id))
    ensures Agree(s.gmail.mail, Reference(w, s0, s, r).mail, id)
  {
    var k := Key(s.scans.asked[r].user, id);
    var es := FirstSeen(s.scans.published[r]);
    FirstSeenMentions(s.scans.published[r], k);
    PublishedOfRun(s, r);
    HandledMail(w, s0.rules, s.gmail.labels, r, s.scans.asked[r], s.gmail.contents, es,
                Outcome(s0.rows, MailBefore(s0.gmail, s.gmail)), id);
    if id in s.gmail.mail {
      if EditedKey(s.gmail.edits, r, k) {
        EditedMessage(w, s0, s, r, k);
        EditedMail(w, s0, s, r, id);
      } else {
        UneditedMail(w, s0, s, r, id);
      }
    }
  }

  lemma SameMap<K(!new), V>(a: map<K, V>, b: map<K, V>)
    requires forall k :: Agree(a, b, k)
    ensures a == b
  {
    forall k ensures k in a <==> k in b { assert Agree(a, b, k); }
    forall k | k in a ensures a[k] == b[k] { assert Agree(a, b, k); }
  }

  lemma MailboxAgrees(w: World, s0: State, s: State, r: RunId)
    requires Inv(w, s0) && Since(w, s0, s, r) && Quiescent(s) && NothingMissed(s, r)
    ensures s.gmail.mail == Reference(w, s0, s, r).mail
  {
    var o := Reference(w, s0, s, r);
    forall id ensures Agree(s.gmail.mail, o.mail, id) { MailAgrees(w, s0, s, r, id); }
    SameMap(s.gmail.mail, o.mail);
  }

  lemma TableAgrees(w: World, s0: State, s: State, r: RunId)
    requires Since(w, s0, s, r) && Quiescent(s)
    ensures s.rows == Reference(w, s0, s, r).rows <==> NoneLeft(s.rows, r)
  {
    var o := Reference(w, s0, s, r);
    forall k ensures Agree(s.rows, o.rows, k) <==> !LeftClassified(s.rows, r, k) { RowAgrees(w, s0, s, r, k); }
    if NoneLeft(s.rows, r) { SameMap(s.rows, o.rows); }
    if s.rows == o.rows {
      forall k ensures !LeftClassified(s.rows, r, k) { assert Agree(s.rows, o.rows, k); }
    }
  }

  /** No name is forgotten, and each new one was called for, up to folding. */
  lemma NewNamesWanted(w: World, table: seq<UserRule>, labels0: seq<Label>, labels: seq<Label>, es: seq<RawEvent>,
                       name: string)
    requires TableFrame(w, table, labels0, labels, es)
    ensures FindLabel(w, labels0, name).Some? ==> FindLabel(w, labels, name).Some?
    ensures FindLabel(w, labels, name).Some? ==>
      FindLabel(w, labels0, name).Some? || LabelWanted(w, table, es, name)
  {
    var i := FindLabelFound(w, labels, name);
    var j := FindLabelFound(w, labels0, name);
    if FindLabel(w, labels, name).Some? && i >= |labels0| { assert LabelWanted(w, table, es, labels[i].name); }
  }

  /** With nothing missed, each name that was called for is there. */
  lemma WantedNamesExist(w: World, s0: State, s: State, r: RunId, name: string)
    requires Since(w, s0, s, r) && NothingMissed(s, r)
    requires LabelWanted(w, s0.rules, s.scans.published[r], name)
    ensures FindLabel(w, s.gmail.labels, name).Some?
  {
    var e :| e in s.scans.published[r] && e.mode == Apply
      && w.fold(w.triage(s0.rules, e.user, e.message).labelName) == w.fold(name);
    PublishedOfRun(s, r);
    assert !Missed(s, r, KeyOf(e));
    EditedMessage(w, s0, s, r, KeyOf(e));
    SameFoldSameLabel(w, s.gmail.labels, w.triage(s0.rules, e.user, e.message).labelName, name);
  }

  /** What the scan left to be desired: the message has the labels it had, its row is still classified, and
      its event is on record as dropped for a permanent error. */
  ghost predicate GivenUp(s0: State, s: State, r: RunId, id: string)
    requires r in s.scans.asked && id in s.gmail.mail
  {
    var k := Key(s.scans.asked[r].user, id);
    && s.gmail.mail[id] == MailBefore(s0.gmail, s.gmail)[id]
    && LeftClassified(s.rows, r, k) && DroppedFor(s.lost.drops, r, k)
  }

  lemma GivenUpOrDone(w: World, s0: State, s: State, r: RunId, id: string)
    requires Inv(w, s0) && Since(w, s0, s, r) && Quiescent(s) && id in s.gmail.mail
    ensures Agree(s.gmail.mail, Reference(w, s0, s, r).mail, id) || GivenUp(s0, s, r, id)
  {
    var k := Key(s.scans.asked[r].user, id);
    if Missed(s, r, k) {
      MissedWasDropped(w, s0, s, r, k);
      MissedIsLeft(w, s0, s, r, k);
      UneditedMail(w, s0, s, r, id);
    } else {
      MailAgrees(w, s0, s, r, id);
    }
  }

  /** The whole outcome is the reference's exactly when no row of the run is still classified. */
  lemma OutcomeAgrees(w: World, s0: State, s: State, r: RunId)
    requires Inv(w, s0) && Since(w, s0, s, r) && Quiescent(s)
    ensures Outcome(s.rows, s.gmail.mail) == Reference(w, s0, s, r) <==> NoneLeft(s.rows, r)
  {
    TableAgrees(w, s0, s, r);
    if NoneLeft(s.rows, r) {
      forall k ensures !Missed(s, r, k) {
        if Missed(s, r, k) { MissedIsLeft(w, s0, s, r, k); }
      }
      MailboxAgrees(w, s0, s, r);
    }
  }

  /** The run has dropped no event. */
  ghost predicate NoDrops(drops: set<Drop>, r: RunId) {
    forall d :: d in drops ==> d.event.run != r
  }

  lemma NoDropsNoneMissed(w: World, s0: State, s: State, r: RunId)
    requires Since(w, s0, s, r) && Quiescent(s) && NoDrops(s.lost.drops, r)
    ensures NothingMissed(s, r)
  {
    forall k ensures !Missed(s, r, k) {
      if Missed(s, r, k) { MissedWasDropped(w, s0, s, r, k); }
    }
  }

  /** Exactly-once effect. Start a scan on a system at rest and let it run to rest again with the rules
      fixed, through any interleaving, redeliveries, refusals, permanent errors and crashes. Table and Gmail
      labels together are those of handling each published message once, in order, if and only if no row of
      the run is still classified. And whatever rows are, each single message has the labels of that reference,
      unless its event was dropped for a permanent error and its labels are untouched. */
  lemma ScanFromRest(w: World, s0: State, req: Request, s1: State, steps: seq<Step>, s: State, r: RunId)
    requires Reachable(w, s0) && Quiescent(s0) && r == s0.scans.nextRun
    requires s1 == s0.(scans := NewScan(s0.scans, req))
    requires Valid(w, s1, steps) && AllClean(r, steps) && s == Exec(w, s1, steps) && Quiescent(s)
    ensures r in s.scans.published && r in s.scans.asked
    ensures Outcome(s.rows, s.gmail.mail) == Reference(w, s0, s, r) <==> NoneLeft(s.rows, r)
    ensures s.rows == Reference(w, s0, s, r).rows <==> NoneLeft(s.rows, r)
    ensures forall id :: id in s.gmail.mail ==>
      Agree(s.gmail.mail, Reference(w, s0, s, r).mail, id) || GivenUp(s0, s, r, id)
    ensures forall name :: FindLabel(w, s.gmail.labels, name).Some? ==>
      FindLabel(w, s0.gmail.labels, name).Some? || LabelWanted(w, s0.rules, s.scans.published[r], name)
  {
    InvReachable(w, s0);
    StartOfScan(w, s0, req);
    SinceAlways(w, s0, s1, r, steps);
    OutcomeAgrees(w, s0, s, r);
    TableAgrees(w, s0, s, r);
    forall id | id in s.gmail.mail
      ensures Agree(s.gmail.mail, Reference(w, s0, s, r).mail, id) || GivenUp(s0, s, r, id)
    {
      GivenUpOrDone(w, s0, s, r, id);
    }
    forall name
      ensures FindLabel(w, s.gmail.labels, name).Some? ==>
        FindLabel(w, s0.gmail.labels, name).Some? || LabelWanted(w, s0.rules, s.scans.published[r], name)
    {
      NewNamesWanted(w, s0.rules, s0.gmail.labels, s.gmail.labels, s.scans.published[r], name);
    }
  }

  /** When it has dropped no event the mailbox is the reference's, stranded rows or not, and the label table
      has exactly the names it had and those called for. */
  lemma UndroppedScan(w: World, s0: State, req: Request, s1: State, steps: seq<Step>, s: State, r: RunId)
    requires Reachable(w, s0) && Quiescent(s0) && r == s0.scans.nextRun
    requires s1 == s0.(scans := NewScan(s0.scans, req))
    requires Valid(w, s1, steps) && AllClean(r, steps) && s == Exec(w, s1, steps) && Quiescent(s)
    requires NoDrops(s.lost.drops, r)
    ensures r in s.scans.published && s.gmail.mail == Reference(w, s0, s, r).mail
    ensures forall name :: FindLabel(w, s.gmail.labels, name).Some? <==>
      FindLabel(w, s0.gmail.labels, name).Some? || LabelWanted(w, s0.rules, s.scans.published[r], name)
  {
    InvReachable(w, s0);
    StartOfScan(w, s0, req);
    SinceAlways(w, s0, s1, r, steps);
    NoDropsNoneMissed(w, s0, s, r);
    MailboxAgrees(w, s0, s, r);
    forall name
      ensures FindLabel(w, s.gmail.labels, name).Some? <==>
        FindLabel(w, s0.gmail.labels, name).Some? || LabelWanted(w, s0.rules, s.scans.published[r], name)
    {
      NewNamesWanted(w, s0.rules, s0.gmail.labels, s.gmail.labels, s.scans.published[r], name);
      if LabelWanted(w, s0.rules, s.scans.published[r], name) { WantedNamesExist(w, s0, s, r, name); }
    }
  }

  // ----- the condition, along the run -------------------------------------------------------------

  predicate StoresApply(step: Step, k: Key) {
    StoresFor(step, k) && step.task.event.mode == Apply
  }

  predicate Marks(step: Step, k: Key) {
    step.Lab? && step.lact == LMark && KeyOfLabel(step.job.event) == k
  }

  /** Of the stores and marks of the row the last one is the store of an apply result. */
  predicate StoredLast(steps: seq<Step>, k: Key) {
    steps != [] &&
    var step := steps[|steps| - 1];
    StoresApply(step, k) || (StoredLast(steps[..|steps| - 1], k) && !StoresFor(step, k) && !Marks(step, k))
  }

  lemma LeftAfterRaw(rows: map<Key, Row>, r: RunId, t: RawTask, a: RawAct, k: Key)
    requires RawEnabled(t, a) && t.event.run == r
    ensures LeftClassified(RowsAfterRaw(rows, t, a), r, k) <==>
      StoresApply(Raw(t, a), k) || (LeftClassified(rows, r, k) && !StoresFor(Raw(t, a), k))
  {
  }

  lemma LeftAfterLab(rows: map<Key, Row>, r: RunId, c: LabelTask, a: LabelAct, k: Key)
    ensures LeftClassified(RowsAfterLab(rows, c, a), r, k) <==> LeftClassified(rows, r, k) && !Marks(Lab(c, a), k)
  {
  }

  /** What a step makes of a row of the run. */
  lemma LeftAfterStep(w: World, s0: State, s: State, r: RunId, step: Step, k: Key)
    requires Since(w, s0, s, r) && Enabled(w, s, step)
    ensures LeftClassified(Next(w, s, step).rows, r, k) <==>
      StoresApply(step, k) || (LeftClassified(s.rows, r, k) && !StoresFor(step, k) && !Marks(step, k))
  {
    match step {
      case Raw(t, a) => OnlyRunOnQueue(w, s0, s, r, t); LeftAfterRaw(s.rows, r, t, a, k);
      case Lab(c, a) => LeftAfterLab(s.rows, r, c, a, k);
      case _ =>
    }
  }

  lemma OnlyRunOnQueue(w: World, s0: State, s: State, r: RunId, t: RawTask)
    requires Since(w, s0, s, r) && t in s.raw
    ensures t.event.run == r
  {
    assert TaskSays(w, s.rules, r, s.rows, t);
    assert Issued(s.scans.published, t.event);
  }

  /** A row of the run is classified exactly when its last store, of an apply result, came after its last mark. */
  lemma {:induction false} LeftByLastStore(w: World, s0: State, s1: State, r: RunId, steps: seq<Step>, k: Key)
    requires Since(w, s0, s1, r) && !LeftClassified(s1.rows, r, k) && Valid(w, s1, steps) && AllClean(r, steps)
    ensures LeftClassified(Exec(w, s1, steps).rows, r, k) <==> StoredLast(steps, k)
  {
    if steps != [] {
      var n := |steps| - 1;
      LeftByLastStore(w, s0, s1, r, steps[..n], k);
      SinceAlways(w, s0, s1, r, steps[..n]);
      LeftAfterStep(w, s0, Exec(w, s1, steps[..n]), r, steps[n], k);
    }
  }

  ghost predicate NoneStoredLast(steps: seq<Step>) {
    forall k :: !StoredLast(steps, k)
  }

  lemma NoneLeftByLastStores(rows: map<Key, Row>, r: RunId, steps: seq<Step>)
    requires forall k :: LeftClassified(rows, r, k) <==> StoredLast(steps, k)
    ensures NoneLeft(rows, r) <==> NoneStoredLast(steps)
  {
  }

  /** So whether a scan has the outcome of the reference can be told from its stores and marks. */
  lemma OutcomeByLastStores(w: World, s0: State, req: Request, s1: State, steps: seq<Step>, s: State, r: RunId)
    requires Reachable(w, s0) && Quiescent(s0) && r == s0.scans.nextRun
    requires s1 == s0.(scans := NewScan(s0.scans, req))
    requires Valid(w, s1, steps) && AllClean(r, steps) && s == Exec(w, s1, steps) && Quiescent(s)
    ensures r in s.scans.published
    ensures Outcome(s.rows, s.gmail.mail) == Reference(w, s0, s, r) <==> NoneStoredLast(steps)
  {
    InvReachable(w, s0);
    StartOfScan(w, s0, req);
    SinceAlways(w, s0, s1, r, steps);
    OutcomeAgrees(w, s0, s, r);
    OldRows(s0.scans, s0.rows);
    forall k ensures LeftClassified(s.rows, r, k) <==> StoredLast(steps, k) {
      LeftByLastStore(w, s0, s1, r, steps, k);
    }
    NoneLeftByLastStores(s.rows, r, steps);
  }

  // ----- without stranding -----------------------------------------------------------------------

  lemma StartServed(w: World, s0: State, req: Request)
    requires Inv(w, s0) && Quiescent(s0)
    ensures RowsServed(s0.(scans := NewScan(s0.scans, req)), s0.scans.nextRun, {})
  {
    OldRows(s0.scans, s0.rows);
  }

  lemma LeftWasDropped(s: State, r: RunId, steps: seq<Step>)
    requires RowsServed(s, r, ExcusedBy({}, steps)) && Quiescent(s)
    ensures forall k :: LeftClassified(s.rows, r, k) ==> DroppedSinceStore(steps, k)
    ensures NoneDropped(steps) ==> NoneLeft(s.rows, r)
  {
    forall k | LeftClassified(s.rows, r, k) ensures DroppedSinceStore(steps, k) {
      ExcusedIsDropped(steps, k);
    }
  }

  lemma DropLogged(w: World, s0: State, s: State, r: RunId, c: LabelTask, a: LabelAct)
    requires Since(w, s0, s, r) && c in s.lab && LabEnabled(w, s.gmail, c, a) && a.LDrop?
    ensures DroppedFor(NextLab(w, s, c, a).lost.drops, r, KeyOfLabel(c.event))
  {
    TheOnlyRun(w, s0, s, r, c.event);
    assert Drop(c.event, a.error) in NextLab(w, s, c, a).lost.drops;
  }

  lemma DropsStay(w: World, s: State, step: Step)
    requires Enabled(w, s, step)
    ensures s.lost.drops <= Next(w, s, step).lost.drops
  {
    match step {
      case Lab(c, a) =>
      case _ =>
    }
  }

  /** Every drop of the scan is on record. */
  lemma {:induction false} DropsLogged(w: World, s0: State, s1: State, r: RunId, steps: seq<Step>, k: Key)
    requires Since(w, s0, s1, r) && Valid(w, s1, steps) && AllClean(r, steps) && k in ExcusedBy({}, steps)
    ensures DroppedFor(Exec(w, s1, steps).lost.drops, r, k)
  {
    var n := |steps| - 1;
    var before := Exec(w, s1, steps[..n]);
    DropsStay(w, before, steps[n]);
    if DropsFor(steps[n], k) {
      SinceAlways(w, s0, s1, r, steps[..n]);
      DropLogged(w, s0, before, r, steps[n].job, steps[n].lact);
    } else {
      DropsLogged(w, s0, s1, r, steps[..n], k);
    }
  }

  /** No label event was dropped since its row was last stored. */
  ghost predicate NoneDropped(steps: seq<Step>) {
    forall k :: !DroppedSinceStore(steps, k)
  }

  lemma NoneDroppedOnRecord(drops: set<Drop>, r: RunId, steps: seq<Step>)
    requires forall k :: k in ExcusedBy({}, steps) ==> DroppedFor(drops, r, k)
    ensures NoDrops(drops, r) ==> NoneDropped(steps)
  {
    if NoDrops(drops, r) {
      forall k ensures !DroppedSinceStore(steps, k) { ExcusedIsDropped(steps, k); }
    }
  }

  lemma AllDropsLogged(w: World, s0: State, s1: State, r: RunId, steps: seq<Step>, s: State)
    requires Since(w, s0, s1, r) && Valid(w, s1, steps) && AllClean(r, steps) && s == Exec(w, s1, steps)
    ensures NoDrops(s.lost.drops, r) ==> NoneDropped(steps)
  {
    forall k | k in ExcusedBy({}, steps) ensures DroppedFor(s.lost.drops, r, k) {
      DropsLogged(w, s0, s1, r, steps, k);
    }
    NoneDroppedOnRecord(s.lost.drops, r, steps);
  }

  /** When no step of the scan strands a row, every row left classified had its label event dropped since it was
      last stored; so without a drop the whole outcome is the reference's. */
  lemma UnstrandedScan(w: World, s0: State, req: Request, s1: State, steps: seq<Step>, s: State, r: RunId)
    requires Reachable(w, s0) && Quiescent(s0) && r == s0.scans.nextRun
    requires s1 == s0.(scans := NewScan(s0.scans, req))
    requires Valid(w, s1, steps) && AllClean(r, steps) && s == Exec(w, s1, steps) && Quiescent(s)
    requires NeverStrands(w, s1, r, steps)
    ensures forall k :: LeftClassified(s.rows, r, k) ==> DroppedSinceStore(steps, k)
    ensures r in s.scans.published
    ensures NoneDropped(steps) ==> Outcome(s.rows, s.gmail.mail) == Reference(w, s0, s, r)
    ensures NoDrops(s.lost.drops, r) ==> NoneDropped(steps)
  {
    InvReachable(w, s0);
    StartOfScan(w, s0, req);
    StartServed(w, s0, req);
    ServedUnlessStranded(w, s1, r, {}, steps);
    assert ServedThroughout(w, s1, r, {}, steps);
    LeftWasDropped(s, r, steps);
    SinceAlways(w, s0, s1, r, steps);
    OutcomeAgrees(w, s0, s, r);
    AllDropsLogged(w, s0, s1, r, steps, s);
  }
}
