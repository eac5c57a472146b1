/** Two runs of the same scan, compared: when tables and Gmail labels come out the same. */
module Interleavings {
  import opened Common
  import opened Classifier
  import opened Pipeline
  import opened Invariants
  import opened Safety
  import opened NoLostWork
  import opened ExactlyOnce

  /** The run published events about the same keys, with the same contents. */
  ghost predicate SameMessages(s: State, t: State, r: RunId) {
    && r in s.scans.published && r in t.scans.published && s.gmail.contents == t.gmail.contents
    && forall k :: Mentions(s.scans.published[r], k) <==> Mentions(t.scans.published[r], k)
  }

  // ----- tables -----------------------------------------------------------------------

  /** A row of no message of the run is as it was. */
  lemma OtherRow(w: World, s0: State, s: State, r: RunId, k: Key)
    requires Since(w, s0, s, r) && Quiescent(s) && !Mentions(s.scans.published[r], k)
    ensures Agree(s.rows, s0.rows, k)
  {
    RowsOfRun(w, s0, s, r, k);
  }

  lemma RowsCoincide(w: World, s0: State, s: State, t: State, r: RunId, k: Key)
    requires Since(w, s0, s, r) && Quiescent(s) && Since(w, s0, t, r) && Quiescent(t)
    requires SameMessages(s, t, r) && s.scans.asked[r] == t.scans.asked[r]
    ensures Agree(s.rows, t.rows, k) <==> (LeftClassified(s.rows, r, k) <==> LeftClassified(t.rows, r, k))
  {
    if Mentions(s.scans.published[r], k) {
      FinalRow(w, s0, s, r, k);
      FinalRow(w, s0, t, r, k);
    } else {
      OtherRow(w, s0, s, r, k);
      OtherRow(w, s0, t, r, k);
      RowsOfRun(w, s0, s, r, k);
      RowsOfRun(w, s0, t, r, k);
    }
  }

  // ----- labels created by a scan are new -------------------------------------------------

  /** No message of `g0` carried a label that has been created since. */
  ghost predicate CreatedAreNew(g0: Gmail, labels: seq<Label>) {
    forall i, id :: |g0.labels| <= i < |labels| && id in g0.mail ==> labels[i].id !in g0.mail[id]
  }

  lemma AddedStay(edits0: set<Edit>, edits: set<Edit>, id: string)
    requires edits0 <= edits
    ensures Added(edits0, id) <= Added(edits, id)
  {
  }

  /** Modifications take only INBOX and UNREAD away. */
  lemma OthersStay(w: World, g0: Gmail, g: Gmail, r: RunId, id: string, x: LabelId)
    requires GmailOk(w, g0) && GmailOk(w, g) && MailFrame(g0, g, r)
    requires id in g0.mail && x in g0.mail[id] && x.Other?
    ensures id in g.mail && x in g.mail[id]
  {
    AddedStay(g0.edits, g.edits, id);
    assert g.arrived[id] == g0.arrived[id];
  }

  lemma CreatedAreNewKept(w: World, g0: Gmail, g: Gmail, r: RunId, c: LabelTask, a: LabelAct)
    requires GmailOk(w, g0) && GmailOk(w, g) && MailFrame(g0, g, r)
    requires |g0.labels| <= |g.labels| && CreatedAreNew(g0, g.labels) && LabEnabled(w, g, c, a)
    ensures CreatedAreNew(g0, GmailAfter(w, g, c, a).labels)
  {
    if a.LCreate? {
      forall id | id in g0.mail ensures a.id !in g0.mail[id] {
        if a.id in g0.mail[id] { OthersStay(w, g0, g, r, id, a.id); }
      }
    }
  }

  lemma {:induction false} CreatedAreNewAlways(w: World, s0: State, s1: State, r: RunId, steps: seq<Step>)
    requires Inv(w, s0) && Since(w, s0, s1, r) && Valid(w, s1, steps) && AllClean(r, steps)
    requires s1.gmail == s0.gmail
    ensures CreatedAreNew(s0.gmail, Exec(w, s1, steps).gmail.labels)
  {
    if steps != [] {
      var n := |steps| - 1;
      var before := Exec(w, s1, steps[..n]);
      CreatedAreNewAlways(w, s0, s1, r, steps[..n]);
      SinceAlways(w, s0, s1, r, steps[..n]);
      match steps[n] {
        case Lab(c, a) => CreatedAreNewKept(w, s0.gmail, before.gmail, r, c, a);
        case _ =>
      }
    }
  }

  // ----- labels by name --------------------------------------------------------------------

  /** The label a name resolves to is on the message. */
  ghost predicate Wears(w: World, g: Gmail, id: string, name: string) {
    id in g.mail && FindLabel(w, g.labels, name).Some? && FindLabel(w, g.labels, name).value in g.mail[id]
  }

  lemma {:induction false} FindInPrefix(w: World, labels0: seq<Label>, labels: seq<Label>, name: string)
    requires labels0 <= labels && FindLabel(w, labels0, name).Some?
    ensures FindLabel(w, labels, name) == FindLabel(w, labels0, name)
  {
    if w.fold(labels0[0].name) != w.fold(name) {
      assert labels[0] == labels0[0];
      FindInPrefix(w, labels0[1..], labels[1..], name);
    }
  }

  /** Two names resolve to one label exactly when they are equal under folding. */
  lemma SameLabelSameName(w: World, labels: seq<Label>, a: string, b: string)
    requires LabelsApart(w, labels) && FindLabel(w, labels, a).Some? && FindLabel(w, labels, b).Some?
    ensures FindLabel(w, labels, a) == FindLabel(w, labels, b) <==> w.fold(a) == w.fold(b)
  {
    var i := FindLabelFound(w, labels, a);
    var j := FindLabelFound(w, labels, b);
    if w.fold(a) == w.fold(b) { SameFoldSameLabel(w, labels, a, b); }
    if labels[i].id == labels[j].id { assert i == j; }
  }

  /** The run has put a label on the message. */
  ghost predicate Puts(s: State, r: RunId, id: string) {
    r in s.scans.asked && EditedKey(s.gmail.edits, r, Key(s.scans.asked[r].user, id))
  }

  /** The name of the label triage chooses for the message. */
  ghost function NameFor(w: World, s0: State, s: State, r: RunId, id: string): string
    requires r in s.scans.asked && id in s.gmail.contents
  {
    w.triage(s0.rules, s.scans.asked[r].user, s.gmail.contents[id]).labelName
  }

  /** What the run has done to a message that was there before. */
  lemma MailOfRun(w: World, s0: State, s: State, r: RunId, id: string) returns (x: LabelId)
    requires Inv(w, s0) && Since(w, s0, s, r) && Quiescent(s) && id in s0.gmail.mail
    ensures id in s.gmail.mail && id in s.gmail.contents
    ensures !Puts(s, r, id) ==> s.gmail.mail[id] == s0.gmail.mail[id]
    ensures Puts(s, r, id) ==>
      && x.Other? && FindLabel(w, s.gmail.labels, NameFor(w, s0, s, r, id)) == Some(x)
      && s.gmail.mail[id] == Modified(s0.gmail.mail[id], x, s.scans.asked[r].markRead)
  {
    assert id in s.gmail.arrived;
    x := Inbox;
    if !Puts(s, r, id) {
      UneditedMail(w, s0, s, r, id);
    } else {
      EditedMessage(w, s0, s, r, Key(s.scans.asked[r].user, id));
      EditedMail(w, s0, s, r, id);
      x := FindLabel(w, s.gmail.labels, NameFor(w, s0, s, r, id)).value;
      var i := FindLabelFound(w, s.gmail.labels, NameFor(w, s0, s, r, id));
    }
  }

  /** A name is worn after a modification if it was before, or if it is the name put on. */
  lemma WornAfterModified(w: World, labels: seq<Label>, name: string, other: string, x: LabelId, y: LabelId,
                          on: set<LabelId>, read: bool)
    requires LabelsApart(w, labels) && FindLabel(w, labels, name) == Some(x) && FindLabel(w, labels, other) == Some(y)
    ensures y in Modified(on, x, read) <==> y in on || w.fold(name) == w.fold(other)
  {
    SameLabelSameName(w, labels, name, other);
    var j := FindLabelFound(w, labels, other);
  }

  /** After the scan a message that was there before wears the labels it wore and the one put on it. */
  lemma WearsAfter(w: World, s0: State, s: State, r: RunId, id: string, name: string)
    requires Inv(w, s0) && Since(w, s0, s, r) && Quiescent(s) && CreatedAreNew(s0.gmail, s.gmail.labels)
    requires id in s0.gmail.mail
    ensures id in s.gmail.contents
    ensures Wears(w, s.gmail, id, name) <==>
      Wears(w, s0.gmail, id, name) || (Puts(s, r, id) && w.fold(NameFor(w, s0, s, r, id)) == w.fold(name))
  {
    var x := MailOfRun(w, s0, s, r, id);
    WornBefore(w, s0.gmail, s.gmail, id, name);
    if Puts(s, r, id) {
      var put := NameFor(w, s0, s, r, id);
      if w.fold(put) == w.fold(name) { SameFoldSameLabel(w, s.gmail.labels, put, name); }
      if FindLabel(w, s.gmail.labels, name).Some? {
        WornAfterModified(w, s.gmail.labels, put, name, x, FindLabel(w, s.gmail.labels, name).value,
                          s0.gmail.mail[id], s.scans.asked[r].markRead);
      }
    }
  }

  /** What a name resolves to now was on the message before exactly when the name was worn before. */
  lemma WornBefore(w: World, g0: Gmail, g: Gmail, id: string, name: string)
    requires g0.labels <= g.labels && CreatedAreNew(g0, g.labels) && id in g0.mail
    ensures Wears(w, g0, id, name) <==>
      FindLabel(w, g.labels, name).Some? && FindLabel(w, g.labels, name).value in g0.mail[id]
  {
    if FindLabel(w, g0.labels, name).Some? {
      FindInPrefix(w, g0.labels, g.labels, name);
    } else {
      var i := FindLabelFound(w, g.labels, name);
      var j := FindLabelFound(w, g0.labels, name);
      assert forall k :: 0 <= k < |g0.labels| ==> g.labels[k] == g0.labels[k];
    }
  }

  // ----- the theorem -----------------------------------------------------------------------

  /** Only the start of a scan asks for one. */
  lemma AskedKept(w: World, s: State, step: Step)
    requires Enabled(w, s, step) && !step.StartScan?
    ensures Next(w, s, step).scans.asked == s.scans.asked
  {
    match step {
      case Api(r, a) => AskedKeptApi(s.scans, s.gmail.contents, r, a);
      case Raw(t, a) => assert NextRaw(w, s, t, a).scans == s.scans;
      case Lab(c, a) => assert NextLab(w, s, c, a).scans == s.scans;
      case _ =>
    }
  }

  lemma AskedKeptApi(q: Scans, contents: map<string, Message>, r: RunId, a: ApiAct)
    requires ApiEnabled(q, contents, r, a)
    ensures ScansAfter(q, contents, r, a).asked == q.asked
  {
  }

  lemma {:induction false} AskedStays(w: World, s: State, r: RunId, steps: seq<Step>)
    requires Valid(w, s, steps) && AllClean(r, steps)
    ensures Exec(w, s, steps).scans.asked == s.scans.asked
  {
    if steps != [] {
      var n := |steps| - 1;
      AskedStays(w, s, r, steps[..n]);
      AskedKept(w, Exec(w, s, steps[..n]), steps[n]);
    }
  }

  lemma SystemLabelsModified(on: set<LabelId>, x: LabelId, read: bool)
    requires x.Other?
    ensures Inbox !in Modified(on, x, read)
    ensures Unread in Modified(on, x, read) <==> Unread in on && !read
  {
  }

  /** INBOX and UNREAD after the scan, for a message that was there before. */
  lemma SystemLabelsAfter(w: World, s0: State, s: State, r: RunId, id: string)
    requires Inv(w, s0) && Since(w, s0, s, r) && Quiescent(s) && id in s0.gmail.mail
    ensures id in s.gmail.mail
    ensures Inbox in s.gmail.mail[id] <==> Inbox in s0.gmail.mail[id] && !Puts(s, r, id)
    ensures Unread in s.gmail.mail[id] <==>
      Unread in s0.gmail.mail[id] && !(Puts(s, r, id) && s.scans.asked[r].markRead)
  {
    var x := MailOfRun(w, s0, s, r, id);
    if Puts(s, r, id) {
      SystemLabelsModified(s0.gmail.mail[id], x, s.scans.asked[r].markRead);
    } else {
      assert s.gmail.mail[id] == s0.gmail.mail[id];
    }
  }

  /** Two mailboxes give a message the same labels, by name. */
  ghost predicate SameLabels(w: World, g: Gmail, h: Gmail, id: string) {
    && id in g.mail && id in h.mail
    && (Inbox in g.mail[id] <==> Inbox in h.mail[id]) && (Unread in g.mail[id] <==> Unread in h.mail[id])
    && forall name :: Wears(w, g, id, name) <==> Wears(w, h, id, name)
  }

  lemma LabelsCoincide(w: World, s0: State, s: State, t: State, r: RunId, id: string)
    requires Inv(w, s0) && Since(w, s0, s, r) && Quiescent(s) && Since(w, s0, t, r) && Quiescent(t)
    requires SameMessages(s, t, r) && s.scans.asked[r] == t.scans.asked[r] && id in s0.gmail.mail
    requires CreatedAreNew(s0.gmail, s.gmail.labels) && CreatedAreNew(s0.gmail, t.gmail.labels)
    requires Puts(s, r, id) <==> Puts(t, r, id)
    ensures SameLabels(w, s.gmail, t.gmail, id)
  {
    SystemLabelsAfter(w, s0, s, r, id);
    SystemLabelsAfter(w, s0, t, r, id);
    forall name ensures Wears(w, s.gmail, id, name) <==> Wears(w, t.gmail, id, name) {
      WearsAfter(w, s0, s, r, id, name);
      WearsAfter(w, s0, t, r, id, name);
    }
  }

  /** The same rows of the run are still classified in both tables. */
  ghost predicate SameLeft(a: map<Key, Row>, b: map<Key, Row>, r: RunId) {
    forall k :: LeftClassified(a, r, k) <==> LeftClassified(b, r, k)
  }

  lemma SameTable(a: map<Key, Row>, b: map<Key, Row>, r: RunId)
    requires forall k :: Agree(a, b, k) <==> (LeftClassified(a, r, k) <==> LeftClassified(b, r, k))
    ensures a == b <==> SameLeft(a, b, r)
  {
    if SameLeft(a, b, r) {
      forall k ensures Agree(a, b, k) { assert LeftClassified(a, r, k) <==> LeftClassified(b, r, k); }
      SameMap(a, b);
    }
  }

  lemma TablesCoincide(w: World, s0: State, s: State, t: State, r: RunId)
    requires Since(w, s0, s, r) && Quiescent(s) && Since(w, s0, t, r) && Quiescent(t)
    requires SameMessages(s, t, r) && s.scans.asked[r] == t.scans.asked[r]
    ensures s.rows == t.rows <==> SameLeft(s.rows, t.rows, r)
  {
    forall k
      ensures Agree(s.rows, t.rows, k) <==> (LeftClassified(s.rows, r, k) <==> LeftClassified(t.rows, r, k))
    {
      RowsCoincide(w, s0, s, t, r, k);
    }
    SameTable(s.rows, t.rows, r);
  }

  /** Both runs put a label on a message, or neither does, unless one of them missed it. */
  lemma PutAlike(w: World, s0: State, s: State, t: State, r: RunId, id: string)
    requires Since(w, s0, s, r) && Since(w, s0, t, r)
    requires SameMessages(s, t, r) && s.scans.asked[r] == t.scans.asked[r]
    requires var k := Key(s.scans.asked[r].user, id); Missed(s, r, k) <==> Missed(t, r, k)
    ensures Puts(s, r, id) <==> Puts(t, r, id)
  {
    var k := Key(s.scans.asked[r].user, id);
    if EditedKey(s.gmail.edits, r, k) { EditedMessage(w, s0, s, r, k); }
    if EditedKey(t.gmail.edits, r, k) { EditedMessage(w, s0, t, r, k); }
  }

  /** Two scans of the same messages from the same state of rest, however differently they were interleaved
      and whatever each of them met with: every message that was there before, and that both missed or
      neither did, ends with the same labels by name; and the tables are equal if and only if the same rows
      are still classified. */
  lemma AnyTwoInterleavings(w: World, s0: State, req: Request, s1: State, r: RunId,
                            a: seq<Step>, s: State, b: seq<Step>, t: State)
    requires Reachable(w, s0) && Quiescent(s0) && r == s0.scans.nextRun
    requires s1 == s0.(scans := NewScan(s0.scans, req))
    requires Valid(w, s1, a) && AllClean(r, a) && s == Exec(w, s1, a) && Quiescent(s)
    requires Valid(w, s1, b) && AllClean(r, b) && t == Exec(w, s1, b) && Quiescent(t)
    requires SameMessages(s, t, r)
    ensures forall id ::
      (id in s0.gmail.mail && (Missed(s, r, Key(req.user, id)) <==> Missed(t, r, Key(req.user, id)))) ==>
      SameLabels(w, s.gmail, t.gmail, id)
    ensures s.rows == t.rows <==> SameLeft(s.rows, t.rows, r)
  {
    InvReachable(w, s0);
    StartOfScan(w, s0, req);
    SinceAlways(w, s0, s1, r, a);
    SinceAlways(w, s0, s1, r, b);
    AskedStays(w, s1, r, a);
    AskedStays(w, s1, r, b);
    CreatedAreNewAlways(w, s0, s1, r, a);
    CreatedAreNewAlways(w, s0, s1, r, b);
    forall id | id in s0.gmail.mail && (Missed(s, r, Key(req.user, id)) <==> Missed(t, r, Key(req.user, id)))
      ensures SameLabels(w, s.gmail, t.gmail, id)
    {
      PutAlike(w, s0, s, t, r, id);
      LabelsCoincide(w, s0, s, t, r, id);
    }
    TablesCoincide(w, s0, s, t, r);
  }
}
