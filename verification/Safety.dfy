/** Consequences of the invariant, in the terms a maintainer would use. */
module Safety {
  import opened Common
  import opened Classifier
  import opened Pipeline
  import opened Invariants

  /** References hold at every crash point: a label event finds its row, so none is ever given up
      for a missing row; raw events and rows name scan runs that exist. */
  lemma ReferencesHold(w: World, s: State)
    requires Reachable(w, s)
    ensures s.lost.missed == {}
    ensures forall c :: c in s.lab ==> KeyOfLabel(c.event) in s.rows
    ensures forall t :: t in s.raw ==> t.event.run in s.scans.runs
    ensures forall k :: k in s.rows ==>
      s.rows[k].run in s.scans.runs && s.scans.runs[s.rows[k].run].user == k.user
  {
    InvReachable(w, s);
    forall k | k in s.rows ensures s.rows[k].run in s.scans.runs && s.scans.runs[s.rows[k].run].user == k.user {
      var r := s.rows[k].run;
      var e :| e in s.scans.published[r] && KeyOf(e) == k;
      assert FromRun(s.scans, s.gmail.contents, r, e);
    }
  }

  /** Every drop on record is for a refusal that will not pass: a client error, and not that of too many requests. */
  lemma DropsAreRefusals(w: World, s: State, d: Drop)
    requires Reachable(w, s) && d in s.lost.drops
    ensures d.error.ApiError? && (400 <= d.error.code <= 428 || 430 <= d.error.code <= 499)
  {
    InvReachable(w, s);
  }

  /** The label a name resolves to is on the message, and the message has left the inbox. */
  ghost predicate Carries(w: World, g: Gmail, id: string, name: string) {
    && FindLabel(w, g.labels, name).Some? && id in g.mail
    && FindLabel(w, g.labels, name).value in g.mail[id]
    && Inbox !in g.mail[id]
  }

  lemma EditedMessageCarries(w: World, g: Gmail, e: Edit)
    requires GmailOk(w, g) && e in g.edits
    ensures Carries(w, g, e.event.id, e.event.labelName)
  {
    var id := e.event.id;
    assert e.id in Added(g.edits, id) && Touched(g.edits, id);
  }

  /** Rows and mailbox agree: a row is applied exactly when it has an applied label, and then the
      label is on the Gmail message and INBOX is not. */
  lemma RowsMatchMailbox(w: World, s: State)
    requires Reachable(w, s)
    ensures forall k :: k in s.rows ==> (s.rows[k].status == Applied <==> s.rows[k].applied.Some?)
    ensures forall k :: k in s.rows && s.rows[k].applied.Some? ==>
      Carries(w, s.gmail, k.id, s.rows[k].applied.value)
  {
    InvReachable(w, s);
    forall k | k in s.rows && s.rows[k].applied.Some?
      ensures Carries(w, s.gmail, k.id, s.rows[k].applied.value)
    {
      assert EditedFor(s.gmail.edits, 0, k, s.rows[k].applied.value);
      var e :| e in s.gmail.edits && KeyOfLabel(e.event) == k && e.event.labelName == s.rows[k].applied.value;
      EditedMessageCarries(w, s.gmail, e);
    }
  }

  /** Some apply-mode event about a message was published, with the read flag if asked for. */
  ghost predicate ApplyPublished(s: State, id: string, markRead: bool) {
    exists r, e :: r in s.scans.published && e in s.scans.published[r]
      && e.message.id == id && e.mode == Apply && (markRead ==> e.markRead)
  }

  /** Dry runs are inert: a message keeps the labels it arrived with unless an apply-mode event was
      published about it, and keeps UNREAD unless one asked to mark it read. */
  lemma DryRunIsInert(w: World, s: State, id: string)
    requires Reachable(w, s) && id in s.gmail.mail
    ensures id in s.gmail.arrived
    ensures !ApplyPublished(s, id, false) ==> s.gmail.mail[id] == s.gmail.arrived[id]
    ensures !ApplyPublished(s, id, true) && Unread in s.gmail.arrived[id] ==> Unread in s.gmail.mail[id]
    ensures forall c :: c in s.lab ==> Traced(s.scans.published, c.event)
    ensures forall e :: e in s.gmail.edits ==> Traced(s.scans.published, e.event)
  {
    InvReachable(w, s);
    forall e | e in s.gmail.edits && e.event.id == id
      ensures ApplyPublished(s, id, e.event.markRead)
    {
      var p :| p in s.scans.published[e.event.run] && Parent(p, e.event);
    }
    if !ApplyPublished(s, id, false) {
      assert forall e :: e in s.gmail.edits ==> e.event.id != id || ApplyPublished(s, id, e.event.markRead);
      assert Added(s.gmail.edits, id) == {};
      assert !Touched(s.gmail.edits, id) && !TouchedRead(s.gmail.edits, id);
    }
  }

  lemma TracedToApply(q: Scans, contents: map<string, Message>, le: LabelEvent)
    requires EventsOk(q, contents) && Traced(q.published, le)
    ensures le.run in q.asked && q.asked[le.run].mode == Apply
  {
    var e :| e in q.published[le.run] && Parent(e, le);
    assert FromRun(q, contents, le.run, e);
  }

  /** When only dry runs were asked for, no message has changed, no label event was published and no row has a label. */
  lemma OnlyDryRuns(w: World, s: State)
    requires Reachable(w, s) && forall r :: r in s.scans.asked ==> s.scans.asked[r].mode == DryRun
    ensures s.gmail.mail == s.gmail.arrived && s.gmail.edits == {} && s.lab == multiset{}
    ensures forall k :: k in s.rows ==> s.rows[k].applied == None
  {
    InvReachable(w, s);
    forall le | Traced(s.scans.published, le) ensures le.run in s.scans.asked && s.scans.asked[le.run].mode == Apply {
      TracedToApply(s.scans, s.gmail.contents, le);
    }
    assert s.gmail.edits == {};
    UneditedMailbox(w, s.gmail);
    assert forall k, name :: !EditedFor(s.gmail.edits, 0, k, name);
  }

  lemma UneditedMailbox(w: World, g: Gmail)
    requires GmailOk(w, g) && g.edits == {}
    ensures g.mail == g.arrived
  {
    forall id | id in g.mail ensures g.mail[id] == g.arrived[id] {
      assert Added(g.edits, id) == {} && !Touched(g.edits, id) && !TouchedRead(g.edits, id);
    }
  }

  /** As Gmail refuses a name it has, label names stay distinct under folding through every create, and
      names equal under folding resolve to one label. */
  lemma LabelNamesApart(w: World, s: State, a: string, b: string)
    requires Reachable(w, s) && w.fold(a) == w.fold(b)
    ensures LabelsApart(w, s.gmail.labels)
    ensures FindLabel(w, s.gmail.labels, a) == FindLabel(w, s.gmail.labels, b)
  {
    InvReachable(w, s);
    SameFoldSameLabel(w, s.gmail.labels, a, b);
  }

  lemma {:induction false} SameFoldSameLabel(w: World, labels: seq<Label>, a: string, b: string)
    requires w.fold(a) == w.fold(b)
    ensures FindLabel(w, labels, a) == FindLabel(w, labels, b)
  {
    if labels != [] { SameFoldSameLabel(w, labels[1..], a, b); }
  }

  lemma ResolutionKept(w: World, s: State, step: Step, name: string)
    requires Enabled(w, s, step) && FindLabel(w, s.gmail.labels, name).Some?
    ensures FindLabel(w, Next(w, s, step).gmail.labels, name) == FindLabel(w, s.gmail.labels, name)
  {
    match step {
      case Lab(c, a) => if a.LCreate? { CreatedLabel(w, s.gmail, c, a.id, name); }
      case _ =>
    }
  }

  /** Once a name has resolved to a label it resolves to that label for ever. */
  lemma {:induction false} ResolutionIsStable(w: World, s: State, steps: seq<Step>, name: string)
    requires Valid(w, s, steps) && FindLabel(w, s.gmail.labels, name).Some?
    ensures FindLabel(w, Exec(w, s, steps).gmail.labels, name) == FindLabel(w, s.gmail.labels, name)
  {
    if steps != [] {
      var n := |steps| - 1;
      ResolutionIsStable(w, s, steps[..n], name);
      ResolutionKept(w, Exec(w, s, steps[..n]), steps[n], name);
    }
  }
}
