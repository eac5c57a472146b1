/** The whole mailbox when the system is at rest: whatever scans overlapped, and whatever they met with, each
    message has the labels that the published events call for. */
module MailboxAtRest {
  import opened Common
  import opened Classifier
  import opened Pipeline
  import opened Invariants
  import opened Safety
  import opened NoLostWork
  import opened FixedRules

  /** A scan of the user has published an apply event about the message. */
  ghost predicate Calls(s: State, id: string, user: string) {
    exists r, e :: r in s.scans.published && e in s.scans.published[r] && e.mode == Apply && KeyOf(e) == Key(user, id)
  }

  /** The label is the one that the rules choose for a user who has called for the message. */
  ghost predicate Chosen(w: World, s: State, id: string, l: LabelId)
    requires id in s.gmail.contents
  {
    exists user :: Calls(s, id, user)
      && FindLabel(w, s.gmail.labels, Want(w, s.rules, s.gmail.contents, Key(user, id)).labelName) == Some(l)
  }

  ghost predicate NoDropAbout(drops: set<Drop>, id: string) {
    forall d :: d in drops ==> d.event.id != id
  }

  /** What holds of a system at rest that has kept its rules. */
  ghost predicate Rested(w: World, s: State) {
    Inv(w, s) && Says(w, s, 0) && AllPursued(s, 0) && Quiescent(s)
  }

  lemma EditComesFromCall(w: World, s: State, x: Edit) returns (r: RunId, e: RawEvent)
    requires Rested(w, s) && x in s.gmail.edits
    ensures r in s.scans.published && e in s.scans.published[r] && Parent(e, x.event)
    ensures x.event.id in s.gmail.contents
    ensures var want := Want(w, s.rules, s.gmail.contents, KeyOfLabel(x.event));
      FindLabel(w, s.gmail.labels, want.labelName) == Some(x.id)
  {
    r := x.event.run;
    e :| e in s.scans.published[r] && Parent(e, x.event);
    assert EventSays(w, s.rules, s.gmail.contents, x.event);
  }

  lemma CallLeadsToEdit(w: World, s: State, r: RunId, e: RawEvent) returns (x: Edit)
    requires Rested(w, s) && NoDropAbout(s.lost.drops, e.message.id)
    requires r in s.scans.published && e in s.scans.published[r] && e.mode == Apply
    ensures x in s.gmail.edits && Parent(e, x.event)
  {
    SettledAtRest(s, 0, r, e);
    x :| x in s.gmail.edits && Parent(e, x.event);
  }

  /** The labels put on a message are those chosen for it. */
  lemma AddedAreChosen(w: World, s: State, id: string, l: LabelId)
    requires Rested(w, s) && id in s.gmail.contents && NoDropAbout(s.lost.drops, id)
    ensures l in Added(s.gmail.edits, id) <==> Chosen(w, s, id, l)
  {
    if l in Added(s.gmail.edits, id) {
      var x :| x in s.gmail.edits && x.event.id == id && x.id == l;
      var r, e := EditComesFromCall(w, s, x);
      assert Calls(s, id, x.event.user);
    }
    if Chosen(w, s, id, l) {
      var user :| Calls(s, id, user)
        && FindLabel(w, s.gmail.labels, Want(w, s.rules, s.gmail.contents, Key(user, id)).labelName) == Some(l);
      var x := CallIsAdded(w, s, id, user);
    }
  }

  lemma CallIsAdded(w: World, s: State, id: string, user: string) returns (x: Edit)
    requires Rested(w, s) && id in s.gmail.contents && NoDropAbout(s.lost.drops, id) && Calls(s, id, user)
    ensures x in s.gmail.edits && x.event.id == id && x.id in Added(s.gmail.edits, id)
    ensures FindLabel(w, s.gmail.labels, Want(w, s.rules, s.gmail.contents, Key(user, id)).labelName) == Some(x.id)
  {
    var r, e :| r in s.scans.published && e in s.scans.published[r] && e.mode == Apply && KeyOf(e) == Key(user, id);
    x := CallLeadsToEdit(w, s, r, e);
    var q, f := EditComesFromCall(w, s, x);
  }

  lemma TouchedOnCall(w: World, s: State, id: string)
    requires Rested(w, s)
    ensures forall x :: x in s.gmail.edits && x.event.id == id ==> ApplyPublished(s, id, x.event.markRead)
  {
    forall x | x in s.gmail.edits && x.event.id == id ensures ApplyPublished(s, id, x.event.markRead) {
      var r, e := EditComesFromCall(w, s, x);
    }
  }

  /** A message was touched, or marked read, exactly when an event called for that. */
  lemma TouchedWhenCalled(w: World, s: State, id: string)
    requires Rested(w, s) && NoDropAbout(s.lost.drops, id)
    ensures Touched(s.gmail.edits, id) <==> ApplyPublished(s, id, false)
    ensures TouchedRead(s.gmail.edits, id) <==> ApplyPublished(s, id, true)
  {
    TouchedOnCall(w, s, id);
    forall r, e | r in s.scans.published && e in s.scans.published[r] && e.message.id == id && e.mode == Apply
      ensures exists x :: x in s.gmail.edits && x.event.id == id && x.event.markRead == e.markRead
    {
      var x := CallLeadsToEdit(w, s, r, e);
    }
    assert ApplyPublished(s, id, true) ==> ApplyPublished(s, id, false);
  }

  /** The labels that are left of those a message arrived with. */
  ghost predicate Stays(s: State, id: string, l: LabelId)
    requires id in s.gmail.arrived
  {
    && l in s.gmail.arrived[id]
    && (l == Inbox ==> !ApplyPublished(s, id, false)) && (l == Unread ==> !ApplyPublished(s, id, true))
  }

  /** A label is on a message because it was there and has not been taken off, or because it was put on. */
  lemma LabelOnMessage(w: World, s: State, id: string, l: LabelId)
    requires GmailOk(w, s.gmail) && id in s.gmail.mail
    requires Touched(s.gmail.edits, id) <==> ApplyPublished(s, id, false)
    requires TouchedRead(s.gmail.edits, id) <==> ApplyPublished(s, id, true)
    ensures l in s.gmail.mail[id] <==> Stays(s, id, l) || l in Added(s.gmail.edits, id)
  {
    if l in Added(s.gmail.edits, id) {
      var x :| x in s.gmail.edits && x.event.id == id && x.id == l;
    }
  }

  lemma RestedAfter(w: World, s0: State, steps: seq<Step>, s: State)
    requires Initial(w, s0) && Valid(w, s0, steps) && s == Exec(w, s0, steps) && Quiescent(s)
    requires forall i :: 0 <= i < |steps| ==> !steps[i].EditRules?
    ensures Rested(w, s) && s.rules == s0.rules
  {
    InvInitial(w, s0);
    InvAlways(w, s0, steps);
    SaysAlways(w, s0, steps);
    AllPursuedAlways(w, s0, steps);
  }

  /** With fixed rules, any number of users and overlapping scans, any redeliveries, refusals, crashes and
      stranded rows: at rest a message about which nothing was dropped has the labels it arrived with, without
      INBOX if an apply event was published about it, without UNREAD if one asked to mark it read, and the label
      that the rules choose for each user who called for it. */
  lemma MailAtRest(w: World, s0: State, steps: seq<Step>, s: State, id: string)
    requires Initial(w, s0) && Valid(w, s0, steps) && s == Exec(w, s0, steps) && Quiescent(s)
    requires forall i :: 0 <= i < |steps| ==> !steps[i].EditRules?
    requires id in s.gmail.mail && NoDropAbout(s.lost.drops, id)
    ensures id in s.gmail.contents && id in s.gmail.arrived && s.rules == s0.rules
    ensures forall l :: l in s.gmail.mail[id] <==> Stays(s, id, l) || Chosen(w, s, id, l)
    ensures forall user :: Calls(s, id, user) ==>
      FindLabel(w, s.gmail.labels, Want(w, s.rules, s.gmail.contents, Key(user, id)).labelName).Some?
  {
    RestedAfter(w, s0, steps, s);
    TouchedWhenCalled(w, s, id);
    forall l ensures l in s.gmail.mail[id] <==> Stays(s, id, l) || Chosen(w, s, id, l) {
      AddedAreChosen(w, s, id, l);
      LabelOnMessage(w, s, id, l);
    }
    forall user | Calls(s, id, user)
      ensures FindLabel(w, s.gmail.labels, Want(w, s.rules, s.gmail.contents, Key(user, id)).labelName).Some?
    {
      var x := CallIsAdded(w, s, id, user);
    }
  }

  /** When one user asks for all scans, that is a single modification of each message that was called for. */
  lemma OneUserMailAtRest(w: World, s0: State, steps: seq<Step>, s: State, user: string, id: string)
    requires Initial(w, s0) && Valid(w, s0, steps) && s == Exec(w, s0, steps) && Quiescent(s)
    requires forall i :: 0 <= i < |steps| ==> !steps[i].EditRules?
    requires forall r :: r in s.scans.asked ==> s.scans.asked[r].user == user
    requires id in s.gmail.mail && NoDropAbout(s.lost.drops, id)
    ensures id in s.gmail.contents && id in s.gmail.arrived
    ensures !Calls(s, id, user) ==> s.gmail.mail[id] == s.gmail.arrived[id]
    ensures Calls(s, id, user) ==>
      var x := FindLabel(w, s.gmail.labels, w.triage(s0.rules, user, s.gmail.contents[id]).labelName);
      x.Some? && s.gmail.mail[id] == Modified(s.gmail.arrived[id], x.value, ApplyPublished(s, id, true))
  {
    RestedAfter(w, s0, steps, s);
    MailAtRest(w, s0, steps, s, id);
    CallsOfOneUser(w, s, user, id);
    if Calls(s, id, user) {
      var x := FindLabel(w, s.gmail.labels, w.triage(s0.rules, user, s.gmail.contents[id]).labelName).value;
      var i := FindLabelFound(w, s.gmail.labels, w.triage(s0.rules, user, s.gmail.contents[id]).labelName);
      forall l ensures l in s.gmail.mail[id] <==>
        l in Modified(s.gmail.arrived[id], x, ApplyPublished(s, id, true))
      {
        assert Chosen(w, s, id, l) <==> l == x;
      }
    }
  }

  /** Then nobody else has called for anything. */
  lemma CallsOfOneUser(w: World, s: State, user: string, id: string)
    requires Inv(w, s) && forall r :: r in s.scans.asked ==> s.scans.asked[r].user == user
    ensures forall other :: Calls(s, id, other) ==> other == user
    ensures ApplyPublished(s, id, false) <==> Calls(s, id, user)
    ensures ApplyPublished(s, id, true) ==> Calls(s, id, user)
  {
    forall r, e | r in s.scans.published && e in s.scans.published[r]
      ensures e.user == user
    {
      assert FromRun(s.scans, s.gmail.contents, r, e);
    }
    assert forall e: RawEvent :: e.user == user && e.message.id == id ==> KeyOf(e) == Key(user, id);
  }
}
