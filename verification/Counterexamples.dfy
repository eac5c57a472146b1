/** Runs that show two conditions of the theorems are needed: a row can stay classified for ever when a
    handler that lost its delivery stores it again after everybody else has finished; and two label
    workers can get in each other's way, so that an event is dropped and its row stays classified,
    without any fault. */
module Counterexamples {
  import opened Common
  import opened Classifier
  import opened Pipeline
  import opened Invariants
  import opened LabelNames
  import opened Traces

  /** Nothing fails, stops, comes back or is given up. */
  predicate Calm(step: Step) {
    match step
    case Api(_, a) => a != FetchFails && a != Publish(false) && a != Crash && (a.Progress? ==> a.ok)
    case Raw(_, a) => a != Requeue && a != Detach && a != Abandon
    case Lab(_, a) => a != LRequeue && a != LDetach && a != LAbandon && !a.LDrop?
    case _ => true
  }

  ghost predicate AllCalm(steps: seq<Step>) {
    forall i :: 0 <= i < |steps| ==> Calm(steps[i])
  }

  /** Some run leads from one state to the other; a calm one, if so asked. */
  ghost predicate Reaches(w: World, s: State, t: State, calm: bool) {
    exists steps :: Runs(w, s, steps, t) && (calm ==> AllCalm(steps))
  }

  lemma ReachesSelf(w: World, s: State, calm: bool)
    ensures Reaches(w, s, s, calm)
  {
    RunsNone(w, s);
    assert AllCalm([]);
  }

  lemma ReachesNext(w: World, s: State, t: State, step: Step, calm: bool)
    requires Reaches(w, s, t, calm) && Enabled(w, t, step) && (calm ==> Calm(step))
    ensures Reaches(w, s, Next(w, t, step), calm)
  {
    var steps :| Runs(w, s, steps, t) && (calm ==> AllCalm(steps));
    RunsNext(w, s, steps, t, step);
    assert calm ==> AllCalm(steps + [step]);
  }

  lemma ReachesRaw(w: World, s0: State, s: State, calm: bool, rest: multiset<RawTask>, t: RawTask, a: RawAct,
                   next: multiset<RawTask>)
    returns (s': State)
    requires Reaches(w, s0, s, calm) && s.raw == rest + multiset{t} && RawEnabled(t, a)
    requires next == RawAfter(w, s.rules, t, a) && (calm ==> Calm(Raw(t, a)))
    ensures Reaches(w, s0, s', calm)
    ensures s' == s.(raw := rest + next, rows := RowsAfterRaw(s.rows, t, a), lab := s.lab + Forwarded(t, a))
  {
    RawBeside(w, s, rest, t, a, next);
    ReachesNext(w, s0, s, Raw(t, a), calm);
    s' := Next(w, s, Raw(t, a));
  }

  lemma ReachesLab(w: World, s0: State, s: State, calm: bool, rest: multiset<LabelTask>, c: LabelTask, a: LabelAct,
                   next: multiset<LabelTask>)
    returns (s': State)
    requires Reaches(w, s0, s, calm) && s.lab == rest + multiset{c} && LabEnabled(w, s.gmail, c, a)
    requires next == LabAfter(w, s.gmail, c, a) && (calm ==> Calm(Lab(c, a)))
    ensures Reaches(w, s0, s', calm)
    ensures s' == s.(lab := rest + next, rows := RowsAfterLab(s.rows, c, a), gmail := GmailAfter(w, s.gmail, c, a),
                     lost := LostAfter(s.lost, s.rows, c, a))
  {
    LabBeside(w, s, rest, c, a, next);
    ReachesNext(w, s0, s, Lab(c, a), calm);
    s' := Next(w, s, Lab(c, a));
  }

  // ----- a scan of a few messages --------------------------------------------------

  function Empty(): State {
    State(Scans(map[], 0, map[], map[], map[]), [], map[], multiset{}, multiset{},
          Gmail([], map[], map[], map[], {}), Lost({}, {}))
  }

  /** The mailbox holds the messages, and run 0 is about to publish them. */
  ghost predicate Publishing(s: State, req: Request, pending: seq<Message>) {
    && 0 in s.scans.loops && 0 in s.scans.runs && 0 in s.scans.published
    && s.scans.loops[0].req == req && s.scans.loops[0].phase == Batch(pending)
  }

  /** Nothing has happened since but publishing. */
  ghost predicate Fresh(s: State) {
    && s.rows == map[] && s.lab == multiset{} && s.rules == [] && s.lost == Lost({}, {})
    && s.gmail.labels == [] && FreshId(s.gmail, Other("x"))
  }

  lemma Arrives(w: World, s0: State, s: State, m: Message) returns (t: State)
    requires Reaches(w, s0, s, true) && Fresh(s) && m.id !in s.gmail.contents
    ensures Reaches(w, s0, t, true) && Fresh(t) && t == s.(gmail := t.gmail)
    ensures t.gmail.contents == s.gmail.contents[m.id := m] && t.gmail.mail == s.gmail.mail[m.id := {Inbox}]
  {
    ReachesNext(w, s0, s, Arrive(m, {Inbox}), true);
    t := NextArrive(s, m, {Inbox});
  }

  /** A scan fetches one page. */
  lemma Fetches(w: World, s0: State, s: State, req: Request, ids: seq<string>) returns (t: State)
    requires Reaches(w, s0, s, true) && s.scans.nextRun == 0 && ids != []
    requires forall id :: id in ids ==> id in s.gmail.contents
    ensures Reaches(w, s0, t, true) && t == s.(scans := t.scans)
    ensures Publishing(t, req, Lookup(s.gmail.contents, ids))
  {
    ReachesNext(w, s0, s, StartScan(req), true);
    t := s.(scans := NewScan(s.scans, req));
    ReachesNext(w, s0, t, Api(0, Fetch(ids)), true);
    t := NextApi(t, 0, Fetch(ids));
  }

  lemma Publishes(w: World, s0: State, s: State, req: Request, pending: seq<Message>) returns (t: State)
    requires Reaches(w, s0, s, true) && Publishing(s, req, pending) && pending != []
    ensures Reaches(w, s0, t, true) && t == s.(scans := t.scans, raw := t.raw)
    ensures t.raw == s.raw + multiset{RawTask(EventFor(0, req, pending[0]), Ready, true)}
    ensures Publishing(t, req, pending[1..])
  {
    QueueOfOne(Emitted(0, s.scans.loops[0], Publish(true)));
    ReachesNext(w, s0, s, Api(0, Publish(true)), true);
    t := NextApi(s, 0, Publish(true));
  }

  lemma ScanOne(w: World, m: Message, req: Request) returns (s: State)
    ensures Reaches(w, Empty(), s, true) && Fresh(s) && m.id in s.gmail.mail
    ensures s.raw == multiset{RawTask(EventFor(0, req, m), Ready, true)}
  {
    ReachesSelf(w, Empty(), true);
    s := Arrives(w, Empty(), Empty(), m);
    s := Fetches(w, Empty(), s, req, [m.id]);
    s := Publishes(w, Empty(), s, req, [m]);
  }

  lemma ScanTwo(w: World, m: Message, n: Message, req: Request) returns (s: State)
    requires m.id != n.id
    ensures Reaches(w, Empty(), s, true) && Fresh(s) && m.id in s.gmail.mail
    ensures s.raw == multiset{RawTask(EventFor(0, req, n), Ready, true)}
                   + multiset{RawTask(EventFor(0, req, m), Ready, true)}
  {
    ReachesSelf(w, Empty(), true);
    s := Arrives(w, Empty(), Empty(), m);
    s := Arrives(w, Empty(), s, n);
    var contents := s.gmail.contents;
    assert Lookup(contents, [m.id, n.id]) == [m, n];
    s := Fetches(w, Empty(), s, req, [m.id, n.id]);
    s := Publishes(w, Empty(), s, req, [m, n]);
    s := Publishes(w, Empty(), s, req, [n]);
  }

  /** A handler takes the event from the queue, and stores its row. */
  lemma StoreCopy(w: World, s0: State, s: State, calm: bool, e: RawEvent, rest: multiset<RawTask>) returns (t: State)
    requires Reaches(w, s0, s, calm) && s.raw == rest + multiset{RawTask(e, Ready, true)}
    ensures var c := w.triage(s.rules, e.user, e.message);
      t == s.(raw := rest + multiset{RawTask(e, Stored(c), true)}, rows := s.rows[KeyOf(e) := NewRow(e, c)])
    ensures Reaches(w, s0, t, calm)
  {
    var c := w.triage(s.rules, e.user, e.message);
    var ready := RawTask(e, Ready, true);
    t := ReachesRaw(w, s0, s, calm, rest, ready, Take, multiset{ready.(pc := Taken)});
    t := ReachesRaw(w, s0, t, calm, rest, ready.(pc := Taken), ReadRules, multiset{ready.(pc := Ruled(c))});
    t := ReachesRaw(w, s0, t, calm, rest, ready.(pc := Ruled(c)), Store, multiset{ready.(pc := Stored(c))});
  }

  /** It publishes the label event, and acknowledges. */
  lemma ForwardCopy(w: World, s0: State, s: State, calm: bool, e: RawEvent, c: Classification,
                    rest: multiset<RawTask>)
    returns (t: State)
    requires Reaches(w, s0, s, calm) && s.raw == rest + multiset{RawTask(e, Stored(c), true)} && e.mode == Apply
    ensures t == s.(raw := rest, lab := s.lab + multiset{LabelTask(LabelEventOf(e, c), LReady, true)})
    ensures Reaches(w, s0, t, calm)
  {
    var task := RawTask(e, Stored(c), true);
    t := ReachesRaw(w, s0, s, calm, rest, task, Forward, multiset{task.(pc := Sent)});
    t := ReachesRaw(w, s0, t, calm, rest, task.(pc := Sent), Ack, multiset{});
  }

  /** The event is classified, from the queue to the label event. */
  lemma Classifies(w: World, s0: State, s: State, calm: bool, e: RawEvent, rest: multiset<RawTask>)
    returns (t: State)
    requires Reaches(w, s0, s, calm) && s.raw == rest + multiset{RawTask(e, Ready, true)} && e.mode == Apply
    ensures Reaches(w, s0, t, calm)
    ensures var c := w.triage(s.rules, e.user, e.message);
      t == s.(raw := rest, rows := s.rows[KeyOf(e) := NewRow(e, c)],
              lab := s.lab + multiset{LabelTask(LabelEventOf(e, c), LReady, true)})
  {
    t := StoreCopy(w, s0, s, calm, e, rest);
    t := ForwardCopy(w, s0, t, calm, e, w.triage(s.rules, e.user, e.message), rest);
  }

  /** A worker takes a label event and finds no label. */
  lemma FindsNone(w: World, s0: State, s: State, calm: bool, le: LabelEvent, rest: multiset<LabelTask>)
    returns (t: State)
    requires Reaches(w, s0, s, calm) && s.lab == rest + multiset{LabelTask(le, LReady, true)} && le.mode == Apply
    requires s.gmail.labels == []
    ensures Reaches(w, s0, t, calm) && t == s.(lab := rest + multiset{LabelTask(le, LMissing, true)})
  {
    var c := LabelTask(le, LReady, true);
    t := ReachesLab(w, s0, s, calm, rest, c, LTake, multiset{c.(pc := LTaken)});
    t := ReachesLab(w, s0, t, calm, rest, c.(pc := LTaken), LList, multiset{c.(pc := LMissing)});
  }

  /** It creates one, so that whoever else has found none for an equal name runs into it. */
  lemma Creates(w: World, s0: State, s: State, calm: bool, c: LabelTask, rest: multiset<LabelTask>) returns (t: State)
    requires Reaches(w, s0, s, calm) && s.lab == rest + multiset{c} && c.pc == LMissing
    requires s.gmail.labels == [] && FreshId(s.gmail, Other("x"))
    ensures Reaches(w, s0, t, calm) && t.gmail.mail == s.gmail.mail
    ensures t == s.(lab := rest + multiset{c.(pc := LFound(Other("x")))}, gmail := t.gmail)
    ensures forall d: LabelTask :: d.pc == LMissing && w.fold(d.event.labelName) == w.fold(c.event.labelName) ==>
              Conflicted(w, t.gmail, d)
  {
    t := ReachesLab(w, s0, s, calm, rest, c, LCreate(Other("x")), multiset{c.(pc := LFound(Other("x")))});
    assert t.gmail.labels == [Label(Other("x"), c.event.labelName)];
  }

  /** It labels the message and marks the row. */
  lemma Labels(w: World, s0: State, s: State, calm: bool, c: LabelTask, rest: multiset<LabelTask>) returns (t: State)
    requires Reaches(w, s0, s, calm) && s.lab == rest + multiset{c} && c.pc.LFound? && c.held
    requires c.event.id in s.gmail.mail && KeyOfLabel(c.event) in s.rows
    ensures Reaches(w, s0, t, calm) && t == s.(lab := rest, rows := t.rows, gmail := t.gmail)
    ensures t.gmail.labels == s.gmail.labels
    ensures forall k :: k in s.rows && k != KeyOfLabel(c.event) ==> k in t.rows && t.rows[k] == s.rows[k]
  {
    t := ReachesLab(w, s0, s, calm, rest, c, LModify, multiset{c.(pc := LEdited)});
    t := ReachesLab(w, s0, t, calm, rest, c.(pc := LEdited), LMark, multiset{c.(pc := LMarked)});
    t := ReachesLab(w, s0, t, calm, rest, c.(pc := LMarked), LAck, multiset{});
    assert rest + multiset{} == rest;
  }

  // ----- a stranded row -----------------------------------------------------------

  /** A handler reads the rules and loses its delivery, which goes back to the queue. */
  lemma LosesDelivery(w: World, s0: State, s: State, e: RawEvent) returns (t: State)
    requires Reaches(w, s0, s, false) && s.raw == multiset{RawTask(e, Ready, true)}
    ensures var c := w.triage(s.rules, e.user, e.message);
      t == s.(raw := multiset{RawTask(e, Ruled(c), false)} + multiset{RawTask(e, Ready, true)})
    ensures Reaches(w, s0, t, false)
  {
    var c := w.triage(s.rules, e.user, e.message);
    var ready := RawTask(e, Ready, true);
    var none: multiset<RawTask> := multiset{};
    t := ReachesRaw(w, s0, s, false, none, ready, Take, multiset{ready.(pc := Taken)});
    t := ReachesRaw(w, s0, t, false, none, ready.(pc := Taken), ReadRules, multiset{ready.(pc := Ruled(c))});
    t := ReachesRaw(w, s0, t, false, none, ready.(pc := Ruled(c)), Detach,
                    multiset{RawTask(e, Ruled(c), false), ready});
  }

  /** The handler that lost its delivery stores the row, and ends. */
  lemma StrandsRow(w: World, s0: State, s: State, e: RawEvent, c: Classification) returns (t: State)
    requires Reaches(w, s0, s, false) && s.raw == multiset{RawTask(e, Ruled(c), false)} && s.lab == multiset{}
    requires e.mode == Apply
    ensures Reaches(w, s0, t, false) && Quiescent(t) && t.lost == s.lost
    ensures KeyOf(e) in t.rows && t.rows[KeyOf(e)].status == Classified
  {
    var lost := RawTask(e, Ruled(c), false);
    var none: multiset<RawTask> := multiset{};
    t := ReachesRaw(w, s0, s, false, none, lost, Store, multiset{lost.(pc := Stored(c))});
    t := ReachesRaw(w, s0, t, false, none, lost.(pc := Stored(c)), Abandon, multiset{});
  }

  /** Nothing is under way, nothing was dropped, and the row is still classified. */
  ghost predicate LeftBehind(s: State, k: Key) {
    Quiescent(s) && s.lost == Lost({}, {}) && k in s.rows && s.rows[k].status == Classified
  }

  /** Without the condition on stranding steps the guarantee fails: some run ends with both queues
      empty, nothing given up, and a row that is still classified. */
  lemma RowsCanBeStranded(w: World, m: Message, user: string)
    ensures exists s, k :: Reachable(w, s) && LeftBehind(s, k)
  {
    var req := Request(user, Apply, false);
    var e := EventFor(0, req, m);
    var c := w.triage([], user, m);
    var le := LabelEventOf(e, c);
    var s0 := Empty();
    var none: multiset<LabelTask> := multiset{};
    var s := ScanOne(w, m, req);
    assert Reaches(w, s0, s, false);
    s := LosesDelivery(w, s0, s, e);
    s := Classifies(w, s0, s, false, e, multiset{RawTask(e, Ruled(c), false)});
    s := FindsNone(w, s0, s, false, le, none);
    s := Creates(w, s0, s, false, LabelTask(le, LMissing, true), none);
    s := Labels(w, s0, s, false, LabelTask(le, LFound(Other("x")), true), none);
    s := StrandsRow(w, s0, s, e, c);
    assert LeftBehind(s, KeyOf(e)) && Initial(w, s0);
  }

  // ----- two label workers ------------------------------------------------------------

  /** The worker holds its delivery, is about to create a label that somebody else has created, and gives the
      event up on Gmail's refusal; that leaves both queues empty and the row classified. */
  ghost predicate DroppedForConflict(w: World, s: State, c: LabelTask) {
    && c in s.lab && c.held && Conflicted(w, s.gmail, c) && Enabled(w, s, Lab(c, LDrop(CONFLICT)))
    && var s' := Next(w, s, Lab(c, LDrop(CONFLICT)));
       && Quiescent(s') && s'.lost == Lost({Drop(c.event, CONFLICT)}, {})
       && KeyOfLabel(c.event) in s'.rows && s'.rows[KeyOfLabel(c.event)].status == Classified
  }

  lemma OnlyOneLeft(w: World, s: State, c: LabelTask)
    requires s.lab == multiset{c} && s.raw == multiset{} && s.lost == Lost({}, {})
    requires c.held && Conflicted(w, s.gmail, c)
    requires KeyOfLabel(c.event) in s.rows && s.rows[KeyOfLabel(c.event)].status == Classified
    ensures DroppedForConflict(w, s, c)
  {
    var none: multiset<LabelTask> := multiset{};
    LabBeside(w, s, none, c, LDrop(CONFLICT), none);
  }

  /** Two messages of one scan are classified, and two workers find no label. */
  lemma BothFindNone(w: World, m: Message, n: Message, req: Request, ld: LabelEvent, le: LabelEvent) returns (s: State)
    requires m.id != n.id && req.mode == Apply
    requires ld == LabelEventOf(EventFor(0, req, m), w.triage([], req.user, m))
    requires le == LabelEventOf(EventFor(0, req, n), w.triage([], req.user, n))
    ensures Reaches(w, Empty(), s, true) && s.raw == multiset{} && s.lost == Lost({}, {}) && m.id in s.gmail.mail
    ensures s.lab == multiset{LabelTask(le, LMissing, true)} + multiset{LabelTask(ld, LMissing, true)}
    ensures s.gmail.labels == [] && FreshId(s.gmail, Other("x"))
    ensures KeyOfLabel(ld) in s.rows && KeyOfLabel(le) in s.rows && s.rows[KeyOfLabel(le)].status == Classified
  {
    var d, e := EventFor(0, req, m), EventFor(0, req, n);
    var none: multiset<RawTask> := multiset{};
    s := ScanTwo(w, m, n, req);
    s := Classifies(w, Empty(), s, true, d, multiset{RawTask(e, Ready, true)});
    s := Classifies(w, Empty(), s, true, e, none);
    s := FindsNone(w, Empty(), s, true, le, multiset{LabelTask(ld, LReady, true)});
    s := FindsNone(w, Empty(), s, true, ld, multiset{LabelTask(le, LMissing, true)});
  }

  /** Two workers and no fault at all: two messages of one scan call for the same new label, both workers find
      it missing, one creates it, and the event of the other is dropped for good. */
  lemma WorkersCanConflict(w: World, m: Message, n: Message, user: string)
    requires m.id != n.id
    requires w.fold(w.triage([], user, m).labelName) == w.fold(w.triage([], user, n).labelName)
    ensures exists s, c :: Reaches(w, Empty(), s, true) && DroppedForConflict(w, s, c)
  {
    var req := Request(user, Apply, false);
    var ld := LabelEventOf(EventFor(0, req, m), w.triage([], user, m));
    var le := LabelEventOf(EventFor(0, req, n), w.triage([], user, n));
    var held := LabelTask(le, LMissing, true);
    var s := BothFindNone(w, m, n, req, ld, le);
    s := Creates(w, Empty(), s, true, LabelTask(ld, LMissing, true), multiset{held});
    assert Conflicted(w, s.gmail, held);
    s := Labels(w, Empty(), s, true, LabelTask(ld, LFound(Other("x")), true), multiset{held});
    OnlyOneLeft(w, s, held);
  }

  /** And whatever the rules say, one event and one lost delivery are enough: the worker that lost the delivery
      creates the label, and the one that has it now drops the event. */
  lemma CopiesCanConflict(w: World, m: Message, user: string)
    ensures exists s, c :: Reachable(w, s) && DroppedForConflict(w, s, c)
  {
    var req := Request(user, Apply, false);
    var e := EventFor(0, req, m);
    var le := LabelEventOf(e, w.triage([], user, m));
    var s0 := Empty();
    var held, lost := LabelTask(le, LMissing, true), LabelTask(le, LMissing, false);
    var none: multiset<LabelTask> := multiset{};
    var s := ScanOne(w, m, req);
    assert Reaches(w, s0, s, false);
    s := Classifies(w, s0, s, false, e, multiset{});
    s := FindsNone(w, s0, s, false, le, none);
    s := ReachesLab(w, s0, s, false, none, held, LDetach, multiset{lost, LabelTask(le, LReady, true)});
    s := FindsNone(w, s0, s, false, le, multiset{lost});
    s := Creates(w, s0, s, false, lost, multiset{held});
    assert Conflicted(w, s.gmail, held);
    s := ReachesLab(w, s0, s, false, multiset{held}, lost.(pc := LFound(Other("x"))), LAbandon, none);
    OnlyOneLeft(w, s, held);
    assert Initial(w, s0);
  }
}
