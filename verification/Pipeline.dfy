/** The scan, classify and label pipeline as a transition system.

    Every handler is cut into the steps between which a process can stop. Deliveries are
    at-least-once: a handler that has not settled its delivery can lose it to a redelivery,
    either by ending (Requeue) or while it goes on running without it (Detach). A delivery goes
    back when its channel is gone, and the program publishes on the channel it consumes from, so a
    handler that goes on without its delivery can still write to the database and to Gmail but
    publishes nothing. */
module Pipeline {
  import opened Common
  import opened Rules
  import opened Classifier

  // ----- what the pipeline is built on -------------------------------------

  /** The rule engine, and the representative under case folding of a label name. */
  datatype World = World(
    triage: (seq<UserRule>, string, Message) -> Classification,
    fold: string -> string)

  /** An error of the Gmail API with its HTTP status, or any other error (transport, cancellation). */
  datatype GmailError = ApiError(code: int) | OtherError

  /** Too many requests is an error of the client, too, but one that passes. */
  predicate IsPermanentError(e: GmailError) {
    e.ApiError? && e.code >= 400 && e.code < 500 && e.code != 429
  }

  /** The answer to a create whose name exists. */
  const CONFLICT := ApiError(409)

  type RunId = nat

  datatype Mode = DryRun | Apply

  datatype Request = Request(user: string, mode: Mode, markRead: bool)

  datatype LabelId = Inbox | Unread | Other(id: string)

  datatype Label = Label(id: LabelId, name: string)

  // ----- events and rows ----------------------------------------------------

  datatype RawEvent = RawEvent(run: RunId, user: string, mode: Mode, markRead: bool, message: Message)

  datatype LabelEvent = LabelEvent(
    run: RunId, user: string, mode: Mode, markRead: bool, id: string, labelName: string, confidence: real)

  datatype Key = Key(user: string, id: string)

  datatype RowStatus = DryRunDone | Classified | Applied

  datatype Row = Row(
    run: RunId, predicted: string, applied: Option<string>, confidence: real, reason: Reason, status: RowStatus)

  datatype RunStatus = Enqueuing | Queued | QueuedWithErrors | Failed

  datatype Run = Run(user: string, mode: Mode, status: RunStatus, found: nat, processed: nat, failed: nat)

  function KeyOf(e: RawEvent): Key { Key(e.user, e.message.id) }

  function KeyOfLabel(e: LabelEvent): Key { Key(e.user, e.id) }

  /** Some event is about the key. */
  predicate Mentions(es: seq<RawEvent>, k: Key) {
    exists e :: e in es && KeyOf(e) == k
  }

  /** No two events are about the same key. */
  ghost predicate OncePerKey(f: seq<RawEvent>) {
    forall i, j :: 0 <= i < j < |f| ==> KeyOf(f[i]) != KeyOf(f[j])
  }

  // ----- handlers in flight -------------------------------------------------

  /** Where enqueueScan stands: before the next page, inside a batch, or about to fail the run. */
  datatype Phase = Between | Batch(pending: seq<Message>) | Failing

  datatype Loop = Loop(req: Request, phase: Phase, found: nat, processed: nat, failed: nat)

  datatype RawPc = Ready | Taken | Ruled(result: Classification) | Stored(result: Classification) | Sent

  /** A raw event on the queue or in a handler; `held` while the broker still waits for its settlement. */
  datatype RawTask = RawTask(event: RawEvent, pc: RawPc, held: bool)

  datatype LabelPc = LReady | LTaken | LMissing | LFound(id: LabelId) | LEdited | LMarked

  datatype LabelTask = LabelTask(event: LabelEvent, pc: LabelPc, held: bool)

  /** One modification of a Gmail message. */
  datatype Edit = Edit(event: LabelEvent, id: LabelId)

  /** Scan runs: their rows, the loops that enqueue them, and what was asked and published. */
  datatype Scans = Scans(
    runs: map<RunId, Run>, nextRun: RunId, loops: map<RunId, Loop>,
    asked: map<RunId, Request>, published: map<RunId, seq<RawEvent>>)

  /** The mailbox: its label table, its messages and the labels on them, and how these came about. */
  datatype Gmail = Gmail(
    labels: seq<Label>, contents: map<string, Message>, mail: map<string, set<LabelId>>,
    arrived: map<string, set<LabelId>>, edits: set<Edit>)

  /** A label event given up, and the Gmail error it was given up for. */
  datatype Drop = Drop(event: LabelEvent, error: GmailError)

  /** Label events given up: for a Gmail error, or for a missing row. */
  datatype Lost = Lost(drops: set<Drop>, missed: set<LabelEvent>)

  datatype State = State(
    scans: Scans,
    rules: seq<UserRule>,
    rows: map<Key, Row>,
    raw: multiset<RawTask>,
    lab: multiset<LabelTask>,
    gmail: Gmail,
    lost: Lost)

  // ----- steps ----------------------------------------------------------------

  datatype ApiAct =
    | Fetch(ids: seq<string>) | FetchFails | Publish(ok: bool)
    | Progress(written: bool, ok: bool) | Finish(written: bool) | FailRun(written: bool) | Crash

  datatype RawAct = Take | ReadRules | Store | Forward | Ack | Requeue | Detach | Abandon

  datatype LabelAct =
    | LTake | LSkip | LList | LCreate(id: LabelId) | LModify | LMark | LAck
    | LDrop(error: GmailError) | LRequeue | LDetach | LAbandon

  datatype Step =
    | EditRules(table: seq<UserRule>)
    | Arrive(message: Message, on: set<LabelId>)
    | StartScan(req: Request)
    | Api(run: RunId, api: ApiAct)
    | Raw(task: RawTask, act: RawAct)
    | Lab(job: LabelTask, lact: LabelAct)

  /** EnsureLabel's search: the first label of the list whose name is equal under folding. */
  function FindLabel(w: World, labels: seq<Label>, name: string): Option<LabelId> {
    if labels == [] then None
    else if w.fold(labels[0].name) == w.fold(name) then Some(labels[0].id)
    else FindLabel(w, labels[1..], name)
  }

  /** A label id Gmail may give to a new label. */
  predicate FreshId(g: Gmail, id: LabelId) {
    && id.Other?
    && (forall l | l in g.labels :: l.id != id)
    && (forall m | m in g.mail :: id !in g.mail[m])
    && (forall m | m in g.arrived :: id !in g.arrived[m])
  }

  // ----- scan side --------------------------------------------------------------

  /** What the loop of a run may do next. */
  predicate LoopAllows(l: Loop, contents: map<string, Message>, a: ApiAct) {
    match a
    case Fetch(ids) => l.phase.Between? && ids != [] && forall id | id in ids :: id in contents
    case FetchFails => l.phase.Between?
    case Publish(_) => l.phase.Batch? && l.phase.pending != []
    case Progress(written, ok) => l.phase.Batch? && l.phase.pending == [] && (ok ==> written)
    case Finish(_) => l.phase.Between?
    case FailRun(_) => l.phase.Failing?
    case Crash => true
  }

  predicate ApiEnabled(q: Scans, contents: map<string, Message>, r: RunId, a: ApiAct) {
    r in q.loops && r in q.runs && r in q.published && LoopAllows(q.loops[r], contents, a)
  }

  function Lookup(contents: map<string, Message>, ids: seq<string>): (r: seq<Message>)
    requires forall id :: id in ids ==> id in contents
    ensures |r| == |ids| && forall i :: 0 <= i < |ids| ==> r[i] == contents[ids[i]]
  {
    if ids == [] then [] else [contents[ids[0]]] + Lookup(contents, ids[1..])
  }

  function Totals(run: Run, l: Loop): Run {
    run.(found := l.found, processed := l.processed, failed := l.failed)
  }

  function EventFor(r: RunId, req: Request, m: Message): RawEvent {
    RawEvent(r, req.user, req.mode, req.markRead, m)
  }

  function EndStatus(l: Loop): RunStatus {
    if l.failed > 0 then QueuedWithErrors else Queued
  }

  /** The enqueue loop of a run after an act; None once it has ended. */
  function LoopAfter(l: Loop, contents: map<string, Message>, a: ApiAct): Option<Loop>
    requires a.Fetch? ==> forall id :: id in a.ids ==> id in contents
    requires a.Publish? ==> l.phase.Batch? && l.phase.pending != []
  {
    match a
    case Fetch(ids) => Some(l.(phase := Batch(Lookup(contents, ids)), found := l.found + |ids|))
    case FetchFails => Some(l.(phase := Failing))
    case Publish(ok) =>
      var rest := Batch(l.phase.pending[1..]);
      Some(if ok then l.(phase := rest, processed := l.processed + 1) else l.(phase := rest, failed := l.failed + 1))
    case Progress(_, ok) => Some(l.(phase := if ok then Between else Failing))
    case _ => None
  }

  /** The stored row of a run after an act: counters are copied, and the status set, when the write goes through. */
  function RunAfter(run: Run, l: Loop, a: ApiAct): Run {
    match a
    case Progress(written, _) => if written then Totals(run, l) else run
    case Finish(written) => if written then Totals(run, l).(status := EndStatus(l)) else run
    case FailRun(written) => if written then Totals(run, l).(status := Failed) else run
    case _ => run
  }

  /** The events an act publishes. */
  function Emitted(r: RunId, l: Loop, a: ApiAct): seq<RawEvent>
    requires a.Publish? ==> l.phase.Batch? && l.phase.pending != []
  {
    if a == Publish(true) then [EventFor(r, l.req, l.phase.pending[0])] else []
  }

  function ScansAfter(q: Scans, contents: map<string, Message>, r: RunId, a: ApiAct): Scans
    requires ApiEnabled(q, contents, r, a)
  {
    var l := q.loops[r];
    var after := LoopAfter(l, contents, a);
    Scans(
      q.runs[r := RunAfter(q.runs[r], l, a)],
      q.nextRun,
      if after.Some? then q.loops[r := after.value] else q.loops - {r},
      q.asked,
      q.published[r := q.published[r] + Emitted(r, l, a)])
  }

  function Queue(es: seq<RawEvent>): multiset<RawTask> {
    if es == [] then multiset{} else multiset{RawTask(es[0], Ready, true)} + Queue(es[1..])
  }

  function NewScan(q: Scans, req: Request): Scans {
    var r := q.nextRun;
    Scans(
      q.runs[r := Run(req.user, req.mode, Enqueuing, 0, 0, 0)],
      r + 1,
      q.loops[r := Loop(req, Between, 0, 0, 0)],
      q.asked[r := req],
      q.published[r := []])
  }

  // ----- classifier worker --------------------------------------------------------

  function NewRow(e: RawEvent, c: Classification): Row {
    Row(e.run, c.labelName, None, c.confidence, c.reason, if e.mode == DryRun then DryRunDone else Classified)
  }

  function LabelEventOf(e: RawEvent, c: Classification): LabelEvent {
    LabelEvent(e.run, e.user, e.mode, e.markRead, e.message.id, c.labelName, c.confidence)
  }

  predicate RawEnabled(t: RawTask, a: RawAct) {
    match a
    case Take => t.held && t.pc == Ready
    case ReadRules => t.pc == Taken
    case Store => t.pc.Ruled?
    case Forward => t.held && t.pc.Stored? && t.event.mode == Apply
    case Ack => t.held && (t.pc == Sent || (t.pc.Stored? && t.event.mode != Apply))
    case Requeue => t.held && t.pc != Ready
    case Detach => t.held && t.pc != Ready
    case Abandon => !t.held
  }

  /** What stands in the place of a raw task after an act. */
  function RawAfter(w: World, rules: seq<UserRule>, t: RawTask, a: RawAct): multiset<RawTask>
    requires RawEnabled(t, a)
  {
    var again := RawTask(t.event, Ready, true);
    match a
    case Take => multiset{t.(pc := Taken)}
    case ReadRules => multiset{t.(pc := Ruled(w.triage(rules, t.event.user, t.event.message)))}
    case Store => multiset{t.(pc := Stored(t.pc.result))}
    case Forward => multiset{t.(pc := Sent)}
    case Requeue => multiset{again}
    case Detach => multiset{t.(held := false), again}
    case _ => multiset{}
  }

  /** UpsertEmailMessage happens in Store. */
  function RowsAfterRaw(rows: map<Key, Row>, t: RawTask, a: RawAct): map<Key, Row>
    requires RawEnabled(t, a)
  {
    if a == Store then rows[KeyOf(t.event) := NewRow(t.event, t.pc.result)] else rows
  }

  /** PublishClassifiedEmail happens in Forward. */
  function Forwarded(t: RawTask, a: RawAct): multiset<LabelTask>
    requires RawEnabled(t, a)
  {
    if a == Forward then multiset{LabelTask(LabelEventOf(t.event, t.pc.result), LReady, true)} else multiset{}
  }

  // ----- label worker ---------------------------------------------------------------

  predicate LabEnabled(w: World, g: Gmail, c: LabelTask, a: LabelAct) {
    match a
    case LTake => c.held && c.pc == LReady
    case LSkip => c.pc == LTaken && c.event.mode != Apply
    case LList => c.pc == LTaken && c.event.mode == Apply
    case LCreate(id) => c.pc == LMissing && FindLabel(w, g.labels, c.event.labelName).None? && FreshId(g, id)
    case LModify => c.pc.LFound? && c.event.id in g.mail
    case LMark => c.pc == LEdited
    case LAck => c.held && c.pc == LMarked
    case LDrop(error) =>
      && c.held && IsPermanentError(error)
      && ((c.pc == LTaken && c.event.mode == Apply) || c.pc == LMissing || c.pc.LFound?)
    case LRequeue => c.held && c.pc != LReady
    case LDetach => c.held && c.pc != LReady
    case LAbandon => !c.held
  }

  /** What stands in the place of a label task after an act. */
  function LabAfter(w: World, g: Gmail, c: LabelTask, a: LabelAct): multiset<LabelTask>
    requires LabEnabled(w, g, c, a)
  {
    var again := LabelTask(c.event, LReady, true);
    match a
    case LTake => multiset{c.(pc := LTaken)}
    case LSkip => multiset{c.(pc := LMarked)}
    case LList =>
      var found := FindLabel(w, g.labels, c.event.labelName);
      multiset{c.(pc := if found.Some? then LFound(found.value) else LMissing)}
    case LCreate(id) => multiset{c.(pc := LFound(id))}
    case LModify => multiset{c.(pc := LEdited)}
    case LMark => multiset{c.(pc := LMarked)}
    case LRequeue => multiset{again}
    case LDetach => multiset{c.(held := false), again}
    case _ => multiset{}
  }

  function MarkRow(row: Row, name: string): Row {
    row.(applied := Some(name), status := Applied)
  }

  /** MarkEmailLabelApplied happens in LMark, when the row exists. */
  function RowsAfterLab(rows: map<Key, Row>, c: LabelTask, a: LabelAct): map<Key, Row> {
    var k := KeyOfLabel(c.event);
    if a == LMark && k in rows then rows[k := MarkRow(rows[k], c.event.labelName)] else rows
  }

  /** Add one label, archive, and mark read when asked. */
  function Modified(on: set<LabelId>, id: LabelId, markRead: bool): set<LabelId> {
    (on - ({Inbox} + if markRead then {Unread} else {})) + {id}
  }

  function GmailAfter(w: World, g: Gmail, c: LabelTask, a: LabelAct): Gmail
    requires LabEnabled(w, g, c, a)
  {
    match a
    case LCreate(id) => g.(labels := g.labels + [Label(id, c.event.labelName)])
    case LModify =>
      g.(mail := g.mail[c.event.id := Modified(g.mail[c.event.id], c.pc.id, c.event.markRead)],
         edits := g.edits + {Edit(c.event, c.pc.id)})
    case _ => g
  }

  function LostAfter(lost: Lost, rows: map<Key, Row>, c: LabelTask, a: LabelAct): Lost {
    if a.LDrop? then lost.(drops := lost.drops + {Drop(c.event, a.error)})
    else if a == LMark && KeyOfLabel(c.event) !in rows then lost.(missed := lost.missed + {c.event})
    else lost
  }

  // ----- the whole system ---------------------------------------------------------------

  predicate Enabled(w: World, s: State, step: Step) {
    match step
    case EditRules(_) => true
    case Arrive(m, on) => m.id !in s.gmail.contents
    case StartScan(_) => true
    case Api(r, a) => ApiEnabled(s.scans, s.gmail.contents, r, a)
    case Raw(t, a) => t in s.raw && RawEnabled(t, a)
    case Lab(c, a) => c in s.lab && LabEnabled(w, s.gmail, c, a)
  }

  function NextApi(s: State, r: RunId, a: ApiAct): State
    requires ApiEnabled(s.scans, s.gmail.contents, r, a)
  {
    s.(scans := ScansAfter(s.scans, s.gmail.contents, r, a), raw := s.raw + Queue(Emitted(r, s.scans.loops[r], a)))
  }

  function NextRaw(w: World, s: State, t: RawTask, a: RawAct): State
    requires t in s.raw && RawEnabled(t, a)
  {
    s.(raw := s.raw - multiset{t} + RawAfter(w, s.rules, t, a),
       rows := RowsAfterRaw(s.rows, t, a),
       lab := s.lab + Forwarded(t, a))
  }

  function NextLab(w: World, s: State, c: LabelTask, a: LabelAct): State
    requires c in s.lab && LabEnabled(w, s.gmail, c, a)
  {
    s.(lab := s.lab - multiset{c} + LabAfter(w, s.gmail, c, a),
       rows := RowsAfterLab(s.rows, c, a),
       gmail := GmailAfter(w, s.gmail, c, a),
       lost := LostAfter(s.lost, s.rows, c, a))
  }

  function NextArrive(s: State, m: Message, on: set<LabelId>): State {
    s.(gmail := s.gmail.(contents := s.gmail.contents[m.id := m], mail := s.gmail.mail[m.id := on],
                         arrived := s.gmail.arrived[m.id := on]))
  }

  function Next(w: World, s: State, step: Step): State
    requires Enabled(w, s, step)
  {
    match step
    case EditRules(table) => s.(rules := table)
    case Arrive(m, on) => NextArrive(s, m, on)
    case StartScan(req) => s.(scans := NewScan(s.scans, req))
    case Api(r, a) => NextApi(s, r, a)
    case Raw(t, a) => NextRaw(w, s, t, a)
    case Lab(c, a) => NextLab(w, s, c, a)
  }

  /** The state after a run; a step that is not enabled is skipped (valid runs have none). */
  function Exec(w: World, s: State, steps: seq<Step>): State {
    if steps == [] then s
    else
      var before := Exec(w, s, steps[..|steps| - 1]);
      var last := steps[|steps| - 1];
      if Enabled(w, before, last) then Next(w, before, last) else before
  }

  predicate Valid(w: World, s: State, steps: seq<Step>) {
    steps == [] ||
    (Valid(w, s, steps[..|steps| - 1]) &&
     Enabled(w, Exec(w, s, steps[..|steps| - 1]), steps[|steps| - 1]))
  }

  /** Every step of a run satisfies `p` in the state in which it is taken. */
  ghost predicate Always(w: World, s: State, steps: seq<Step>, p: (State, Step) -> bool) {
    steps == [] ||
    (Always(w, s, steps[..|steps| - 1], p) && p(Exec(w, s, steps[..|steps| - 1]), steps[|steps| - 1]))
  }

  /** Every state a run goes through satisfies `p` with the steps that led to it. */
  ghost predicate Throughout(w: World, s: State, steps: seq<Step>, p: (State, seq<Step>) -> bool) {
    p(Exec(w, s, steps), steps) && (steps == [] || Throughout(w, s, steps[..|steps| - 1], p))
  }

  /** An empty system; the label table may hold labels of the mailbox owner, with names Gmail keeps distinct. */
  ghost predicate Initial(w: World, s: State) {
    && s.scans == Scans(map[], 0, map[], map[], map[])
    && s.rows == map[] && s.raw == multiset{} && s.lab == multiset{}
    && LabelsApart(w, s.gmail.labels)
    && s.gmail == Gmail(s.gmail.labels, map[], map[], map[], {})
    && s.lost == Lost({}, {})
  }

  /** Label ids are ordinary and distinct, and names stay distinct under folding. */
  ghost predicate LabelsApart(w: World, labels: seq<Label>) {
    && (forall i :: 0 <= i < |labels| ==> labels[i].id.Other?)
    && (forall i, j :: 0 <= i < j < |labels| ==>
          labels[i].id != labels[j].id && w.fold(labels[i].name) != w.fold(labels[j].name))
  }

  predicate Quiescent(s: State) {
    s.raw == multiset{} && s.lab == multiset{}
  }

  ghost predicate Reachable(w: World, s: State) {
    exists s0, steps :: Initial(w, s0) && Valid(w, s0, steps) && Exec(w, s0, steps) == s
  }

  /** A run extended by one step. */
  lemma ExecStep(w: World, s: State, steps: seq<Step>, step: Step)
    requires Valid(w, s, steps) && Enabled(w, Exec(w, s, steps), step)
    ensures Valid(w, s, steps + [step])
    ensures Exec(w, s, steps + [step]) == Next(w, Exec(w, s, steps), step)
  {
    assert (steps + [step])[..|steps|] == steps;
  }
}
