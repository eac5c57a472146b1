/** The two consumers as they are written. Whatever the calls they make meet with, handling one delivery
    is a run of the transition system, of steps of that delivery alone. */
module Consumers {
  import opened Common
  import opened Text
  import opened Rules
  import opened Classifier
  import opened RuleChoice
  import opened Pipeline
  import opened Traces
  import opened Handling
  import opened Storage
  import opened Broker
  import opened GmailClient

  /** The world of the transition system, made of the real rule engine. */
  function WorldOf(lib: Lib): World {
    World((table: seq<UserRule>, user: string, m: Message) => Triage(lib, table, user, m),
          (name: string) => Fold(lib, name))
  }

  // ----- classifier worker -----------------------------------------------------------

  /** What the calls of one handling meet with. */
  datatype RawWeather = RawWeather(rulesRead: bool, upsert: Write, queued: bool, settled: bool)

  /** All that the event asks for was done, and the worker was told. */
  predicate Heard(e: RawEvent, weather: RawWeather) {
    weather.rulesRead && weather.upsert == Done && (weather.queued || e.mode != Apply)
  }

  /** How far a handling gets with result `c`. */
  function RawPointFor(e: RawEvent, c: Classification, weather: RawWeather): RawPc {
    if !weather.rulesRead then Taken
    else if weather.upsert == NotDone then Ruled(c)
    else if weather.upsert == Done && e.mode == Apply && weather.queued then Sent
    else Stored(c)
  }

  class ClassifierWorker {
    const lib: Lib
    const store: Store
    const broker: Queues

    constructor (lib: Lib, store: Store, broker: Queues)
      ensures this.lib == lib && this.store == store && this.broker == broker
    {
      this.lib, this.store, this.broker := lib, store, broker;
    }

    /** Read the rules and classify. */
    method ClassifyMessage(e: RawEvent) returns (result: Classification)
      ensures result == Triage(lib, store.rules, e.user, e.message)
    {
      var userRules := ListEnabledUserRules(store.rules, e.user);
      var rules := ToClassificationRules(userRules);
      result := Classify(lib, e.message, rules);
    }

    /** Upsert the result: a new row, or the same row as if new. */
    method StoreResult(e: RawEvent, result: Classification, outcome: Write) returns (ok: bool)
      modifies store`rows
      ensures ok == (outcome == Done)
      ensures store.rows == if outcome == NotDone then old(store.rows)
        else old(store.rows)[KeyOf(e) := NewRow(e, result)]
    {
      var status := Classified;
      if e.mode == DryRun { status := DryRunDone; }
      var row := Row(e.run, result.labelName, None, result.confidence, result.reason, status);
      ok := store.UpsertEmailMessage(KeyOf(e), row, outcome);
    }

    /** Read the rules, upsert the row, then publish: `pc` is how far that got. */
    method ProcessRawEmail(e: RawEvent, weather: RawWeather) returns (ok: bool, ghost pc: RawPc)
      modifies store`rows, broker`lab
      ensures var c := Triage(lib, store.rules, e.user, e.message);
        && pc == RawPointFor(e, c, weather) && (ok ==> RawEnabled(RawTask(e, pc, true), Ack))
        && store.rows == RowsAt(old(store.rows), e, c, pc)
        && broker.lab == LabAt(old(broker.lab), e, c, pc)
      ensures ok <==> weather.rulesRead && weather.upsert == Done && (e.mode == Apply ==> weather.queued)
    {
      pc := Taken;
      if !weather.rulesRead { return false, pc; }
      var result := ClassifyMessage(e);
      pc := Ruled(result);

      var stored := StoreResult(e, result, weather.upsert);
      if weather.upsert != NotDone { pc := Stored(result); }
      if !stored { return false, pc; }

      if e.mode == Apply {
        var published := broker.PublishClassifiedEmail(LabelEventOf(e, result), weather.queued);
        if !published { return false, pc; }
        pc := Sent;
      }
      ok := true;
    }

    /** Ack what was processed, nack the rest; a body that does not decode is dropped with an Ack. Rows and
        queues end as the weather says, and that is the effect of the steps, from any state the worker may find. */
    method HandleDelivery(body: Option<RawEvent>, weather: RawWeather, t: RawTask, ghost s: State)
      returns (ok: bool, ghost steps: seq<Step>)
      requires t in broker.raw && t == RawTask(t.event, Taken, true) && (body.Some? ==> body.value == t.event)
      requires s.rules == store.rules && s.rows == store.rows && s.raw == broker.raw && s.lab == broker.lab
      modifies store`rows, broker
      ensures ok == weather.settled
      ensures body.Some? ==>
        var c := Triage(lib, store.rules, t.event.user, t.event.message);
        var pc := RawPointFor(t.event, c, weather);
        && store.rows == RowsAt(old(store.rows), t.event, c, pc)
        && broker.lab == LabAt(old(broker.lab), t.event, c, pc)
      ensures body.None? ==> store.rows == old(store.rows) && broker.lab == old(broker.lab)
      ensures broker.raw == old(broker.raw) - multiset{t}
        + if weather.settled && (body.None? || Heard(t.event, weather)) then multiset{}
          else multiset{RawTask(t.event, Ready, true)}
      ensures body.Some? ==>
        Runs(WorldOf(lib), s, steps, s.(rows := store.rows, raw := broker.raw, lab := broker.lab))
      ensures OfRawEvent(steps, t.event)
    {
      steps := [];
      if body.None? {
        ok := broker.SettleRaw(t, true, weather.settled);
        return;
      }
      ghost var c := Triage(lib, store.rules, t.event.user, t.event.message);
      var processed, pc := ProcessRawEmail(body.value, weather);
      ok := broker.SettleRaw(t, processed, weather.settled);
      ghost var a := if processed && ok then Ack else Requeue;
      RawSettledRun(WorldOf(lib), s, t, c, pc, a);
      RawStepsAreOwn(t.event, c, pc, RawTask(t.event, pc, true), a);
      steps := RawSteps(t.event, c, pc) + [Raw(RawTask(t.event, pc, true), a)];
    }
  }

  // ----- label worker -------------------------------------------------------------------

  /** What the calls of one handling meet with; `newId` is what Gmail gives a new label. */
  datatype LabelWeather = LabelWeather(newId: LabelId, list: Call, create: Call, edit: Call, mark: Write, settled: bool)

  /** What processing comes to: done, dropped, or to be tried again. */
  datatype Verdict = Processed | Dropped | Retry

  /** The first error the calls to Gmail come back with, if they do not all succeed. */
  function Met(w: World, g: Gmail, e: LabelEvent, weather: LabelWeather): Option<GmailError> {
    if weather.list != Fine then ErrorOf(weather.list)
    else if FindLabel(w, g.labels, e.labelName).None? && weather.create != Fine then ErrorOf(weather.create)
    else if weather.edit.Refused? then Some(weather.edit.error)
    else if e.id !in g.mail then Some(NOT_FOUND)
    else ErrorOf(weather.edit)
  }

  /** An apply event is dropped for a permanent error of Gmail, or for a row that is not there. */
  predicate GivesUp(w: World, g: Gmail, rows: map<Key, Row>, e: LabelEvent, weather: LabelWeather) {
    && e.mode == Apply
    && var met := Met(w, g, e, weather);
       if met.Some? then IsPermanentError(met.value) else weather.mark == Done && KeyOfLabel(e) !in rows
  }

  /** It is tried again for any other error, of Gmail or of the store. */
  predicate TriesAgain(w: World, g: Gmail, e: LabelEvent, weather: LabelWeather) {
    && e.mode == Apply
    && var met := Met(w, g, e, weather);
       if met.Some? then !IsPermanentError(met.value) else weather.mark != Done
  }

  /** What processing comes to, by the status codes of the first error: a client error is for good, but too many
      requests are not; and a row that is not there is for good, but a store that does not answer is not. */
  function VerdictFor(w: World, g: Gmail, rows: map<Key, Row>, e: LabelEvent, weather: LabelWeather): Verdict {
    if e.mode != Apply then Processed
    else
      match Met(w, g, e, weather)
      case Some(ApiError(code)) => if 400 <= code <= 428 || 430 <= code <= 499 then Dropped else Retry
      case Some(OtherError) => Retry
      case None =>
        if weather.mark != Done then Retry else if KeyOfLabel(e) in rows then Processed else Dropped
  }

  lemma VerdictMeans(w: World, g: Gmail, rows: map<Key, Row>, e: LabelEvent, weather: LabelWeather)
    ensures VerdictFor(w, g, rows, e, weather) == Dropped <==> GivesUp(w, g, rows, e, weather)
    ensures VerdictFor(w, g, rows, e, weather) == Retry <==> TriesAgain(w, g, e, weather)
  {
  }

  /** How far a handling gets. */
  function LabelPointFor(w: World, g: Gmail, e: LabelEvent, weather: LabelWeather): LabelPoint {
    var absent := FindLabel(w, g.labels, e.labelName).None?;
    if e.mode != Apply then Skipped
    else if weather.list != Fine then Start
    else if absent && weather.create.Refused? then Missing
    else if (absent && weather.create.Unheard?) || weather.edit.Refused? || e.id !in g.mail then Found
    else if weather.edit.Unheard? || weather.mark == NotDone then Edited
    else Marked
  }

  /** How a handling settles when the settlement arrives. */
  function LabelActFor(w: World, g: Gmail, e: LabelEvent, weather: LabelWeather): LabelAct {
    var met := Met(w, g, e, weather);
    if TriesAgain(w, g, e, weather) || !weather.settled then LRequeue
    else if e.mode == Apply && met.Some? then LDrop(met.value)
    else LAck
  }

  /** The weather allows that settlement. */
  lemma ActFits(w: World, g: Gmail, e: LabelEvent, weather: LabelWeather)
    requires FreshId(g, weather.newId)
    ensures var p := LabelPointFor(w, g, e, weather);
      && LabelPointOk(w, g, e, weather.newId, p)
      && LabelSettlement(w, g, e, weather.newId, p, LabelActFor(w, g, e, weather))
  {
  }

  class LabelWorker {
    const store: Store
    const broker: Queues
    const gmail: Client

    constructor (store: Store, broker: Queues, gmail: Client)
      ensures this.store == store && this.broker == broker && this.gmail == gmail
    {
      this.store, this.broker, this.gmail := store, broker, gmail;
    }

    /** Find or create the label, edit the message, then mark the row. */
    method ProcessClassifiedEmail(e: LabelEvent, weather: LabelWeather) returns (r: Verdict)
      modifies store`rows, gmail`labels, gmail`mail, gmail`edits
      ensures var p := LabelPointFor(gmail.world, old(gmail.View()), e, weather);
        && gmail.View() == GmailAt(gmail.world, old(gmail.View()), e, weather.newId, p)
        && store.rows == MarkedRows(old(store.rows), e, p)
      ensures r == Dropped <==> GivesUp(gmail.world, old(gmail.View()), old(store.rows), e, weather)
      ensures r == Retry <==> TriesAgain(gmail.world, old(gmail.View()), e, weather)
      ensures r == VerdictFor(gmail.world, old(gmail.View()), old(store.rows), e, weather)
    {
      VerdictMeans(gmail.world, gmail.View(), store.rows, e, weather);
      if e.mode != Apply { return Processed; }

      var ensured := gmail.EnsureLabel(e.labelName, weather.newId, weather.list, weather.create);
      match ensured {
        case Err(error) =>
          if IsPermanentError(error) { return Dropped; }
          return Retry;
        case Ok(id) =>
          var error := gmail.ApplyLabelToMessage(e.id, id, e.markRead, weather.edit, e);
          if error.Some? {
            if IsPermanentError(error.value) { return Dropped; }
            return Retry;
          }
      }

      var marked := store.MarkEmailLabelApplied(KeyOfLabel(e), e.labelName, weather.mark);
      match marked {
        case WriteFailed => return Retry;
        case RowNotFound => return Dropped;
        case RowMarked => return Processed;
      }
    }

    /** Ack what was processed or dropped, nack the rest. Mailbox, row, queue and the record of drops end as
        the weather says, and that is the effect of the steps. */
    method HandleDelivery(body: Option<LabelEvent>, weather: LabelWeather, c: LabelTask, ghost s: State)
      returns (ok: bool, ghost steps: seq<Step>, ghost lost: Lost)
      requires c in broker.lab && c == LabelTask(c.event, LTaken, true) && (body.Some? ==> body.value == c.event)
      requires FreshId(gmail.View(), weather.newId)
      requires s.rows == store.rows && s.lab == broker.lab && s.gmail == gmail.View()
      modifies store`rows, broker`lab, gmail`labels, gmail`mail, gmail`edits
      ensures ok == weather.settled
      ensures body.Some? ==>
        var p := LabelPointFor(gmail.world, old(gmail.View()), c.event, weather);
        && gmail.View() == GmailAt(gmail.world, old(gmail.View()), c.event, weather.newId, p)
        && store.rows == MarkedRows(old(store.rows), c.event, p)
        && lost == Given(MarkedLost(s.lost, old(store.rows), c.event, p), c.event,
                         LabelActFor(gmail.world, old(gmail.View()), c.event, weather))
      ensures body.None? ==> store.rows == old(store.rows) && gmail.View() == old(gmail.View()) && lost == s.lost
      ensures broker.lab == old(broker.lab) - multiset{c}
        + if weather.settled && (body.None? || !TriesAgain(gmail.world, old(gmail.View()), c.event, weather))
          then multiset{} else multiset{LabelTask(c.event, LReady, true)}
      ensures body.Some? && c.event.mode == Apply ==>
        var met := Met(gmail.world, old(gmail.View()), c.event, weather);
        var lasting := met.Some? && met.value.ApiError?
          && (400 <= met.value.code <= 428 || 430 <= met.value.code <= 499);
        && (met.Some? && !lasting ==> LabelTask(c.event, LReady, true) in broker.lab)
        && (lasting && weather.settled ==>
              broker.lab == old(broker.lab) - multiset{c} && Drop(c.event, met.value) in lost.drops)
      ensures body.Some? ==>
        Runs(gmail.world, s, steps,
             s.(rows := store.rows, lab := broker.lab, gmail := gmail.View(), lost := lost))
      ensures OfLabelEvent(steps, c.event)
    {
      steps, lost := [], s.lost;
      if body.None? {
        ok := broker.SettleLabel(c, true, weather.settled);
        return;
      }
      var verdict := ProcessClassifiedEmail(body.value, weather);
      ok := broker.SettleLabel(c, verdict != Retry, weather.settled);
      ghost var w := gmail.world;
      ghost var p := LabelPointFor(w, s.gmail, c.event, weather);
      ghost var a := LabelActFor(w, s.gmail, c.event, weather);
      ghost var at := LabelTask(c.event, LabelPcAt(w, s.gmail, c.event, weather.newId, p), true);
      ActFits(w, s.gmail, c.event, weather);
      LabelSettledRun(w, s, c, weather.newId, p, a);
      LabelStepsAreOwn(w, s.gmail, c.event, weather.newId, p, at, a);
      steps := LabelSteps(w, s.gmail, c.event, weather.newId, p) + [Lab(at, a)];
      lost := Given(MarkedLost(s.lost, s.rows, c.event, p), c.event, a);
    }
  }
}
