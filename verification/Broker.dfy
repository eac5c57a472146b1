/** The two queues, with manual acknowledgement. */
module Broker {
  import opened Pipeline

  /** What the queues hold, ready or unsettled. A delivery that is unsettled stays where it is until it is
      acknowledged, or comes back when it is refused or its connection is lost. */
  class Queues {
    var raw: multiset<RawTask>
    var lab: multiset<LabelTask>

    /** nil exactly when the event is queued. */
    method PublishRawEmail(e: RawEvent, queued: bool) returns (ok: bool)
      modifies this`raw
      ensures ok == queued
      ensures raw == if queued then old(raw) + multiset{RawTask(e, Ready, true)} else old(raw)
    {
      if queued { raw := raw + multiset{RawTask(e, Ready, true)}; }
      ok := queued;
    }

    method PublishClassifiedEmail(e: LabelEvent, queued: bool) returns (ok: bool)
      modifies this`lab
      ensures ok == queued
      ensures lab == if queued then old(lab) + multiset{LabelTask(e, LReady, true)} else old(lab)
    {
      if queued { lab := lab + multiset{LabelTask(e, LReady, true)}; }
      ok := queued;
    }

    /** Ack when `ack`, and otherwise Nack with requeue. A settlement that does not reach the broker is an
        error that ends the worker; the delivery then comes back with the lost connection. */
    method SettleRaw(t: RawTask, ack: bool, reached: bool) returns (ok: bool)
      requires t in raw
      modifies this`raw
      ensures ok == reached
      ensures raw == old(raw) - multiset{t}
        + if ack && reached then multiset{} else multiset{RawTask(t.event, Ready, true)}
    {
      raw := raw - multiset{t};
      if !(ack && reached) { raw := raw + multiset{RawTask(t.event, Ready, true)}; }
      ok := reached;
    }

    method SettleLabel(c: LabelTask, ack: bool, reached: bool) returns (ok: bool)
      requires c in lab
      modifies this`lab
      ensures ok == reached
      ensures lab == old(lab) - multiset{c}
        + if ack && reached then multiset{} else multiset{LabelTask(c.event, LReady, true)}
    {
      lab := lab - multiset{c};
      if !(ack && reached) { lab := lab + multiset{LabelTask(c.event, LReady, true)}; }
      ok := reached;
    }
  }
}
