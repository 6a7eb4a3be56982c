/**
 * The Think Ink actor of the desk service: it reads newline-framed JSON
 * from the display (ignoring the `t` heartbeat), forwards time-tracking
 * events and light levels as display messages, and once a day sends the
 * rendered image as `displayData` chunks and a `refreshDisplay`.
 *
 * The transmitter is an oracle: `transmit(k)` says whether the k-th send
 * of the actor succeeds. A failed send is unwrapped, so it panics and the
 * handler goes no further.
 */
module ThinkInkActor {
  import opened Common
  import opened Json
  import opened Eink
  import opened Broker
  import opened Serial

  datatype StreamOutcome = NoAction | Received(message: Json) | StreamPanic

  /**
   * The stream handler: the heartbeat line `t` does nothing, any other line
   * must be JSON (`parse` returns None otherwise, and the unwrap panics);
   * the parsed message is only logged. Errors and start/finish are logged.
   */
  function HandleStream(item: StreamItem, parse: string -> Option<Json>): (r: StreamOutcome)
    ensures r.StreamPanic? <==> item.Line? && item.text != "t" && parse(item.text).None?
    ensures r.Received? <==> item.Line? && item.text != "t" && parse(item.text).Some?
    ensures r.Received? ==> r.message == parse(item.text).value
  {
    match item
      case Line(text) =>
        if text == "t" then NoAction
        else if parse(text).None? then StreamPanic
        else Received(parse(text).value)
      case _ => NoAction
  }

  /** The display message for each broker event. */
  function BrokerReply(message: BrokerMessage): (r: Json)
    ensures message.TimeEntryStarted? ==> r == KindOnly("startAnimation")
    ensures message.TimeEntryStopped? ==> r == KindOnly("stopAnimation")
    ensures message.TimeEntryTimeUpdated? ==> r == AdjustAnimationTime(message.minutes)
  {
    match message
      case TimeEntryStarted(_) => KindOnly("startAnimation")
      case TimeEntryStopped => KindOnly("stopAnimation")
      case TimeEntryTimeUpdated(minutes) => AdjustAnimationTime(minutes)
  }

  /** Distinct events give distinct display messages, and the minutes survive. */
  lemma BrokerReplyInjective(a: BrokerMessage, b: BrokerMessage)
    requires BrokerReply(a) == BrokerReply(b)
    ensures a.TimeEntryStarted? == b.TimeEntryStarted?
    ensures a.TimeEntryStopped? == b.TimeEntryStopped?
    ensures a.TimeEntryTimeUpdated? ==> b.TimeEntryTimeUpdated? && a.minutes == b.minutes
  {
    var ra, rb := BrokerReply(a), BrokerReply(b);
    assert ra.fields[0] == rb.fields[0];
    if a.TimeEntryTimeUpdated? {
      assert |rb.fields| == 2;
      assert ra.fields[1] == rb.fields[1];
    }
  }

  datatype Outcome = Done | Panicked

  class ThinkInk {
    var lastDateString: Option<string>
    /** Every message the transmitter accepted, in order. */
    var sent: seq<Json>

    /** `on_start`: the date last drawn is what `date.txt` held, if it could be read. */
    constructor(savedDate: Option<string>)
      ensures lastDateString == savedDate && sent == []
    {
      lastDateString := savedDate;
      sent := [];
    }

    /** `send_message`: transmit, unwrapping the result. */
    method SendMessage(message: Json, transmit: nat -> bool) returns (outcome: Outcome)
      modifies this
      ensures transmit(|old(sent)|) <==> outcome.Done?
      ensures outcome.Done? ==> sent == old(sent) + [message]
      ensures outcome.Panicked? ==> sent == old(sent)
      ensures lastDateString == old(lastDateString)
    {
      if transmit(|sent|) {
        sent := sent + [message];
        outcome := Done;
      } else {
        outcome := Panicked;
      }
    }

    /** The broker handler: one display message per event. */
    method HandleBroker(message: BrokerMessage, transmit: nat -> bool) returns (outcome: Outcome)
      modifies this
      ensures transmit(|old(sent)|) <==> outcome.Done?
      ensures outcome.Done? ==> sent == old(sent) + [BrokerReply(message)]
      ensures outcome.Panicked? ==> sent == old(sent)
      ensures lastDateString == old(lastDateString)
    {
      outcome := SendMessage(BrokerReply(message), transmit);
    }

    /** `UpdateLight`: exactly one `light` message. */
    method UpdateLight(targetValue: nat, speed: nat, transmit: nat -> bool) returns (outcome: Outcome)
      modifies this
      ensures transmit(|old(sent)|) <==> outcome.Done?
      ensures outcome.Done? ==> sent == old(sent) + [LightMessage(targetValue, speed)]
      ensures outcome.Panicked? ==> sent == old(sent)
      ensures lastDateString == old(lastDateString)
    {
      outcome := SendMessage(LightMessage(targetValue, speed), transmit);
    }

    /**
     * `UpdateImage`: skip when the date already drawn is today's; otherwise
     * ask the raylib actor for the packed image (`rendered`, None when the
     * ask fails and is unwrapped), send its chunks and the refresh, and
     * only then record today's date. Writing `date.txt` is not modelled.
     */
    method UpdateImage(today: string, rendered: Option<seq<bv8>>, base64: seq<bv8> -> string,
                       transmit: nat -> bool) returns (outcome: Outcome)
      modifies this
      ensures old(lastDateString) == Some(today) ==>
        outcome.Done? && sent == old(sent) && lastDateString == old(lastDateString)
      ensures old(lastDateString) != Some(today) && rendered.None? ==> outcome.Panicked?
      ensures old(lastDateString) != Some(today) && rendered.Some? && outcome.Done? ==>
        sent == old(sent) + ImageMessages(rendered.value, base64) && lastDateString == Some(today)
      ensures outcome.Panicked? ==> lastDateString == old(lastDateString)
      ensures outcome.Panicked? ==> |old(sent)| <= |sent| && sent[..|old(sent)|] == old(sent)
      ensures old(lastDateString) != Some(today) && rendered.Some? ==>
        (outcome.Done? <==>
          forall t | |old(sent)| <= t < |old(sent)| + |ImageMessages(rendered.value, base64)| :: transmit(t))
      ensures outcome.Panicked? && rendered.Some? ==>
        exists j | 0 <= j < |ImageMessages(rendered.value, base64)| ::
          sent == old(sent) + ImageMessages(rendered.value, base64)[..j]
    {
      if lastDateString == Some(today) {
        return Done;
      }
      if rendered.None? {
        return Panicked;
      }
      var data := rendered.value;
      var chunks := Chunks(data);
      ghost var messages := ImageMessages(data, base64);
      assert |messages| == |chunks| + 1;
      for index := 0 to |chunks|
        invariant sent == old(sent) + messages[..index]
        invariant lastDateString == old(lastDateString)
        invariant forall t | |old(sent)| <= t < |old(sent)| + index :: transmit(t)
      {
        var message := DisplayData(CHUNK_SIZE * index, base64(chunks[index]));
        assert messages[index] == message;
        outcome := SendNext(old(sent), messages, index, message, transmit);
        if outcome.Panicked? {
          assert !transmit(|old(sent)| + index);
          return;
        }
      }
      outcome := SendNext(old(sent), messages, |chunks|, REFRESH_DISPLAY, transmit);
      if outcome.Panicked? {
        assert !transmit(|old(sent)| + |chunks|);
        return;
      }
      assert messages[..|chunks| + 1] == messages;
      lastDateString := Some(today);
    }

    /** Send the next message of a run: on success the run's sent prefix grows by one. */
    method SendNext(ghost start: seq<Json>, ghost messages: seq<Json>, k: nat, message: Json, transmit: nat -> bool)
      returns (outcome: Outcome)
      requires k < |messages| && messages[k] == message
      requires sent == start + messages[..k]
      modifies this
      ensures transmit(|old(sent)|) <==> outcome.Done?
      ensures outcome.Done? ==> sent == start + messages[..k + 1]
      ensures outcome.Panicked? ==> sent == old(sent)
      ensures lastDateString == old(lastDateString)
    {
      outcome := SendMessage(message, transmit);
      assert messages[..k + 1] == messages[..k] + [message];
    }
  }
}
