/**
 * The macro pad actor of the desk service. It reads newline-framed lines
 * from the pad, ignores the `h` heartbeat, and serves each JSON command by
 * asking the Toggl actor, then answers with exactly one `success` or
 * `error`; `getTimeEntries` first sends one `timeEntry` per entry.
 *
 * Two oracles stand for the other side: `ask(k)` is the Toggl actor's
 * answer to the k-th ask (None when the ask fails), and `transmit(k)` says
 * whether the k-th message sent to the pad goes out. A failed transmit is
 * unwrapped and panics.
 */
module MacroPadActor {
  import opened Common
  import opened Json
  import opened Serial
  import opened PadProtocol

  /** A message asked of the Toggl actor, carrying what the command forwards. */
  datatype Ask =
    | GetTimeEntries
    | StartTimeEntry(description: string)
    | StopTimeEntry
    | ContinueTimeEntry
    | AdjustTime(minutes: int)

  /** The asks made and the messages to send for one command. */
  datatype Plan = Plan(asks: seq<Ask>, replies: seq<Json>)

  datatype Outcome = Done | Panicked

  /** A handler's own result: `Ok(())`, `Err(())`, or a panic before it returns. */
  datatype HandlerResult = HandlerOk | HandlerErr | HandlerPanic

  /**
   * The one ask a command makes, or None when an `unwrap` on the command
   * panics before asking (missing `kind`, unknown kind, missing
   * `description` or `minutes`).
   */
  function CommandAsk(message: Json): (r: Option<Ask>)
    ensures r.Some? ==> KindOf(message).Some?
    ensures r == Some(GetTimeEntries) <==> KindOf(message) == Some("getTimeEntries")
    ensures r == Some(StopTimeEntry) <==> KindOf(message) == Some("stopTimeEntry")
    ensures r == Some(ContinueTimeEntry) <==> KindOf(message) == Some("continueTimeEntry")
    ensures r.Some? && r.value.StartTimeEntry? <==>
      KindOf(message) == Some("startTimeEntry") && AsStr(Get(Get(message, "timeEntry"), "description")).Some?
    ensures r.Some? && r.value.StartTimeEntry? ==>
      r.value.description == AsStr(Get(Get(message, "timeEntry"), "description")).value
    ensures r.Some? && r.value.AdjustTime? <==>
      KindOf(message) == Some("adjustTime") && AsI64(Get(message, "minutes")).Some?
    ensures r.Some? && r.value.AdjustTime? ==> r.value.minutes == AsI64(Get(message, "minutes")).value
  {
    match KindOf(message)
      case None => None
      case Some(kind) =>
        if kind == "getTimeEntries" then Some(GetTimeEntries)
        else if kind == "startTimeEntry" then
          match AsStr(Get(Get(message, "timeEntry"), "description"))
            case None => None
            case Some(description) => Some(StartTimeEntry(description))
        else if kind == "stopTimeEntry" then Some(StopTimeEntry)
        else if kind == "continueTimeEntry" then Some(ContinueTimeEntry)
        else if kind == "adjustTime" then
          match AsI64(Get(message, "minutes"))
            case None => None
            case Some(minutes) => Some(AdjustTime(minutes))
        else None
  }

  /**
   * `process_command` given the answer to its ask: the messages it sends,
   * or None when it panics. A failed ask is answered with `error` alone;
   * the entry list must be an array of entries with string descriptions.
   */
  function CommandPlan(message: Json, answer: Option<Json>): (r: Option<Plan>)
    ensures r.Some? <==> (CommandAsk(message).Some? &&
      (CommandAsk(message) == Some(GetTimeEntries) && answer.Some? ==>
        AsArray(answer.value).Some? && EntryReplies(AsArray(answer.value).value).Some?))
    ensures r.Some? ==> r.value.asks == [CommandAsk(message).value]
    ensures r.Some? ==> DisciplinedReplies(r.value.replies)
    ensures r.Some? && answer.None? ==> r.value.replies == [ERROR]
    ensures r.Some? && answer.Some? ==> r.value.replies[|r.value.replies| - 1] == SUCCESS
    ensures r.Some? && answer.Some? && CommandAsk(message) == Some(GetTimeEntries) ==>
      r.value.replies == EntryReplies(AsArray(answer.value).value).value + [SUCCESS]
    ensures r.Some? && CommandAsk(message) != Some(GetTimeEntries) ==> |r.value.replies| == 1
  {
    match CommandAsk(message)
      case None => None
      case Some(a) =>
        if answer.None? then Some(Plan([a], [ERROR]))
        else if a == GetTimeEntries then
          match AsArray(answer.value)
            case None => None
            case Some(entries) =>
              match EntryReplies(entries)
                case None => None
                case Some(messages) =>
                  EntryRepliesAreTimeEntries(entries);
                  Some(Plan([a], messages + [SUCCESS]))
        else Some(Plan([a], [SUCCESS]))
  }

  /** Whether the transmits numbered `from` .. `from + count - 1` all go out. */
  predicate AllSent(transmit: nat -> bool, from: nat, count: nat)
  {
    forall k :: from <= k < from + count ==> transmit(k)
  }

  lemma AllSentExtends(transmit: nat -> bool, from: nat, count: nat)
    requires AllSent(transmit, from, count) && transmit(from + count)
    ensures AllSent(transmit, from, count + 1)
  {
  }

  /** An entry without a description, or a transmission that fails, means the whole list is not sent. */
  lemma SendStopsAt(entries: seq<Json>, transmit: nat -> bool, base: nat, i: nat)
    requires i < |entries| && EntryReplies(entries[..i]).Some?
    requires Description(entries[i]).None? || !transmit(base + i)
    ensures !(EntryReplies(entries).Some? && AllSent(transmit, base, |EntryReplies(entries).value|))
  {
    if Description(entries[i]).None? {
      assert entries[..i + 1][i] == entries[i];
      EntryRepliesPrefix(entries, i + 1);
    }
  }

  class Macropad {
    /** Every message the pad was sent, in order. */
    var sent: seq<Json>
    /** Every ask made of the Toggl actor, in order. */
    var asks: seq<Ask>

    constructor()
      ensures sent == [] && asks == []
    {
      sent := [];
      asks := [];
    }

    /**
     * The stream handler: `h` does nothing, any other line must be JSON
     * (`parse` None panics) and is served as a command; framing errors and
     * the start and end of the stream are only logged.
     */
    method HandleStream(item: StreamItem, parse: string -> Option<Json>,
                        ask: nat -> Option<Json>, transmit: nat -> bool) returns (outcome: Outcome)
      modifies this
      ensures !item.Line? || item.text == "h" ==> outcome.Done? && sent == old(sent) && asks == old(asks)
      ensures item.Line? && item.text != "h" && parse(item.text).None? ==>
        outcome.Panicked? && sent == old(sent) && asks == old(asks)
      ensures item.Line? && item.text != "h" && parse(item.text).Some? ==>
        var plan := CommandPlan(parse(item.text).value, ask(|old(asks)|));
        (outcome.Done? <==> plan.Some? && AllSent(transmit, |old(sent)|, |plan.value.replies|)) &&
        (outcome.Done? ==> sent == old(sent) + plan.value.replies && asks == old(asks) + plan.value.asks)
      ensures old(sent) <= sent
    {
      if !item.Line? || item.text == "h" {
        return Done;
      }
      var message := parse(item.text);
      if message.None? {
        return Panicked;
      }
      outcome := ProcessCommand(message.value, ask, transmit);
    }

    /** `process_command`: dispatch on `kind`, then one `success` or `error`. */
    method ProcessCommand(message: Json, ask: nat -> Option<Json>, transmit: nat -> bool) returns (outcome: Outcome)
      modifies this
      ensures var plan := CommandPlan(message, ask(|old(asks)|));
        (outcome.Done? <==> plan.Some? && AllSent(transmit, |old(sent)|, |plan.value.replies|)) &&
        (outcome.Done? ==> sent == old(sent) + plan.value.replies && asks == old(asks) + plan.value.asks)
      ensures old(sent) <= sent
    {
      var kind := KindOf(message);
      if kind.None? {
        return Panicked;
      }
      if kind.value == "getTimeEntries" {
        outcome := ServeTimeEntries(message, ask, transmit);
      } else {
        outcome := ServeForwarded(message, ask, transmit);
      }
    }

    /** `process_command` for `getTimeEntries`: the entries, then the verdict. */
    method ServeTimeEntries(message: Json, ask: nat -> Option<Json>, transmit: nat -> bool) returns (outcome: Outcome)
      requires KindOf(message) == Some("getTimeEntries")
      modifies this
      ensures var plan := CommandPlan(message, ask(|old(asks)|));
        (outcome.Done? <==> plan.Some? && AllSent(transmit, |old(sent)|, |plan.value.replies|)) &&
        (outcome.Done? ==> sent == old(sent) + plan.value.replies && asks == old(asks) + plan.value.asks)
      ensures old(sent) <= sent
    {
      assert CommandAsk(message) == Some(GetTimeEntries);
      var result := SendTimeEntries(ask, transmit);
      if result.HandlerPanic? {
        return Panicked;
      }
      outcome := SendMessage(if result.HandlerOk? then SUCCESS else ERROR, transmit);
    }

    /** `process_command` for the other kinds: one forwarded ask, then the verdict. */
    method ServeForwarded(message: Json, ask: nat -> Option<Json>, transmit: nat -> bool) returns (outcome: Outcome)
      requires KindOf(message).Some? && KindOf(message) != Some("getTimeEntries")
      modifies this
      ensures var plan := CommandPlan(message, ask(|old(asks)|));
        (outcome.Done? <==> plan.Some? && AllSent(transmit, |old(sent)|, |plan.value.replies|)) &&
        (outcome.Done? ==> sent == old(sent) + plan.value.replies && asks == old(asks) + plan.value.asks)
      ensures old(sent) <= sent
    {
      var kind := KindOf(message).value;
      var result: HandlerResult;
      if kind == "startTimeEntry" || kind == "adjustTime" {
        var request := CommandAsk(message);
        if request.None? {
          return Panicked;
        }
        result := Forward(request.value, ask);
      } else if kind == "stopTimeEntry" {
        result := Forward(StopTimeEntry, ask);
      } else if kind == "continueTimeEntry" {
        result := Forward(ContinueTimeEntry, ask);
      } else {
        return Panicked;
      }
      outcome := SendMessage(if result.HandlerOk? then SUCCESS else ERROR, transmit);
    }

    /** The handlers other than `send_time_entries`: one ask, `Err` when it fails. */
    method Forward(request: Ask, ask: nat -> Option<Json>) returns (result: HandlerResult)
      modifies this
      ensures asks == old(asks) + [request] && sent == old(sent)
      ensures result.HandlerOk? <==> ask(|old(asks)|).Some?
      ensures !result.HandlerPanic?
    {
      var answer := ask(|asks|);
      asks := asks + [request];
      result := if answer.Some? then HandlerOk else HandlerErr;
    }

    /**
     * `send_time_entries`: ask for the entries and send one `timeEntry`
     * per element of the array, in order; the array and each description
     * are unwrapped.
     */
    method SendTimeEntries(ask: nat -> Option<Json>, transmit: nat -> bool) returns (result: HandlerResult)
      modifies this
      ensures asks == old(asks) + [GetTimeEntries]
      ensures ask(|old(asks)|).None? ==> result.HandlerErr? && sent == old(sent)
      ensures ask(|old(asks)|).Some? ==> !result.HandlerErr?
      ensures var answer := ask(|old(asks)|);
        answer.Some? && AsArray(answer.value).Some? ==>
          var expected := EntryReplies(AsArray(answer.value).value);
          (result.HandlerOk? <==> expected.Some? && AllSent(transmit, |old(sent)|, |expected.value|)) &&
          (result.HandlerOk? ==> sent == old(sent) + expected.value)
      ensures var answer := ask(|old(asks)|);
        answer.Some? && AsArray(answer.value).None? ==> result.HandlerPanic? && sent == old(sent)
      ensures old(sent) <= sent
    {
      var answer := ask(|asks|);
      asks := asks + [GetTimeEntries];
      if answer.None? {
        return HandlerErr;
      }
      var listed := AsArray(answer.value);
      if listed.None? {
        return HandlerPanic;
      }
      var ok := SendEntries(listed.value, transmit);
      result := if ok then HandlerOk else HandlerPanic;
    }

    /** The loop of `send_time_entries`; false when it panics part-way. */
    method SendEntries(entries: seq<Json>, transmit: nat -> bool) returns (ok: bool)
      modifies this
      ensures var expected := EntryReplies(entries);
        (ok <==> expected.Some? && AllSent(transmit, |old(sent)|, |expected.value|)) &&
        (ok ==> sent == old(sent) + expected.value)
      ensures old(sent) <= sent && asks == old(asks)
    {
      for i := 0 to |entries|
        invariant EntryReplies(entries[..i]).Some?
        invariant sent == old(sent) + EntryReplies(entries[..i]).value
        invariant |sent| == |old(sent)| + i
        invariant AllSent(transmit, |old(sent)|, i)
        invariant asks == old(asks)
      {
        var sentOne := SendEntry(entries[i], transmit);
        if !sentOne {
          SendStopsAt(entries, transmit, |old(sent)|, i);
          return false;
        }
        AllSentExtends(transmit, |old(sent)|, i);
        EntryRepliesStep(entries, i);
        assert sent == old(sent) + EntryReplies(entries[..i + 1]).value;
      }
      assert entries[..|entries|] == entries;
      ok := true;
    }

    /** One turn of that loop: the entry's description, unwrapped, sent as a `timeEntry` message. */
    method SendEntry(entry: Json, transmit: nat -> bool) returns (ok: bool)
      modifies this
      ensures ok <==> Description(entry).Some? && transmit(|old(sent)|)
      ensures ok ==> sent == old(sent) + [TimeEntryMessage(Description(entry).value)]
      ensures !ok ==> sent == old(sent)
      ensures asks == old(asks)
    {
      var description := Description(entry);
      if description.None? {
        return false;
      }
      var outcome := SendMessage(TimeEntryMessage(description.value), transmit);
      ok := outcome.Done?;
    }

    /** `send_message`: transmit the serialised message, unwrapping the result. */
    method SendMessage(message: Json, transmit: nat -> bool) returns (outcome: Outcome)
      modifies this
      ensures transmit(|old(sent)|) <==> outcome.Done?
      ensures outcome.Done? ==> sent == old(sent) + [message]
      ensures outcome.Panicked? ==> sent == old(sent)
      ensures asks == old(asks)
    {
      if transmit(|sent|) {
        sent := sent + [message];
        outcome := Done;
      } else {
        outcome := Panicked;
      }
    }
  }
}
