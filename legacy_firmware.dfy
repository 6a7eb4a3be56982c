/**
 * The first macro pad program (`code.py` at the top of the repository):
 * the same line protocol and state machine as the later one, with four
 * command keys, no shift, no slider or joystick, and no heartbeat.
 *
 * Each pass of a handler's loop is a `Poll`: the clock (`time.time()`),
 * the text the port returned, the next key event and the encoder. A
 * handler is given the polls of its passes; one whose loop has not
 * returned when they run out is still running, and a wait reaches its
 * deadline on its last poll.
 */
module LegacyFirmware {
  import opened Common
  import opened Json
  import opened Serial
  import opened PadProtocol
  import opened PadFirmware

  const SLEEP_AFTER: int := 3
  const ROW_HEIGHT: int := 15
  const PAGE_HEIGHT: int := 60

  /** The names `state_handlers` knows; any other name raises KeyError. */
  const HANDLERS: set<Handler> := {Sleep, GetTimeEntries, DrawOptions, Command, AdjustTime, SendStart, SendStop, SendAdjustTime}

  /** What the hardware reports on one pass of a handler's loop. */
  datatype Poll = Poll(now: int, chunk: string, key: Option<KeyEvent>, encoder: int)

  /** What a handler did: returned its result dict, is still looping, or raised. */
  datatype Handled = Returned(update: Update) | StillRunning | Raised

  function Chunks(polls: seq<Poll>): (chunks: seq<string>)
    ensures |chunks| == |polls|
    ensures forall k :: 0 <= k < |polls| ==> chunks[k] == polls[k].chunk
  {
    seq(|polls|, k requires 0 <= k < |polls| => polls[k].chunk)
  }

  /** Where a pressed key leads from `command`: keys 0 to 3, and nothing else. */
  function CommandTarget(event: Option<KeyEvent>): (r: Option<Handler>)
    ensures r.Some? <==> event.Some? && event.value.pressed && event.value.key < 4
    ensures r.Some? ==> r.value in {GetTimeEntries, SendStop, SendStart, AdjustTime}
  {
    if Pressed(event, 2) then Some(SendStart)
    else if Pressed(event, 1) then Some(SendStop)
    else if Pressed(event, 0) then Some(GetTimeEntries)
    else if Pressed(event, 3) then Some(AdjustTime)
    else None
  }

  /** The selected option's row is on screen: one of the four rows of its page. */
  lemma SelectedRowVisible(index: nat)
    ensures 0 <= index * ROW_HEIGHT + PageOffset(index, PAGE_HEIGHT) <= 3 * ROW_HEIGHT
  {
    assert index == 4 * (index / 4) + index % 4;
  }

  /** Whether a pass of `sleep` wakes the pad: it peeks a key event or an encoder step. */
  function Wakes(queue: seq<KeyEvent>, lastEncoder: int, p: Poll): (wakes: bool)
    ensures wakes <==> |queue| > 0 || p.key.Some? || p.encoder != lastEncoder
  {
    TakeKeyEvent(queue, true, p.key).event.Some? || p.encoder != lastEncoder
  }

  // ---------------------------------------------------------------------
  // The empty answer, as written
  // ---------------------------------------------------------------------

  /**
   * `get_time_entries` as this program writes it: `sorted(set(entries))`
   * with no blank option added when there are no entries. It raises and
   * fails exactly where the later program does, and it differs from the
   * later program only in offering no option at all when no entry came.
   */
  function EntriesResultAsWritten(collected: Collected): (r: Option<Update>)
    ensures r.None? <==> EntriesResult(collected).None?
    ensures r.Some? ==> r.value.adjustMinutes.None? && r.value.name in {DrawOptions, Command}
    ensures r.Some? ==> (r.value.name == DrawOptions <==> r.value.options.Some?)
    ensures r.Some? ==> (r.value.options.Some? <==> r.value.selected == Some(0))
    ensures r.Some? ==> (r.value.options.None? ==> r.value.selected.None?)
    ensures r.Some? && r.value.options.Some? ==>
      StrictlySorted(r.value.options.value) &&
      (forall name :: name in r.value.options.value <==> name in collected.entries)
    ensures r.Some? && r.value.options.Some? ==> (r.value.options.value == [] <==> collected.entries == [])
    ensures r.Some? && collected.entries != [] ==> r == EntriesResult(collected)
    ensures r.Some? && r.value.options.Some? && collected.entries == [] ==>
      r.value.options == Some([]) && EntriesResult(collected).value.options == Some([""])
  {
    SortedDistinctIsSortedSet(collected.entries);
    OptionsOfEntries(collected.entries);
    assert |collected.entries| > 0 ==> collected.entries[0] in SortedDistinct(collected.entries);
    if collected.raised then None
    else
      match ReplyVerdict(collected.last)
        case Crashed => None
        case Failed => Some(Update(Command, None, None, None))
        case Succeeded => Some(Update(DrawOptions, Some(SortedDistinct(collected.entries)), Some(0), None))
  }

  /** `(selected + diff) % len(options)`: None where Python raises ZeroDivisionError. */
  function NextSelectionAsWritten(selected: int, diff: int, count: int): (r: Option<int>)
    ensures r.None? <==> count <= 0
    ensures r.Some? ==> 0 <= r.value < count
  {
    if count <= 0 then None else Some(Wrap(selected + diff, count))
  }

  /**
   * As written, a desk with no time entries answers `getTimeEntries` with
   * `success` alone; the program then stores an empty option list with
   * option 0 selected, and the next pass of `command` divides by zero.
   */
  lemma EmptyAnswerCrashesAsWritten(line: string, state: UiState, parse: string -> Option<Json>)
    requires '\n' !in line && parse(line) == Some(SUCCESS)
    ensures var update := EntriesResultAsWritten(Collect("", [line + "\n"], parse, []));
      update.Some? && update.value.options == Some([]) &&
      !Consistent(Merge(state, update.value)) &&
      NextSelectionAsWritten(Merge(state, update.value).selected, 0, |Merge(state, update.value).options|).None?
  {
    assert EntryReplyLines([], [line], [line + "\n"], parse);
    CollectReadsEntryReplies([], [], [line], [line + "\n"], parse);
  }

  /**
   * With the blank option the later program adds, the same answer leaves
   * one blank option selected, and `command` can go on.
   */
  lemma EmptyAnswerOffersBlank(line: string, state: UiState, parse: string -> Option<Json>)
    requires '\n' !in line && parse(line) == Some(SUCCESS) && Consistent(state)
    ensures var update := EntriesResult(Collect("", [line + "\n"], parse, []));
      update.Some? && update.value.options == Some([""]) &&
      Consistent(Merge(state, update.value)) &&
      NextSelectionAsWritten(Merge(state, update.value).selected, 0, |Merge(state, update.value).options|) == Some(0)
  {
    assert EntryReplyLines([], [line], [line + "\n"], parse);
    CollectReadsEntryReplies([], [], [line], [line + "\n"], parse);
    OptionsOfEntries([]);
  }

  // ---------------------------------------------------------------------
  // The program
  // ---------------------------------------------------------------------

  /**
   * The states this program's main loop reaches: consistent ones, and the
   * empty option list a bare `success` leaves behind. With no options only
   * `draw_options`, `command` and `sleep` run, until the first awake pass
   * of `command` raises ZeroDivisionError.
   */
  predicate Reachable(state: UiState)
  {
    Consistent(state) ||
    (state.options == [] && state.selected == 0 && state.name in {DrawOptions, Command, Sleep} &&
     (state.adjustMinutes.Some? ==> -MAX_ADJUSTMENT <= state.adjustMinutes.value <= MAX_ADJUSTMENT))
  }

  /** What one pass of `command` leaves: the selection, its outcome, and the reader state. */
  datatype CommandStepped = CommandStepped(next: int, outcome: Handled, queue: seq<KeyEvent>,
                                           lastEncoder: int, lastActivity: int)

  /**
   * One pass of `command` on values: more than 3 seconds after the last
   * activity it returns to `sleep` with the selection and reads nothing;
   * otherwise it takes a key event and the encoder's turn (either one is
   * activity), raises when there are no options to take the turn modulo,
   * and otherwise moves the selection around the list and leaves for the
   * key's target.
   */
  function CommandStep(count: int, selected: int, queue: seq<KeyEvent>, lastEncoder: int, lastActivity: int,
                       p: Poll): (r: CommandStepped)
    requires count > 0 ==> 0 <= selected < count
    ensures count > 0 ==> 0 <= r.next < count
    ensures count <= 0 ==> r.next == selected
    ensures r.outcome.Raised? <==> count <= 0 && p.now - lastActivity <= SLEEP_AFTER
    ensures r.outcome.Returned? ==>
      r.outcome.update.options.None? && r.outcome.update.selected == Some(r.next) &&
      r.outcome.update.adjustMinutes.None? && r.outcome.update.name != SendAdjustTime
  {
    if p.now - lastActivity > SLEEP_AFTER then
      CommandStepped(selected, Returned(Update(Sleep, None, Some(selected), None)), queue, lastEncoder, lastActivity)
    else
      var taken := TakeKeyEvent(queue, false, p.key);
      var activity := if taken.event.Some? || p.encoder != lastEncoder then p.now else lastActivity;
      var wrapped := NextSelectionAsWritten(selected, p.encoder - lastEncoder, count);
      if wrapped.None? then CommandStepped(selected, Raised, taken.queue, p.encoder, activity)
      else
        var target := CommandTarget(taken.event);
        CommandStepped(wrapped.value,
                       if target.Some? then Returned(Update(target.value, None, Some(wrapped.value), None)) else StillRunning,
                       taken.queue, p.encoder, activity)
  }

  /**
   * `command` as a fold over its passes, from the key queue, the stored
   * encoder position and the time of the last activity: the first pass
   * that returns or raises gives the result, and each pass that stays
   * hands on its selection and reader state.
   */
  function CommandRun(count: int, selected: int, queue: seq<KeyEvent>, lastEncoder: int, lastActivity: int,
                      polls: seq<Poll>): (r: Handled)
    requires count > 0 ==> 0 <= selected < count
    ensures r.Raised? ==> count <= 0
    ensures r.Returned? ==>
      r.update.options.None? && r.update.selected.Some? && r.update.adjustMinutes.None? &&
      r.update.name != SendAdjustTime && (count > 0 ==> 0 <= r.update.selected.value < count)
    ensures count <= 0 && r.Returned? ==> r.update == Update(Sleep, None, Some(selected), None)
    ensures polls == [] ==> r.StillRunning?
    decreases |polls|
  {
    if polls == [] then StillRunning
    else
      var step := CommandStep(count, selected, queue, lastEncoder, lastActivity, polls[0]);
      if !step.outcome.StillRunning? then step.outcome
      else CommandRun(count, step.next, step.queue, step.lastEncoder, step.lastActivity, polls[1..])
  }

  /**
   * `adjust_time` as a fold over its passes, from the key queue and the
   * stored encoder position: each pass adds the encoder's turn to the
   * minutes, clamped to 45 either way, and the first press of key 2
   * returns the adjustment and of key 1 the cancel. The second component
   * is the minutes after the last pass run.
   */
  function AdjustRun(minutes: int, queue: seq<KeyEvent>, lastEncoder: int, polls: seq<Poll>): (r: (Handled, int))
    requires -MAX_ADJUSTMENT <= minutes <= MAX_ADJUSTMENT
    ensures -MAX_ADJUSTMENT <= r.1 <= MAX_ADJUSTMENT
    ensures !r.0.Raised?
    ensures r.0.Returned? ==>
      r.0.update == Update(SendAdjustTime, None, None, Some(r.1)) || r.0.update == Update(Command, None, None, None)
    ensures polls == [] ==> r == (StillRunning, minutes)
    decreases |polls|
  {
    if polls == [] then (StillRunning, minutes)
    else
      var p := polls[0];
      var taken := TakeKeyEvent(queue, false, p.key);
      var next := ClampMinutes(minutes + (p.encoder - lastEncoder));
      var leave := AdjustTarget(taken.event, next);
      if leave.Some? then (Returned(leave.value), next)
      else AdjustRun(next, taken.queue, p.encoder, polls[1..])
  }

  /**
   * With no key event queued, `adjust_time` keeps running exactly when
   * none of its passes reads a press of key 1 or key 2.
   */
  lemma {:induction false} AdjustRunWaitsForKey(minutes: int, lastEncoder: int, polls: seq<Poll>)
    requires -MAX_ADJUSTMENT <= minutes <= MAX_ADJUSTMENT
    ensures AdjustRun(minutes, [], lastEncoder, polls).0.StillRunning? <==>
      forall i :: 0 <= i < |polls| ==> !Pressed(polls[i].key, 1) && !Pressed(polls[i].key, 2)
    decreases |polls|
  {
    if polls != [] {
      var next := ClampMinutes(minutes + (polls[0].encoder - lastEncoder));
      assert TakeKeyEvent([], false, polls[0].key) == Taken(polls[0].key, []);
      AdjustRunWaitsForKey(next, polls[0].encoder, polls[1..]);
      assert forall i :: 1 <= i < |polls| ==> polls[1..][i - 1] == polls[i];
    }
  }

  class LegacyPad {
    var messageBuffer: string
    var keyEvents: seq<KeyEvent>
    var lastEncoder: int
    var lastActivity: int
    /** Everything written to the data port, in order. */
    var written: seq<byte>

    /** At most one peeked event waits in the queue. */
    predicate Valid()
      reads this
    {
      |keyEvents| <= 1
    }

    /** The program's start: globals from the first readings. */
    constructor(p: Poll)
      ensures Valid()
      ensures messageBuffer == "" && keyEvents == [] && lastEncoder == p.encoder
      ensures lastActivity == p.now && written == []
    {
      messageBuffer := "";
      keyEvents := [];
      lastEncoder := p.encoder;
      lastActivity := p.now;
      written := [];
    }

    /** `get_message`. */
    method GetMessage(chunk: string, parse: string -> Option<Json>) returns (message: Option<Json>)
      modifies this`messageBuffer
      ensures var r := Receive(old(messageBuffer), chunk, parse);
        messageBuffer == r.buffer && message == r.message
    {
      var text := messageBuffer + chunk;
      var index := LineBreak(text);
      if index.None? {
        messageBuffer := text;
        return None;
      }
      messageBuffer := text[index.value + 1..];
      message := parse(text[..index.value]);
    }

    /** `get_key_event(peek)`: every event returned is activity. */
    method GetKeyEvent(peek: bool, hardware: Option<KeyEvent>, now: int) returns (event: Option<KeyEvent>)
      requires Valid()
      modifies this`keyEvents, this`lastActivity
      ensures Valid()
      ensures var taken := TakeKeyEvent(old(keyEvents), peek, hardware);
        event == taken.event && keyEvents == taken.queue
      ensures lastActivity == if event.Some? then now else old(lastActivity)
    {
      if |keyEvents| > 0 {
        event := Some(keyEvents[0]);
        keyEvents := keyEvents[1..];
      } else {
        event := hardware;
      }
      if event.Some? {
        lastActivity := now;
        if peek {
          keyEvents := keyEvents + [event.value];
        }
      }
    }

    /** `get_encoder_diff(peek)`: a peek leaves the stored position alone. */
    method GetEncoderDiff(peek: bool, encoder: int, now: int) returns (diff: int)
      modifies this`lastEncoder, this`lastActivity
      ensures diff == encoder - old(lastEncoder)
      ensures lastEncoder == if peek then old(lastEncoder) else encoder
      ensures lastActivity == if diff != 0 then now else old(lastActivity)
    {
      diff := encoder - lastEncoder;
      if diff != 0 {
        lastActivity := now;
      }
      if !peek {
        lastEncoder := encoder;
      }
    }

    /** `send_message`: the serialised message and a newline. */
    method SendMessage(message: Json, dump: Json -> seq<byte>)
      modifies this`written
      ensures written == old(written) + Framed(dump(message))
    {
      written := written + dump(message) + [NEWLINE];
    }

    /** `wait_for_reply_animated`: poll until a message arrives or the deadline passes. */
    method WaitForReply(chunks: seq<string>, parse: string -> Option<Json>) returns (message: Option<Json>)
      requires |chunks| > 0
      modifies this`messageBuffer
      ensures var r := Await(old(messageBuffer), chunks, parse);
        message == r.message && messageBuffer == r.buffer
    {
      var i := 0;
      while true
        invariant 0 <= i < |chunks|
        invariant Await(messageBuffer, chunks[i..], parse) == Await(old(messageBuffer), chunks, parse)
        decreases |chunks| - i
      {
        ghost var rest := chunks[i..];
        ghost var step := Receive(messageBuffer, chunks[i], parse);
        assert rest[0] == chunks[i] && rest[1..] == chunks[i + 1..];
        assert Await(messageBuffer, rest, parse) ==
          if step.message.Some? || |rest| == 1 then step else Await(step.buffer, chunks[i + 1..], parse);
        message := GetMessage(chunks[i], parse);
        if message.Some? || i == |chunks| - 1 {
          return;
        }
        i := i + 1;
      }
    }

    /**
     * `sleep`: peek at the keys and the encoder until a key event or an
     * encoder step; the event stays queued for `command` and the stored
     * encoder position is unchanged.
     */
    method SleepHandler(polls: seq<Poll>) returns (result: Handled, passes: nat)
      requires Valid()
      modifies this`keyEvents, this`lastActivity, this`lastEncoder
      ensures Valid() && lastEncoder == old(lastEncoder)
      ensures passes <= |polls|
      ensures forall k :: 0 <= k < passes - 1 ==> !Wakes(old(keyEvents), old(lastEncoder), polls[k])
      ensures result.Returned? <==>
        exists k :: 0 <= k < |polls| && Wakes(old(keyEvents), old(lastEncoder), polls[k])
      ensures result.Returned? ==>
        passes > 0 && result.update == Update(Command, None, None, None) &&
        Wakes(old(keyEvents), old(lastEncoder), polls[passes - 1]) &&
        keyEvents == TakeKeyEvent(old(keyEvents), true, polls[passes - 1].key).queue &&
        lastActivity == polls[passes - 1].now
      ensures !result.Returned? ==>
        result.StillRunning? && passes == |polls| &&
        keyEvents == old(keyEvents) && lastActivity == old(lastActivity)
    {
      passes := 0;
      while passes < |polls|
        invariant Valid() && passes <= |polls|
        invariant lastEncoder == old(lastEncoder) && keyEvents == old(keyEvents) && lastActivity == old(lastActivity)
        invariant forall k :: 0 <= k < passes ==> !Wakes(old(keyEvents), old(lastEncoder), polls[k])
      {
        var event := GetKeyEvent(true, polls[passes].key, polls[passes].now);
        var diff := GetEncoderDiff(true, polls[passes].encoder, polls[passes].now);
        passes := passes + 1;
        if event.Some? || diff != 0 {
          return Returned(Update(Command, None, None, None)), passes;
        }
      }
      result := StillRunning;
    }

    /**
     * One pass of `command`: go to sleep after 3 idle seconds; otherwise
     * drain one message, read a key and the encoder, move the selection
     * (raising ZeroDivisionError when there are no options) and leave on a
     * command key.
     */
    method CommandPass(options: seq<string>, selected: int, p: Poll, parse: string -> Option<Json>)
      returns (next: int, outcome: Handled)
      requires Valid() && (|options| > 0 ==> 0 <= selected < |options|)
      modifies this`messageBuffer, this`keyEvents, this`lastActivity, this`lastEncoder
      ensures Valid()
      ensures |options| > 0 ==> 0 <= next < |options|
      ensures |options| == 0 ==> next == selected
      ensures outcome.Raised? <==> |options| == 0 && p.now - old(lastActivity) <= SLEEP_AFTER
      ensures outcome.Returned? ==>
        outcome.update.options.None? && outcome.update.selected == Some(next) &&
        outcome.update.adjustMinutes.None? && outcome.update.name != SendAdjustTime
      ensures p.now - old(lastActivity) > SLEEP_AFTER ==>
        next == selected && outcome == Returned(Update(Sleep, None, Some(selected), None)) &&
        keyEvents == old(keyEvents) && messageBuffer == old(messageBuffer)
      ensures p.now - old(lastActivity) <= SLEEP_AFTER ==>
        var taken := TakeKeyEvent(old(keyEvents), false, p.key);
        messageBuffer == Receive(old(messageBuffer), p.chunk, parse).buffer &&
        keyEvents == taken.queue && lastEncoder == p.encoder &&
        (|options| > 0 ==>
          next == Wrap(selected + p.encoder - old(lastEncoder), |options|) &&
          (outcome.Returned? <==> CommandTarget(taken.event).Some?) &&
          (outcome.Returned? ==> outcome.update.name == CommandTarget(taken.event).value))
      ensures CommandStep(|options|, selected, old(keyEvents), old(lastEncoder), old(lastActivity), p) ==
        CommandStepped(next, outcome, keyEvents, lastEncoder, lastActivity)
    {
      if p.now - lastActivity > SLEEP_AFTER {
        return selected, Returned(Update(Sleep, None, Some(selected), None));
      }
      var _ := GetMessage(p.chunk, parse);
      var event := GetKeyEvent(false, p.key, p.now);
      var diff := GetEncoderDiff(false, p.encoder, p.now);
      var wrapped := NextSelectionAsWritten(selected, diff, |options|);
      if wrapped.None? {
        return selected, Raised;
      }
      next := wrapped.value;
      var target := CommandTarget(event);
      outcome := if target.Some? then Returned(Update(target.value, None, Some(next), None)) else StillRunning;
    }

    /**
     * `command`: passes until one returns. With options, the selection
     * stays an index of them; with none, the loop goes to sleep or its
     * first awake pass raises.
     */
    method CommandHandler(state: UiState, polls: seq<Poll>, parse: string -> Option<Json>) returns (result: Handled)
      requires Valid() && Reachable(state)
      modifies this`messageBuffer, this`keyEvents, this`lastActivity, this`lastEncoder
      ensures Valid()
      ensures result.Returned? ==> Reachable(Merge(state, result.update))
      ensures result.Raised? ==> state.options == []
      ensures state.options == [] && |polls| > 0 && polls[0].now - old(lastActivity) <= SLEEP_AFTER ==>
        result.Raised?
      ensures state.options == [] && result.Returned? ==>
        result.update == Update(Sleep, None, Some(state.selected), None)
      ensures result == CommandRun(|state.options|, state.selected, old(keyEvents), old(lastEncoder),
                                   old(lastActivity), polls)
    {
      ghost var run := CommandRun(|state.options|, state.selected, old(keyEvents), old(lastEncoder),
                                  old(lastActivity), polls);
      var selected := state.selected;
      result := StillRunning;
      for i := 0 to |polls|
        invariant Valid() && (|state.options| > 0 ==> 0 <= selected < |state.options|)
        invariant state.options == [] ==> i == 0 && selected == state.selected
        invariant i == 0 ==> lastActivity == old(lastActivity)
        invariant result.StillRunning?
        invariant run == CommandRun(|state.options|, selected, keyEvents, lastEncoder, lastActivity, polls[i..])
      {
        assert polls[i..][0] == polls[i] && polls[i..][1..] == polls[i + 1..];
        var outcome;
        selected, outcome := CommandPass(state.options, selected, polls[i], parse);
        if !outcome.StillRunning? {
          result := outcome;
          break;
        }
      }
    }

    /** `adjust_time`: from 0, the encoder moves the minutes within ±45 until key 2 sends them or key 1 cancels. */
    method AdjustTimeHandler(polls: seq<Poll>) returns (result: Handled, minutes: int)
      requires Valid()
      modifies this`keyEvents, this`lastActivity, this`lastEncoder
      ensures Valid()
      ensures -MAX_ADJUSTMENT <= minutes <= MAX_ADJUSTMENT
      ensures result.Returned? ==>
        result.update == Update(SendAdjustTime, None, None, Some(minutes)) ||
        result.update == Update(Command, None, None, None)
      ensures !result.Raised?
      ensures (result, minutes) == AdjustRun(0, old(keyEvents), old(lastEncoder), polls)
    {
      minutes := 0;
      for i := 0 to |polls|
        invariant Valid() && -MAX_ADJUSTMENT <= minutes <= MAX_ADJUSTMENT
        invariant AdjustRun(0, old(keyEvents), old(lastEncoder), polls) ==
                  AdjustRun(minutes, keyEvents, lastEncoder, polls[i..])
      {
        assert polls[i..][0] == polls[i] && polls[i..][1..] == polls[i + 1..];
        var event := GetKeyEvent(false, polls[i].key, polls[i].now);
        var diff := GetEncoderDiff(false, polls[i].encoder, polls[i].now);
        minutes := ClampMinutes(minutes + diff);
        var leave := AdjustTarget(event, minutes);
        if leave.Some? {
          return Returned(leave.value), minutes;
        }
      }
      result := StillRunning;
    }

    /**
     * `send_start`, `send_stop` and `send_adjust_time`: write the request,
     * wait for the reply, and go back to `command`; a truthy reply without
     * `kind` raises.
     */
    method SendRequest(name: Handler, state: UiState, polls: seq<Poll>,
                       parse: string -> Option<Json>, dump: Json -> seq<byte>) returns (result: Handled)
      requires name in {SendStart, SendStop, SendAdjustTime} && Consistent(state) && |polls| > 0
      requires name == SendAdjustTime ==> state.adjustMinutes.Some?
      modifies this`messageBuffer, this`written, this`lastActivity
      ensures written == old(written) + Framed(dump(Request(name, state)))
      ensures var reply := Await(old(messageBuffer), Chunks(polls), parse);
        messageBuffer == reply.buffer &&
        (result.Raised? <==> ReplyVerdict(reply.message).Crashed?) &&
        (!result.Raised? ==> result == Returned(Update(Command, None, None, None)))
      ensures !result.StillRunning?
      ensures lastActivity == if result.Raised? then old(lastActivity) else polls[|polls| - 1].now
    {
      SendMessage(Request(name, state), dump);
      var message := WaitForReply(Chunks(polls), parse);
      if ReplyVerdict(message).Crashed? {
        return Raised;
      }
      lastActivity := polls[|polls| - 1].now;
      result := Returned(Update(Command, None, None, None));
    }

    /** One pass of the loop of `get_time_entries`; `final` is the pass that reaches the deadline. */
    method CollectPass(entries: seq<string>, chunk: string, final: bool, parse: string -> Option<Json>)
      returns (step: CollectStep)
      modifies this`messageBuffer
      ensures step == CollectOne(old(messageBuffer), chunk, parse, entries, final)
      ensures messageBuffer == Receive(old(messageBuffer), chunk, parse).buffer
    {
      var message := GetMessage(chunk, parse);
      if message.Some? && Truthy(message.value) {
        var kind := Index(message.value, "kind");
        if kind.None? {
          return Done(Collected(messageBuffer, entries, message, true));
        }
        if kind.value != JString("timeEntry") {
          return Done(Collected(messageBuffer, entries, message, false));
        }
        var entry := Index(message.value, "timeEntry");
        var description := if entry.None? then None else Index(entry.value, "description");
        if description.None? || !description.value.JString? {
          return Done(Collected(messageBuffer, entries, message, true));
        }
        if final {
          return Done(Collected(messageBuffer, entries + [description.value.s], message, false));
        }
        return Continue(messageBuffer, entries + [description.value.s]);
      }
      if final {
        return Done(Collected(messageBuffer, entries, message, false));
      }
      step := Continue(messageBuffer, entries);
    }

    /**
     * `get_time_entries`: ask for the entries, read `timeEntry` messages
     * until another message or the deadline, and offer the sorted distinct
     * descriptions after a `success`; when none came, that is no option at
     * all.
     */
    method GetTimeEntriesHandler(polls: seq<Poll>, parse: string -> Option<Json>, dump: Json -> seq<byte>)
      returns (result: Handled)
      requires |polls| > 0
      modifies this`messageBuffer, this`written, this`lastActivity
      ensures written == old(written) + Framed(dump(GET_TIME_ENTRIES))
      ensures var collected := Collect(old(messageBuffer), Chunks(polls), parse, []);
        messageBuffer == collected.buffer &&
        (result.Raised? <==> EntriesResultAsWritten(collected).None?) &&
        (!result.Raised? ==> result == Returned(EntriesResultAsWritten(collected).value))
      ensures !result.StillRunning?
      ensures lastActivity == if result.Raised? then old(lastActivity) else polls[|polls| - 1].now
    {
      SendMessage(GET_TIME_ENTRIES, dump);
      var chunks := Chunks(polls);
      var entries: seq<string> := [];
      var i := 0;
      var collected: Collected;
      while true
        invariant 0 <= i < |chunks|
        invariant Collect(messageBuffer, chunks[i..], parse, entries) == Collect(old(messageBuffer), chunks, parse, [])
        invariant written == old(written) + Framed(dump(GET_TIME_ENTRIES))
        invariant lastActivity == old(lastActivity)
        decreases |chunks| - i
      {
        assert chunks[i..][0] == chunks[i] && chunks[i..][1..] == chunks[i + 1..];
        CollectSteps(messageBuffer, chunks[i..], parse, entries);
        var step := CollectPass(entries, chunks[i], i == |chunks| - 1, parse);
        if step.Done? {
          collected := step.collected;
          break;
        }
        entries := step.entries;
        i := i + 1;
      }
      var outcome := EntriesResultAsWritten(collected);
      if outcome.None? {
        return Raised;
      }
      lastActivity := polls[|polls| - 1].now;
      result := Returned(outcome.value);
    }

    /**
     * One turn of the main loop: run the current state's handler and merge
     * its result over the state, which stays one the loop can reach.
     */
    method RunHandler(state: UiState, polls: seq<Poll>,
                      parse: string -> Option<Json>, dump: Json -> seq<byte>) returns (result: Handled, next: UiState)
      requires Valid() && Reachable(state) && |polls| > 0
      modifies this
      ensures Valid() && Reachable(next)
      ensures !(state.name in HANDLERS) ==> result.Raised?
      ensures result.Returned? ==> next == Merge(state, result.update)
      ensures !result.Returned? ==> next == state
    {
      result := Dispatch(state, polls, parse, dump);
      if result.Returned? {
        next := Merge(state, result.update);
      } else {
        next := state;
      }
    }

    /**
     * The handler of the current state, run on the polls of its passes;
     * merged over the state, what it returns gives a state the loop can
     * reach. A handler the first version does not know raises, and so does
     * `command` with no options once awake.
     */
    method Dispatch(state: UiState, polls: seq<Poll>,
                    parse: string -> Option<Json>, dump: Json -> seq<byte>) returns (result: Handled)
      requires Valid() && Reachable(state) && |polls| > 0
      modifies this
      ensures Valid()
      ensures !(state.name in HANDLERS) ==> result.Raised?
      ensures result.Returned? ==> Reachable(Merge(state, result.update))
      ensures state.name == Command && state.options == [] && polls[0].now - old(lastActivity) <= SLEEP_AFTER ==>
        result.Raised?
    {
      match state.name {
        case Sleep =>
          var passes;
          result, passes := SleepHandler(polls);
        case GetTimeEntries =>
          result := GetTimeEntriesHandler(polls, parse, dump);
        case DrawOptions =>
          result := Returned(Update(Command, None, None, None));
        case Command =>
          result := CommandHandler(state, polls, parse);
        case _ =>
          result := DispatchRest(state, polls, parse, dump);
          if result.Returned? {
            MergeKeepsConsistent(state, result.update);
          }
      }
    }

    /** `Dispatch` for the time adjustment, the three requests and the handlers the first version lacks. */
    method DispatchRest(state: UiState, polls: seq<Poll>,
                        parse: string -> Option<Json>, dump: Json -> seq<byte>) returns (result: Handled)
      requires Valid() && Consistent(state) && |polls| > 0
      requires !(state.name in {Sleep, GetTimeEntries, DrawOptions, Command})
      modifies this
      ensures Valid()
      ensures !(state.name in HANDLERS) ==> result.Raised?
      ensures result.Returned? ==> Fits(state, result.update)
    {
      if state.name == AdjustTime {
        var minutes;
        result, minutes := AdjustTimeHandler(polls);
      } else if state.name in {SendStart, SendStop, SendAdjustTime} {
        result := SendRequest(state.name, state, polls, parse, dump);
      } else {
        result := Raised;
      }
    }

    /**
     * The main loop from its initial state, one handler turn per batch of
     * polls, until a handler raises or is still running; every state it
     * passes through is one `Reachable` describes.
     */
    method Run(turns: seq<seq<Poll>>, parse: string -> Option<Json>, dump: Json -> seq<byte>)
      returns (state: UiState)
      requires Valid()
      requires forall t :: 0 <= t < |turns| ==> |turns[t]| > 0
      modifies this
      ensures Valid() && Reachable(state)
    {
      InitialStateConsistent();
      state := INITIAL_STATE;
      for t := 0 to |turns|
        invariant Valid() && Reachable(state)
      {
        var result;
        result, state := RunHandler(state, turns[t], parse, dump);
        if !result.Returned? {
          return;
        }
      }
    }
  }
}
