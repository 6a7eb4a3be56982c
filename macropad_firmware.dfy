/**
 * The macro pad's CircuitPython program (`macropad/code.py`): the data
 * port reader, the key, encoder, potentiometer and joystick readers (which
 * can peek without consuming), the shorthand lines it writes for the
 * potentiometer and the joystick, and the handlers of its main loop.
 *
 * Each pass of a handler's loop reads the hardware once; a `Sample` is what
 * that pass sees: the clock (`time.time()`, whole seconds, one reading
 * per pass), the chunk of text the port returned, the next key event, and
 * the encoder, slider and joystick readings. A handler is given the
 * samples of its passes; one whose loop has not returned when they run out
 * is still running. The clock reaches a wait's deadline on its last sample.
 */
module MacroPadFirmware {
  import opened Common
  import opened Json
  import opened Serial
  import opened PadProtocol
  import opened PadFirmware
  import DeskMacroPad
  import MacroPadActor

  /** Seconds without activity before `command` goes to `sleep`. */
  const SLEEP_AFTER: int := 3
  /** A slider move larger than this wakes the pad ... */
  const WAKE_POTENTIOMETER: int := 5
  /** ... and one larger than this counts as activity. */
  const ACTIVE_POTENTIOMETER: int := 10
  const AXIS_CENTRE: int := 32768
  const DEADZONE: int := 4000
  const ROW_HEIGHT: int := 16
  const PAGE_HEIGHT: int := 64
  const UP_KEY: KeyNumber := 8
  const SHIFT_KEY: KeyNumber := 9
  const DOWN_KEY: KeyNumber := 11

  /** What the hardware reports on one pass of a handler's loop. */
  datatype Sample = Sample(
    now: int,
    chunk: string,
    key: Option<KeyEvent>,
    encoder: int,
    potentiometer: int,
    xRaw: int,
    yRaw: int)

  /** The text the port returned on each pass. */
  function Chunks(samples: seq<Sample>): (chunks: seq<string>)
    ensures |chunks| == |samples|
    ensures forall k :: 0 <= k < |samples| ==> chunks[k] == samples[k].chunk
  {
    seq(|samples|, k requires 0 <= k < |samples| => samples[k].chunk)
  }

  /** What a handler did: returned its result dict, is still looping, or raised. */
  datatype Handled = Returned(update: Update) | StillRunning | Raised

  // ---------------------------------------------------------------------
  // Readings and the lines they produce
  // ---------------------------------------------------------------------

  /** `32768 - raw`, with readings within the dead zone (`abs(value) < 4000`) taken as 0. */
  function AxisValue(raw: int): (value: int)
    ensures value == 0 <==> -DEADZONE < AXIS_CENTRE - raw < DEADZONE
    ensures value != 0 ==> value == AXIS_CENTRE - raw
  {
    var centred := AXIS_CENTRE - raw;
    if -DEADZONE < centred < DEADZONE then 0 else centred
  }

  /**
   * The joystick and slider lines the pad writes read back on the desk
   * host as the values they were written from: the slider reads 0 to 1023
   * and the joystick's converter 0 to 65535.
   */
  lemma PotentiometerLineReachesHost(potentiometer: int, parse: seq<byte> -> Option<Json>)
    requires 0 <= potentiometer < 1024
    ensures IsLine(Shorthand(LETTER_P, potentiometer))
    ensures DeskMacroPad.Classify(Shorthand(LETTER_P, potentiometer), parse) == DeskMacroPad.SetZ(potentiometer)
  {
    DeskMacroPad.PotentiometerRoundTrip(potentiometer, parse);
  }

  /** The same for the joystick: each axis line carries the dead-zoned value. */
  lemma AxisLinesReachHost(xRaw: int, yRaw: int, parse: seq<byte> -> Option<Json>)
    requires 0 <= xRaw < 65536 && 0 <= yRaw < 65536
    ensures IsLine(Shorthand(LETTER_X, AxisValue(xRaw))) && IsLine(Shorthand(LETTER_Y, AxisValue(yRaw)))
    ensures DeskMacroPad.Classify(Shorthand(LETTER_X, AxisValue(xRaw)), parse) == DeskMacroPad.SetX(AxisValue(xRaw))
    ensures DeskMacroPad.Classify(Shorthand(LETTER_Y, AxisValue(yRaw)), parse) == DeskMacroPad.SetY(AxisValue(yRaw))
  {
    DeskMacroPad.AxisRoundTrip(AxisValue(xRaw), parse);
    DeskMacroPad.AxisRoundTrip(AxisValue(yRaw), parse);
  }

  /** The heartbeat the pad writes while asleep is skipped by the desk host. */
  lemma HeartbeatReachesHost(parse: seq<byte> -> Option<Json>)
    ensures IsLine(HEARTBEAT) && DeskMacroPad.Classify(HEARTBEAT, parse) == DeskMacroPad.Heartbeat
  {
    assert HEARTBEAT[..|HEARTBEAT| - 1] == [LETTER_H];
    assert Ascii(HEARTBEAT);
    AsciiIsUtf8(HEARTBEAT);
  }

  function Repeat(line: seq<byte>, count: nat): seq<byte>
  {
    if count == 0 then [] else Repeat(line, count - 1) + line
  }

  // ---------------------------------------------------------------------
  // Menus
  // ---------------------------------------------------------------------

  /**
   * The selection after one pass of `command`: the encoder steps, key 8
   * one back and key 11 one forward, wrapped around the list; with shift
   * (key 9 held) keys 8 and 11 jump to the first and the last option.
   */
  function NextSelection(selected: int, diff: int, event: Option<KeyEvent>, shift: bool, count: int): (r: int)
    requires count > 0
    ensures 0 <= r < count
    ensures Pressed(event, UP_KEY) && shift ==> r == 0
    ensures Pressed(event, DOWN_KEY) && shift ==> r == count - 1
    ensures !Pressed(event, UP_KEY) && !Pressed(event, DOWN_KEY) ==> r == Wrap(selected + diff, count)
  {
    var step := diff + (if Pressed(event, UP_KEY) then -1 else 0) + (if Pressed(event, DOWN_KEY) then 1 else 0);
    var wrapped := Wrap(selected + step, count);
    if Pressed(event, UP_KEY) && shift then 0
    else if Pressed(event, DOWN_KEY) && shift then count - 1
    else wrapped
  }

  /** Key 11 then key 8, without shift or encoder movement, comes back to the same option. */
  lemma DownThenUp(selected: int, count: int, down: KeyEvent, up: KeyEvent)
    requires 0 <= selected < count
    requires down == KeyEvent(DOWN_KEY, true) && up == KeyEvent(UP_KEY, true)
    ensures NextSelection(NextSelection(selected, 0, Some(down), false, count), 0, Some(up), false, count) == selected
  {
    TurnBack(selected, 1, count);
  }

  /** The selected option's row is always on screen: one of the four rows of its page. */
  lemma SelectedRowVisible(index: nat)
    ensures 0 <= index * ROW_HEIGHT + PageOffset(index, PAGE_HEIGHT) <= 3 * ROW_HEIGHT
  {
    assert index == 4 * (index / 4) + index % 4;
  }

  /** Where a pressed key leads from `command`. */
  function CommandTarget(event: Option<KeyEvent>, shift: bool): (r: Option<Handler>)
    ensures r.Some? ==> event.Some? && event.value.pressed
    ensures r == Some(SendContinue) <==> Pressed(event, 2) && shift
    ensures r == Some(SendStart) <==> Pressed(event, 2) && !shift
    ensures r != Some(SendAdjustTime) && r != Some(Sleep) && r != Some(DrawOptions) && r != Some(Command)
    ensures event.Some? && event.value.pressed ==>
      (r.None? <==> event.value.key in {8, 9, 11})
  {
    if event.None? || !event.value.pressed then None
    else
      match event.value.key
        case 0 => Some(GetTimeEntries)
        case 1 => Some(SendStop)
        case 2 => if shift then Some(SendContinue) else Some(SendStart)
        case 3 => Some(AdjustTime)
        case 4 => Some(SendSwitchBoseMac)
        case 5 => Some(SendSwitchBoseFractal)
        case 6 => Some(SendReadInbox)
        case 7 => Some(SendClearInbox)
        case 10 => Some(SendStartClock)
        case _ => None
  }

  /** The line for one reading of a `command` pass: written only when it moved. */
  function MoveLine(diff: int, letter: byte, value: int): (r: seq<byte>)
    ensures r == [] <==> diff == 0
  {
    if diff != 0 then Shorthand(letter, value) else []
  }

  /**
   * The shorthand lines one `command` pass writes: the slider, then the
   * joystick's x and y, each only when it moved from the stored position.
   */
  function PassMoves(last: (int, int, int, int), s: Sample): (r: seq<byte>)
    ensures r == [] <==> s.potentiometer == last.1 && AxisValue(s.xRaw) == last.2 && AxisValue(s.yRaw) == last.3
  {
    MoveLine(s.potentiometer - last.1, LETTER_P, s.potentiometer) +
    MoveLine(AxisValue(s.xRaw) - last.2, LETTER_X, AxisValue(s.xRaw)) +
    MoveLine(AxisValue(s.yRaw) - last.3, LETTER_Y, AxisValue(s.yRaw))
  }

  /** Proof step for `SenseMoves`: the pass's lines regrouped as its writes append them. */
  lemma PassMovesAre(last: (int, int, int, int), s: Sample, p: seq<byte>, x: seq<byte>, y: seq<byte>)
    requires p == MoveLine(s.potentiometer - last.1, LETTER_P, s.potentiometer)
    requires x == MoveLine(AxisValue(s.xRaw) - last.2, LETTER_X, AxisValue(s.xRaw))
    requires y == MoveLine(AxisValue(s.yRaw) - last.3, LETTER_Y, AxisValue(s.yRaw))
    ensures PassMoves(last, s) == p + (x + y)
  {
    AppendAssoc(p, x, y);
  }

  /** One pass of `adjust_time`: ±1 for keys 8 and 11 (±5 with shift) plus the encoder, clamped. */
  function NextMinutes(minutes: int, diff: int, event: Option<KeyEvent>, shift: bool): (r: int)
    ensures -MAX_ADJUSTMENT <= r <= MAX_ADJUSTMENT
  {
    var step :=
      if Pressed(event, UP_KEY) then (if shift then 5 else 1)
      else if Pressed(event, DOWN_KEY) then (if shift then -5 else -1)
      else 0;
    ClampMinutes(minutes + step + diff)
  }

  /** Away from the bounds, key 8 then key 11 with the same shift comes back to the same minutes. */
  lemma UpThenDown(minutes: int, shift: bool)
    requires -MAX_ADJUSTMENT + 5 <= minutes <= MAX_ADJUSTMENT - 5
    ensures NextMinutes(NextMinutes(minutes, 0, Some(KeyEvent(UP_KEY, true)), shift), 0,
                        Some(KeyEvent(DOWN_KEY, true)), shift) == minutes
  {
  }

  // ---------------------------------------------------------------------
  // Requests
  // ---------------------------------------------------------------------

  /**
   * The desk's macro pad actor reads each time-tracking request as the ask
   * the pad meant: the selected description and the adjusted minutes
   * arrive unchanged.
   */
  lemma DeskUnderstandsRequests(state: UiState)
    requires Consistent(state)
    ensures MacroPadActor.CommandAsk(GET_TIME_ENTRIES) == Some(MacroPadActor.GetTimeEntries)
    ensures MacroPadActor.CommandAsk(Request(SendStart, state)) ==
      Some(MacroPadActor.StartTimeEntry(state.options[state.selected]))
    ensures MacroPadActor.CommandAsk(Request(SendStop, state)) == Some(MacroPadActor.StopTimeEntry)
    ensures MacroPadActor.CommandAsk(Request(SendContinue, state)) == Some(MacroPadActor.ContinueTimeEntry)
    ensures state.adjustMinutes.Some? ==>
      MacroPadActor.CommandAsk(Request(SendAdjustTime, state)) ==
        Some(MacroPadActor.AdjustTime(state.adjustMinutes.value))
  {
    KindOnlyHasKind("getTimeEntries");
    KindOnlyHasKind("stopTimeEntry");
    KindOnlyHasKind("continueTimeEntry");
    StartRequestUnderstood(state);
    if state.adjustMinutes.Some? {
      AdjustRequestUnderstood(state);
    }
  }

  lemma StartRequestUnderstood(state: UiState)
    requires Consistent(state)
    ensures MacroPadActor.CommandAsk(Request(SendStart, state)) ==
      Some(MacroPadActor.StartTimeEntry(state.options[state.selected]))
  {
    var start := Request(SendStart, state);
    var entry := Get(start, "timeEntry");
    LookupFirst(start.fields, "kind", 0);
    assert start.fields[0].0 != "timeEntry";
    LookupFirst(start.fields, "timeEntry", 1);
    LookupFirst(entry.fields, "description", 0);
    assert KindOf(start) == Some("startTimeEntry");
    assert AsStr(Get(entry, "description")) == Some(state.options[state.selected]);
  }

  lemma AdjustRequestUnderstood(state: UiState)
    requires Consistent(state) && state.adjustMinutes.Some?
    ensures MacroPadActor.CommandAsk(Request(SendAdjustTime, state)) ==
      Some(MacroPadActor.AdjustTime(state.adjustMinutes.value))
  {
    var adjust := Request(SendAdjustTime, state);
    LookupFirst(adjust.fields, "kind", 0);
    assert adjust.fields[0].0 != "minutes";
    LookupFirst(adjust.fields, "minutes", 1);
    assert KindOf(adjust) == Some("adjustTime");
    assert AsI64(Get(adjust, "minutes")) == Some(state.adjustMinutes.value);
  }

  // ---------------------------------------------------------------------
  // The program
  // ---------------------------------------------------------------------

  /** Whether one pass of the sleep loop wakes the pad, from what it peeked. */
  function Wakes(queue: seq<KeyEvent>, lastEncoder: int, lastPotentiometer: int, lastXAxis: int, lastYAxis: int, s: Sample): (wakes: bool)
    ensures wakes <==>
      (|queue| > 0 || s.key.Some? || s.encoder != lastEncoder ||
       Distance(s.potentiometer, lastPotentiometer) > WAKE_POTENTIOMETER ||
       AxisValue(s.xRaw) != lastXAxis || AxisValue(s.yRaw) != lastYAxis)
  {
    TakeKeyEvent(queue, true, s.key).event.Some? ||
    s.encoder != lastEncoder ||
    Distance(s.potentiometer, lastPotentiometer) > WAKE_POTENTIOMETER ||
    AxisValue(s.xRaw) != lastXAxis || AxisValue(s.yRaw) != lastYAxis
  }

  /** The key state after a key event: the event's key is down exactly when it was pressed. */
  function KeysAfter(keyState: seq<bool>, event: Option<KeyEvent>): (keys: seq<bool>)
    requires |keyState| == 12
    ensures |keys| == 12
    ensures event.Some? ==> keys[event.value.key] == event.value.pressed
    ensures forall k :: 0 <= k < 12 && (event.None? || k != event.value.key) ==> keys[k] == keyState[k]
  {
    if event.Some? then keyState[event.value.key := event.value.pressed] else keyState
  }

  /**
   * The time of the last activity after the consuming reads of a `command`
   * pass: a key event, an encoder step, a slider move of more than 10 or
   * any joystick move makes it the pass's time.
   */
  function ActivityAfter(lastActivity: int, last: (int, int, int, int), event: Option<KeyEvent>, s: Sample): int
  {
    if event.Some? || s.encoder != last.0 || Distance(s.potentiometer, last.1) > ACTIVE_POTENTIOMETER ||
       AxisValue(s.xRaw) != last.2 || AxisValue(s.yRaw) != last.3
    then s.now else lastActivity
  }

  /** What one pass of `command` leaves: the selection, the result if it returns, and the reader state. */
  datatype CommandStepped = CommandStepped(next: int, leave: Option<Update>, queue: seq<KeyEvent>,
                                           keyState: seq<bool>, last: (int, int, int, int), lastActivity: int)

  /**
   * One pass of `command` on values: more than 3 seconds after the last
   * activity it returns to `sleep` with the selection and reads nothing;
   * otherwise it takes a key event and every position, moves the
   * selection per `NextSelection`, and a command key returns its handler
   * with the new selection.
   */
  function CommandStep(count: int, selected: int, queue: seq<KeyEvent>, keyState: seq<bool>,
                       last: (int, int, int, int), lastActivity: int, s: Sample): (r: CommandStepped)
    requires 0 <= selected < count && |keyState| == 12
    ensures 0 <= r.next < count && |r.keyState| == 12
    ensures r.leave.Some? ==>
      r.leave.value.options.None? && r.leave.value.adjustMinutes.None? && r.leave.value.name != SendAdjustTime &&
      r.leave.value.selected == Some(r.next)
    ensures s.now - lastActivity > SLEEP_AFTER ==>
      r == CommandStepped(selected, Some(Update(Sleep, None, Some(selected), None)), queue, keyState, last, lastActivity)
  {
    if s.now - lastActivity > SLEEP_AFTER then
      CommandStepped(selected, Some(Update(Sleep, None, Some(selected), None)), queue, keyState, last, lastActivity)
    else
      var taken := TakeKeyEvent(queue, false, s.key);
      var keys := KeysAfter(keyState, taken.event);
      var next := NextSelection(selected, s.encoder - last.0, taken.event, keys[SHIFT_KEY], count);
      var target := CommandTarget(taken.event, keys[SHIFT_KEY]);
      CommandStepped(next, if target.Some? then Some(Update(target.value, None, Some(next), None)) else None,
                     taken.queue, keys, (s.encoder, s.potentiometer, AxisValue(s.xRaw), AxisValue(s.yRaw)),
                     ActivityAfter(lastActivity, last, taken.event, s))
  }

  /**
   * `command` as a fold over its passes, from the key queue, the key
   * state, the stored positions and the time of the last activity: the
   * first pass that returns (to `sleep` when idle, or for a command key)
   * gives the result, and each pass that stays hands on its selection
   * and reader state.
   */
  function CommandRun(count: int, selected: int, queue: seq<KeyEvent>, keyState: seq<bool>,
                      last: (int, int, int, int), lastActivity: int, samples: seq<Sample>): (r: Handled)
    requires 0 <= selected < count && |keyState| == 12
    ensures !r.Raised?
    ensures r.Returned? ==>
      r.update.options.None? && r.update.adjustMinutes.None? && r.update.name != SendAdjustTime &&
      r.update.selected.Some? && 0 <= r.update.selected.value < count
    ensures samples == [] ==> r.StillRunning?
    decreases |samples|
  {
    if samples == [] then StillRunning
    else
      var step := CommandStep(count, selected, queue, keyState, last, lastActivity, samples[0]);
      if step.leave.Some? then Returned(step.leave.value)
      else CommandRun(count, step.next, step.queue, step.keyState, step.last, step.lastActivity, samples[1..])
  }

  /**
   * `adjust_time` as a fold over its passes, from the key queue, the key
   * state and the stored encoder position: each pass takes a key event
   * and the encoder's turn and moves the minutes per `NextMinutes`; the
   * first press of key 2 returns the adjustment and of key 1 the cancel.
   */
  function AdjustRun(minutes: int, queue: seq<KeyEvent>, keyState: seq<bool>, encoder: int, samples: seq<Sample>): (r: Handled)
    requires |keyState| == 12
    ensures !r.Raised?
    ensures r.Returned? ==>
      r.update.name in {SendAdjustTime, Command} && r.update.options.None? && r.update.selected.None? &&
      (r.update.name == SendAdjustTime <==> r.update.adjustMinutes.Some?) &&
      (r.update.adjustMinutes.Some? ==> -MAX_ADJUSTMENT <= r.update.adjustMinutes.value <= MAX_ADJUSTMENT)
    ensures samples == [] ==> r.StillRunning?
    decreases |samples|
  {
    if samples == [] then StillRunning
    else
      var s := samples[0];
      var taken := TakeKeyEvent(queue, false, s.key);
      var keys := KeysAfter(keyState, taken.event);
      var next := NextMinutes(minutes, s.encoder - encoder, taken.event, keys[SHIFT_KEY]);
      var leave := AdjustTarget(taken.event, next);
      if leave.Some? then Returned(leave.value)
      else AdjustRun(next, taken.queue, keys, s.encoder, samples[1..])
  }

  /**
   * With no key event queued, `adjust_time` keeps running exactly when
   * none of its passes reads a press of key 1 or key 2.
   */
  lemma {:induction false} AdjustRunWaitsForKey(minutes: int, keyState: seq<bool>, encoder: int, samples: seq<Sample>)
    requires |keyState| == 12
    ensures AdjustRun(minutes, [], keyState, encoder, samples).StillRunning? <==>
      forall i :: 0 <= i < |samples| ==> !Pressed(samples[i].key, 1) && !Pressed(samples[i].key, 2)
    decreases |samples|
  {
    if samples != [] {
      var s := samples[0];
      assert TakeKeyEvent([], false, s.key) == Taken(s.key, []);
      var keys := KeysAfter(keyState, s.key);
      var next := NextMinutes(minutes, s.encoder - encoder, s.key, keys[SHIFT_KEY]);
      AdjustRunWaitsForKey(next, keys, s.encoder, samples[1..]);
      assert forall i :: 1 <= i < |samples| ==> samples[1..][i - 1] == samples[i];
    }
  }

  class MacroPad {
    var messageBuffer: string
    var keyEvents: seq<KeyEvent>
    var keyState: seq<bool>
    var lastEncoder: int
    var lastPotentiometer: int
    var lastXAxis: int
    var lastYAxis: int
    var lastActivity: int
    /** Everything written to the data port, in order. */
    var written: seq<byte>

    /** The key state covers the twelve keys, and at most one peeked event waits in the queue. */
    predicate Valid()
      reads this`keyState, this`keyEvents
    {
      |keyState| == 12 && |keyEvents| <= 1
    }

    /** The stored encoder, slider and joystick positions the readers compare against. */
    function Positions(): (int, int, int, int)
      reads this`lastEncoder, this`lastPotentiometer, this`lastXAxis, this`lastYAxis
    {
      (lastEncoder, lastPotentiometer, lastXAxis, lastYAxis)
    }

    /**
     * The program's start: globals from the first readings, then one
     * heartbeat. The joystick positions are stored centred but without the
     * dead zone, which only the diff readers apply.
     */
    constructor(s: Sample)
      ensures Valid()
      ensures messageBuffer == "" && keyEvents == [] && keyState == seq(12, _ => false)
      ensures lastEncoder == s.encoder && lastPotentiometer == s.potentiometer
      ensures lastXAxis == AXIS_CENTRE - s.xRaw && lastYAxis == AXIS_CENTRE - s.yRaw
      ensures lastActivity == s.now && written == HEARTBEAT
    {
      messageBuffer := "";
      keyEvents := [];
      keyState := seq(12, _ => false);
      lastEncoder := s.encoder;
      lastPotentiometer := s.potentiometer;
      lastXAxis := AXIS_CENTRE - s.xRaw;
      lastYAxis := AXIS_CENTRE - s.yRaw;
      lastActivity := s.now;
      written := HEARTBEAT;
    }

    // -- readers ---------------------------------------------------------

    /** `get_message`. */
    method GetMessage(chunk: string, parse: string -> Option<Json>) returns (message: Option<Json>)
      modifies this`messageBuffer
      ensures var r := Receive(old(messageBuffer), chunk, parse);
        messageBuffer == r.buffer && message == r.message
    {
      var text := messageBuffer + chunk;
      var index := LineBreak(text);
      if index.None? {
        messageBuffer := text;
        return None;
      }
      messageBuffer := text[index.value + 1..];
      message := parse(text[..index.value]);
    }

    /** `get_key_event(peek)`: every event returned is activity and sets the key's state. */
    method GetKeyEvent(peek: bool, hardware: Option<KeyEvent>, now: int) returns (event: Option<KeyEvent>)
      requires Valid()
      modifies this`keyEvents, this`keyState, this`lastActivity
      ensures Valid()
      ensures var taken := TakeKeyEvent(old(keyEvents), peek, hardware);
        event == taken.event && keyEvents == taken.queue
      ensures event.Some? ==>
        lastActivity == now && keyState == old(keyState)[event.value.key := event.value.pressed]
      ensures event.None? ==> lastActivity == old(lastActivity) && keyState == old(keyState)
    {
      if |keyEvents| > 0 {
        event := Some(keyEvents[0]);
        keyEvents := keyEvents[1..];
      } else {
        event := hardware;
      }
      if event.Some? {
        lastActivity := now;
        keyState := keyState[event.value.key := event.value.pressed];
        if peek {
          keyEvents := keyEvents + [event.value];
        }
      }
    }

    /** `get_encoder_diff(peek)`: a peek leaves the stored position alone. */
    method GetEncoderDiff(peek: bool, encoder: int, now: int) returns (diff: int)
      modifies this`lastEncoder, this`lastActivity
      ensures diff == encoder - old(lastEncoder)
      ensures lastEncoder == if peek then old(lastEncoder) else encoder
      ensures lastActivity == if diff != 0 then now else old(lastActivity)
    {
      diff := encoder - lastEncoder;
      if diff != 0 {
        lastActivity := now;
      }
      if !peek {
        lastEncoder := encoder;
      }
    }

    /** `get_potentiometer_diff(peek)`: only a move of more than 10 counts as activity. */
    method GetPotentiometerDiff(peek: bool, value: int, now: int) returns (diff: int)
      modifies this`lastPotentiometer, this`lastActivity
      ensures diff == value - old(lastPotentiometer)
      ensures lastPotentiometer == if peek then old(lastPotentiometer) else value
      ensures lastActivity == if Distance(value, old(lastPotentiometer)) > ACTIVE_POTENTIOMETER then now else old(lastActivity)
    {
      diff := value - lastPotentiometer;
      if diff > ACTIVE_POTENTIOMETER || diff < -ACTIVE_POTENTIOMETER {
        lastActivity := now;
      }
      if !peek {
        lastPotentiometer := value;
      }
    }

    /** `get_x_axis_diff(peek)`. */
    method GetXAxisDiff(peek: bool, raw: int, now: int) returns (diff: int)
      modifies this`lastXAxis, this`lastActivity
      ensures diff == AxisValue(raw) - old(lastXAxis)
      ensures lastXAxis == if peek then old(lastXAxis) else AxisValue(raw)
      ensures lastActivity == if diff != 0 then now else old(lastActivity)
    {
      var value := AXIS_CENTRE - raw;
      if -DEADZONE < value < DEADZONE {
        value := 0;
      }
      diff := value - lastXAxis;
      if diff != 0 {
        lastActivity := now;
      }
      if !peek {
        lastXAxis := value;
      }
    }

    /** `get_y_axis_diff(peek)`. */
    method GetYAxisDiff(peek: bool, raw: int, now: int) returns (diff: int)
      modifies this`lastYAxis, this`lastActivity
      ensures diff == AxisValue(raw) - old(lastYAxis)
      ensures lastYAxis == if peek then old(lastYAxis) else AxisValue(raw)
      ensures lastActivity == if diff != 0 then now else old(lastActivity)
    {
      var value := AXIS_CENTRE - raw;
      if -DEADZONE < value < DEADZONE {
        value := 0;
      }
      diff := value - lastYAxis;
      if diff != 0 {
        lastActivity := now;
      }
      if !peek {
        lastYAxis := value;
      }
    }

    // -- writers ---------------------------------------------------------

    /** `send_heartbeat`. */
    method SendHeartbeat()
      modifies this`written
      ensures written == old(written) + HEARTBEAT
    {
      written := written + [LETTER_H, NEWLINE];
    }

    /** `send_potentiometer`, `send_x_axis` and `send_y_axis`. */
    method SendShorthand(letter: byte, value: int)
      modifies this`written
      ensures written == old(written) + Shorthand(letter, value)
    {
      written := written + [letter] + IntText(value) + [NEWLINE];
    }

    /** `send_message`: the serialised message and a newline. */
    method SendMessage(message: Json, dump: Json -> seq<byte>)
      modifies this`written
      ensures written == old(written) + Framed(dump(message))
    {
      written := written + dump(message) + [NEWLINE];
    }

    /** `wait_for_reply_animated`: poll until a message arrives or the deadline passes. */
    method WaitForReply(chunks: seq<string>, parse: string -> Option<Json>) returns (message: Option<Json>)
      requires |chunks| > 0
      modifies this`messageBuffer
      ensures var r := Await(old(messageBuffer), chunks, parse);
        message == r.message && messageBuffer == r.buffer
    {
      var i := 0;
      while true
        invariant 0 <= i < |chunks|
        invariant Await(messageBuffer, chunks[i..], parse) == Await(old(messageBuffer), chunks, parse)
        decreases |chunks| - i
      {
        ghost var rest := chunks[i..];
        ghost var step := Receive(messageBuffer, chunks[i], parse);
        assert rest[0] == chunks[i] && rest[1..] == chunks[i + 1..];
        assert Await(messageBuffer, rest, parse) ==
          if step.message.Some? || |rest| == 1 then step else Await(step.buffer, chunks[i + 1..], parse);
        message := GetMessage(chunks[i], parse);
        if message.Some? || i == |chunks| - 1 {
          return;
        }
        i := i + 1;
      }
    }

    // -- handlers --------------------------------------------------------

    /** One pass of the `sleep` loop: a heartbeat, then every reader peeks. */
    method SleepPass(s: Sample) returns (woke: bool)
      requires Valid()
      modifies this`keyEvents, this`keyState, this`lastActivity, this`written
      modifies this`lastEncoder, this`lastPotentiometer, this`lastXAxis, this`lastYAxis
      ensures Valid() && Positions() == old(Positions())
      ensures woke == Wakes(old(keyEvents), lastEncoder, lastPotentiometer, lastXAxis, lastYAxis, s)
      ensures written == old(written) + HEARTBEAT
      ensures keyEvents == TakeKeyEvent(old(keyEvents), true, s.key).queue
      ensures !woke ==> keyEvents == old(keyEvents) && keyState == old(keyState)
    {
      SendHeartbeat();
      var event := GetKeyEvent(true, s.key, s.now);
      var encoderDiff := GetEncoderDiff(true, s.encoder, s.now);
      var potentiometerDiff := GetPotentiometerDiff(true, s.potentiometer, s.now);
      var xDiff := GetXAxisDiff(true, s.xRaw, s.now);
      var yDiff := GetYAxisDiff(true, s.yRaw, s.now);
      woke := event.Some? || encoderDiff != 0 || potentiometerDiff > WAKE_POTENTIOMETER ||
        potentiometerDiff < -WAKE_POTENTIOMETER || xDiff != 0 || yDiff != 0;
    }

    /**
     * `sleep`: heartbeats until the first pass that sees a key event, an
     * encoder step, a slider move of more than 5 or a joystick move. The
     * readers only peek, so the event that woke the pad is still queued
     * for `command`, and the stored positions are unchanged.
     */
    method SleepHandler(samples: seq<Sample>) returns (result: Handled, passes: nat)
      requires Valid()
      modifies this`keyEvents, this`keyState, this`lastActivity, this`written
      modifies this`lastEncoder, this`lastPotentiometer, this`lastXAxis, this`lastYAxis
      ensures Valid() && Positions() == old(Positions())
      ensures passes <= |samples| && written == old(written) + Repeat(HEARTBEAT, passes)
      ensures forall k :: 0 <= k < passes - 1 ==>
        !Wakes(old(keyEvents), lastEncoder, lastPotentiometer, lastXAxis, lastYAxis, samples[k])
      ensures result.Returned? ==>
        passes > 0 && result.update == Update(Command, None, None, None) &&
        Wakes(old(keyEvents), lastEncoder, lastPotentiometer, lastXAxis, lastYAxis, samples[passes - 1]) &&
        keyEvents == TakeKeyEvent(old(keyEvents), true, samples[passes - 1].key).queue &&
        lastActivity == samples[passes - 1].now
      ensures result.StillRunning? ==> passes == |samples| && keyEvents == old(keyEvents)
      ensures result.StillRunning? ==> forall k :: 0 <= k < |samples| ==>
        !Wakes(old(keyEvents), lastEncoder, lastPotentiometer, lastXAxis, lastYAxis, samples[k])
      ensures !result.Raised?
    {
      passes := 0;
      while passes < |samples|
        invariant Valid() && passes <= |samples|
        invariant written == old(written) + Repeat(HEARTBEAT, passes)
        invariant keyEvents == old(keyEvents) && keyState == old(keyState)
        invariant Positions() == old(Positions())
        invariant forall k :: 0 <= k < passes ==>
          !Wakes(old(keyEvents), lastEncoder, lastPotentiometer, lastXAxis, lastYAxis, samples[k])
      {
        var woke := SleepPass(samples[passes]);
        passes := passes + 1;
        if woke {
          lastActivity := samples[passes - 1].now;
          return Returned(Update(Command, None, None, None)), passes;
        }
      }
      result := StillRunning;
    }

    /** The four consuming reads of a `command` pass: key, encoder, slider, joystick. */
    method ReadInputs(s: Sample) returns (event: Option<KeyEvent>, diff: int, potentiometerDiff: int, xDiff: int, yDiff: int)
      requires Valid()
      modifies this`keyEvents, this`keyState, this`lastActivity
      modifies this`lastEncoder, this`lastPotentiometer, this`lastXAxis, this`lastYAxis
      ensures Valid()
      ensures var taken := TakeKeyEvent(old(keyEvents), false, s.key);
        event == taken.event && keyEvents == taken.queue
      ensures event.Some? ==> keyState == old(keyState)[event.value.key := event.value.pressed]
      ensures event.None? ==> keyState == old(keyState)
      ensures keyState == KeysAfter(old(keyState), event)
      ensures lastActivity == ActivityAfter(old(lastActivity), old(Positions()), event, s)
      ensures diff == s.encoder - old(lastEncoder) && potentiometerDiff == s.potentiometer - old(lastPotentiometer)
      ensures xDiff == AxisValue(s.xRaw) - old(lastXAxis) && yDiff == AxisValue(s.yRaw) - old(lastYAxis)
      ensures Positions() == (s.encoder, s.potentiometer, AxisValue(s.xRaw), AxisValue(s.yRaw))
    {
      event := GetKeyEvent(false, s.key, s.now);
      diff := GetEncoderDiff(false, s.encoder, s.now);
      potentiometerDiff := GetPotentiometerDiff(false, s.potentiometer, s.now);
      xDiff := GetXAxisDiff(false, s.xRaw, s.now);
      yDiff := GetYAxisDiff(false, s.yRaw, s.now);
    }

    /** The shorthand lines of a `command` pass, for what moved since the last one. */
    method ReportMoves(potentiometerDiff: int, xDiff: int, yDiff: int)
      modifies this`written
      ensures written == old(written) + MoveLine(potentiometerDiff, LETTER_P, lastPotentiometer) +
        MoveLine(xDiff, LETTER_X, lastXAxis) + MoveLine(yDiff, LETTER_Y, lastYAxis)
    {
      SendMove(potentiometerDiff, LETTER_P, lastPotentiometer);
      SendMove(xDiff, LETTER_X, lastXAxis);
      SendMove(yDiff, LETTER_Y, lastYAxis);
    }

    /** The reads of a `command` pass and the shorthand lines for what moved; returns the key event and the encoder's turn. */
    method SenseMoves(s: Sample) returns (event: Option<KeyEvent>, diff: int)
      requires Valid()
      modifies this`keyEvents, this`keyState, this`lastActivity, this`written
      modifies this`lastEncoder, this`lastPotentiometer, this`lastXAxis, this`lastYAxis
      ensures Valid()
      ensures var taken := TakeKeyEvent(old(keyEvents), false, s.key);
        event == taken.event && keyEvents == taken.queue
      ensures diff == s.encoder - old(lastEncoder)
      ensures keyState == KeysAfter(old(keyState), event)
      ensures lastActivity == ActivityAfter(old(lastActivity), old(Positions()), event, s)
      ensures Positions() == (s.encoder, s.potentiometer, AxisValue(s.xRaw), AxisValue(s.yRaw))
      ensures written == old(written) + PassMoves(old(Positions()), s)
    {
      ghost var last := Positions();
      var potentiometerDiff, xDiff, yDiff;
      event, diff, potentiometerDiff, xDiff, yDiff := ReadInputs(s);
      ghost var start := written;
      ReportMoves(potentiometerDiff, xDiff, yDiff);
      ghost var p := MoveLine(potentiometerDiff, LETTER_P, lastPotentiometer);
      ghost var x := MoveLine(xDiff, LETTER_X, lastXAxis);
      ghost var y := MoveLine(yDiff, LETTER_Y, lastYAxis);
      PassMovesAre(last, s, p, x, y);
      AppendAssoc(start + p, x, y);
      AppendAssoc(start, p, x + y);
    }

    /** One line of a `command` pass: `send_potentiometer`, `send_x_axis` or `send_y_axis` when it moved. */
    method SendMove(diff: int, letter: byte, value: int)
      modifies this`written
      ensures written == old(written) + MoveLine(diff, letter, value)
    {
      if diff != 0 {
        SendShorthand(letter, value);
      }
    }

    /**
     * One pass of `command`: go to sleep after 3 idle seconds; otherwise
     * drain one message, read every input, report slider and joystick
     * moves as shorthand lines, move the selection, and leave on a
     * command key. Returns the new selection and, when the handler
     * returns, its result.
     */
    method CommandPass(options: seq<string>, selected: int, s: Sample, parse: string -> Option<Json>)
      returns (next: int, leave: Option<Update>)
      requires Valid() && 0 <= selected < |options|
      modifies this`messageBuffer, this`keyEvents, this`keyState, this`lastActivity, this`written
      modifies this`lastEncoder, this`lastPotentiometer, this`lastXAxis, this`lastYAxis
      ensures Valid() && 0 <= next < |options|
      ensures leave.Some? ==> leave.value.options.None? && leave.value.selected == Some(next)
      ensures leave.Some? ==> leave.value.adjustMinutes.None? && leave.value.name != SendAdjustTime
      ensures CommandStep(|options|, selected, old(keyEvents), old(keyState), old(Positions()), old(lastActivity), s) ==
        CommandStepped(next, leave, keyEvents, keyState, Positions(), lastActivity)
      ensures s.now - old(lastActivity) > SLEEP_AFTER ==>
        written == old(written) && messageBuffer == old(messageBuffer)
      ensures s.now - old(lastActivity) <= SLEEP_AFTER ==>
        messageBuffer == Receive(old(messageBuffer), s.chunk, parse).buffer &&
        written == old(written) + PassMoves(old(Positions()), s)
    {
      if s.now - lastActivity > SLEEP_AFTER {
        next, leave := selected, Some(Update(Sleep, None, Some(selected), None));
      } else {
        var _ := GetMessage(s.chunk, parse);
        next, leave := AwakeCommandPass(options, selected, s);
      }
    }

    /** A pass of `command` that does not go to sleep, after its message has been drained. */
    method AwakeCommandPass(options: seq<string>, selected: int, s: Sample)
      returns (next: int, leave: Option<Update>)
      requires Valid() && 0 <= selected < |options| && s.now - lastActivity <= SLEEP_AFTER
      modifies this`keyEvents, this`keyState, this`lastActivity, this`written
      modifies this`lastEncoder, this`lastPotentiometer, this`lastXAxis, this`lastYAxis
      ensures Valid() && 0 <= next < |options|
      ensures CommandStep(|options|, selected, old(keyEvents), old(keyState), old(Positions()), old(lastActivity), s) ==
        CommandStepped(next, leave, keyEvents, keyState, Positions(), lastActivity)
      ensures Positions() == (s.encoder, s.potentiometer, AxisValue(s.xRaw), AxisValue(s.yRaw))
      ensures written == old(written) + PassMoves(old(Positions()), s)
      ensures var taken := TakeKeyEvent(old(keyEvents), false, s.key);
        keyState == KeysAfter(old(keyState), taken.event) &&
        lastActivity == ActivityAfter(old(lastActivity), old(Positions()), taken.event, s)
      ensures var taken := TakeKeyEvent(old(keyEvents), false, s.key);
        var target := CommandTarget(taken.event, keyState[SHIFT_KEY]);
        keyEvents == taken.queue &&
        next == NextSelection(selected, s.encoder - old(lastEncoder), taken.event, keyState[SHIFT_KEY], |options|) &&
        leave == (if target.Some? then Some(Update(target.value, None, Some(next), None)) else None)
    {
      var event, diff := SenseMoves(s);
      var shift := keyState[SHIFT_KEY];
      next := NextSelection(selected, diff, event, shift, |options|);
      var target := CommandTarget(event, shift);
      leave := if target.Some? then Some(Update(target.value, None, Some(next), None)) else None;
    }

    /** `command`: passes until one returns; the selection stays an index of the options. */
    method CommandHandler(state: UiState, samples: seq<Sample>, parse: string -> Option<Json>) returns (result: Handled)
      requires Valid() && Consistent(state)
      modifies this
      ensures Valid()
      ensures result.Returned? ==> Fits(state, result.update)
      ensures !result.Raised?
      ensures result == CommandRun(|state.options|, state.selected, old(keyEvents), old(keyState),
                                   old(Positions()), old(lastActivity), samples)
    {
      ghost var run := CommandRun(|state.options|, state.selected, old(keyEvents), old(keyState),
                                  old(Positions()), old(lastActivity), samples);
      var selected := state.selected;
      result := StillRunning;
      for i := 0 to |samples|
        invariant Valid() && 0 <= selected < |state.options| && result.StillRunning?
        invariant run == CommandRun(|state.options|, selected, keyEvents, keyState, Positions(), lastActivity, samples[i..])
      {
        assert samples[i..][0] == samples[i] && samples[i..][1..] == samples[i + 1..];
        var leave;
        selected, leave := CommandPass(state.options, selected, samples[i], parse);
        if leave.Some? {
          result := Returned(leave.value);
          break;
        }
      }
    }

    /** One pass of `adjust_time`: read a key and the encoder, move and clamp the minutes. */
    method AdjustPass(minutes: int, s: Sample) returns (next: int, leave: Option<Update>)
      requires Valid()
      modifies this`keyEvents, this`keyState, this`lastActivity, this`lastEncoder
      ensures Valid()
      ensures var taken := TakeKeyEvent(old(keyEvents), false, s.key);
        keyEvents == taken.queue && lastEncoder == s.encoder &&
        keyState == KeysAfter(old(keyState), taken.event) &&
        next == NextMinutes(minutes, s.encoder - old(lastEncoder), taken.event, keyState[SHIFT_KEY]) &&
        leave == AdjustTarget(taken.event, next)
    {
      var event := GetKeyEvent(false, s.key, s.now);
      var diff := GetEncoderDiff(false, s.encoder, s.now);
      next := NextMinutes(minutes, diff, event, keyState[SHIFT_KEY]);
      leave := AdjustTarget(event, next);
    }

    /** `adjust_time`: from 0 minutes, passes until key 2 sends the adjustment or key 1 cancels. */
    method AdjustTimeHandler(samples: seq<Sample>) returns (result: Handled)
      requires Valid()
      modifies this`keyEvents, this`keyState, this`lastActivity, this`lastEncoder
      ensures Valid()
      ensures result.Returned? ==>
        result.update.name in {SendAdjustTime, Command} && result.update.options.None? &&
        result.update.selected.None? &&
        (result.update.name == SendAdjustTime <==> result.update.adjustMinutes.Some?) &&
        (result.update.adjustMinutes.Some? ==>
          -MAX_ADJUSTMENT <= result.update.adjustMinutes.value <= MAX_ADJUSTMENT)
      ensures !result.Raised?
      ensures result == AdjustRun(0, old(keyEvents), old(keyState), old(lastEncoder), samples)
    {
      var minutes := 0;
      for i := 0 to |samples|
        invariant Valid()
        invariant AdjustRun(0, old(keyEvents), old(keyState), old(lastEncoder), samples) ==
                  AdjustRun(minutes, keyEvents, keyState, lastEncoder, samples[i..])
      {
        assert samples[i..][0] == samples[i] && samples[i..][1..] == samples[i + 1..];
        var leave;
        minutes, leave := AdjustPass(minutes, samples[i]);
        if leave.Some? {
          return Returned(leave.value);
        }
      }
      result := StillRunning;
    }

    /**
     * The sending handlers: write the request, wait for the reply, flash
     * success or error, and go back to `command`; a truthy reply without
     * `kind` raises.
     */
    method SendRequest(name: Handler, state: UiState, samples: seq<Sample>,
                       parse: string -> Option<Json>, dump: Json -> seq<byte>) returns (result: Handled)
      requires Sends(name) && Consistent(state) && |samples| > 0
      requires name == SendAdjustTime ==> state.adjustMinutes.Some?
      modifies this`messageBuffer, this`written, this`lastActivity
      ensures written == old(written) + Framed(dump(Request(name, state)))
      ensures var reply := Await(old(messageBuffer), Chunks(samples), parse);
        messageBuffer == reply.buffer &&
        (result.Raised? <==> ReplyVerdict(reply.message).Crashed?) &&
        (!result.Raised? ==> result == Returned(Update(Command, None, None, None)))
      ensures !result.StillRunning?
      ensures lastActivity == if result.Raised? then old(lastActivity) else samples[|samples| - 1].now
    {
      SendMessage(Request(name, state), dump);
      var message := WaitForReply(Chunks(samples), parse);
      if ReplyVerdict(message).Crashed? {
        return Raised;
      }
      lastActivity := samples[|samples| - 1].now;
      result := Returned(Update(Command, None, None, None));
    }

    /** One pass of the loop of `get_time_entries`; `final` is the pass that reaches the deadline. */
    method CollectPass(entries: seq<string>, chunk: string, final: bool, parse: string -> Option<Json>)
      returns (step: CollectStep)
      modifies this`messageBuffer
      ensures step == CollectOne(old(messageBuffer), chunk, parse, entries, final)
      ensures messageBuffer == Receive(old(messageBuffer), chunk, parse).buffer
    {
      var message := GetMessage(chunk, parse);
      if message.Some? && Truthy(message.value) {
        var kind := Index(message.value, "kind");
        if kind.None? {
          return Done(Collected(messageBuffer, entries, message, true));
        }
        if kind.value != JString("timeEntry") {
          return Done(Collected(messageBuffer, entries, message, false));
        }
        var entry := Index(message.value, "timeEntry");
        var description := if entry.None? then None else Index(entry.value, "description");
        if description.None? || !description.value.JString? {
          return Done(Collected(messageBuffer, entries, message, true));
        }
        if final {
          return Done(Collected(messageBuffer, entries + [description.value.s], message, false));
        }
        return Continue(messageBuffer, entries + [description.value.s]);
      }
      if final {
        return Done(Collected(messageBuffer, entries, message, false));
      }
      step := Continue(messageBuffer, entries);
    }

    /**
     * `get_time_entries`: ask for the entries, read `timeEntry` messages
     * until another message or the deadline, and offer the sorted distinct
     * descriptions after a `success`.
     */
    method GetTimeEntriesHandler(samples: seq<Sample>, parse: string -> Option<Json>, dump: Json -> seq<byte>)
      returns (result: Handled)
      requires |samples| > 0
      modifies this`messageBuffer, this`written, this`lastActivity
      ensures written == old(written) + Framed(dump(GET_TIME_ENTRIES))
      ensures var collected := Collect(old(messageBuffer), Chunks(samples), parse, []);
        messageBuffer == collected.buffer &&
        (result.Raised? <==> EntriesResult(collected).None?) &&
        (!result.Raised? ==> result == Returned(EntriesResult(collected).value))
      ensures result.Returned? ==> SelfContained(result.update)
      ensures !result.StillRunning?
      ensures lastActivity == if result.Raised? then old(lastActivity) else samples[|samples| - 1].now
    {
      SendMessage(GET_TIME_ENTRIES, dump);
      var chunks := Chunks(samples);
      var entries: seq<string> := [];
      var i := 0;
      var collected: Collected;
      while true
        invariant 0 <= i < |chunks|
        invariant Collect(messageBuffer, chunks[i..], parse, entries) == Collect(old(messageBuffer), chunks, parse, [])
        invariant written == old(written) + Framed(dump(GET_TIME_ENTRIES))
        invariant lastActivity == old(lastActivity)
        decreases |chunks| - i
      {
        assert chunks[i..][0] == chunks[i] && chunks[i..][1..] == chunks[i + 1..];
        CollectSteps(messageBuffer, chunks[i..], parse, entries);
        var step := CollectPass(entries, chunks[i], i == |chunks| - 1, parse);
        if step.Done? {
          collected := step.collected;
          break;
        }
        entries := step.entries;
        i := i + 1;
      }
      var outcome := EntriesResult(collected);
      if outcome.None? {
        return Raised;
      }
      lastActivity := samples[|samples| - 1].now;
      result := Returned(outcome.value);
    }

    /**
     * One turn of the main loop: run the current state's handler on the
     * samples of its passes and merge its result over the state. The
     * state stays consistent: an option is always selected.
     */
    method RunHandler(state: UiState, samples: seq<Sample>,
                      parse: string -> Option<Json>, dump: Json -> seq<byte>) returns (result: Handled, next: UiState)
      requires Valid() && Consistent(state) && |samples| > 0
      modifies this
      ensures Valid() && Consistent(next)
      ensures result.Returned? ==> next == Merge(state, result.update)
      ensures !result.Returned? ==> next == state
    {
      result := Dispatch(state, samples, parse, dump);
      if result.Returned? {
        MergeKeepsConsistent(state, result.update);
        next := Merge(state, result.update);
      } else {
        next := state;
      }
    }

    /** The handler of the current state, run on the samples of its passes; what it returns fits the state. */
    method Dispatch(state: UiState, samples: seq<Sample>,
                    parse: string -> Option<Json>, dump: Json -> seq<byte>) returns (result: Handled)
      requires Valid() && Consistent(state) && |samples| > 0
      modifies this
      ensures Valid()
      ensures result.Returned? ==> Fits(state, result.update)
    {
      match state.name {
        case Sleep =>
          var passes;
          result, passes := SleepHandler(samples);
        case GetTimeEntries =>
          result := GetTimeEntriesHandler(samples, parse, dump);
        case DrawOptions =>
          result := Returned(Update(Command, None, None, None));
        case _ =>
          result := DispatchInteractive(state, samples, parse, dump);
      }
    }

    /** `Dispatch` for the command screen, the time adjustment and the requests to the desk. */
    method DispatchInteractive(state: UiState, samples: seq<Sample>,
                               parse: string -> Option<Json>, dump: Json -> seq<byte>) returns (result: Handled)
      requires Valid() && Consistent(state) && |samples| > 0
      requires !(state.name.Sleep? || state.name.GetTimeEntries? || state.name.DrawOptions?)
      modifies this
      ensures Valid()
      ensures result.Returned? ==> Fits(state, result.update)
    {
      if state.name == Command {
        result := CommandHandler(state, samples, parse);
      } else if state.name == AdjustTime {
        result := AdjustTimeHandler(samples);
      } else {
        result := SendRequest(state.name, state, samples, parse, dump);
      }
    }

    /**
     * The main loop from its initial state, one handler turn per batch of
     * samples, until a handler raises or is still running when its
     * samples run out.
     */
    method Run(turns: seq<seq<Sample>>, parse: string -> Option<Json>, dump: Json -> seq<byte>)
      returns (state: UiState)
      requires Valid()
      requires forall t :: 0 <= t < |turns| ==> |turns[t]| > 0
      modifies this
      ensures Valid() && Consistent(state)
    {
      InitialStateConsistent();
      state := INITIAL_STATE;
      for t := 0 to |turns|
        invariant Valid() && Consistent(state)
      {
        var result;
        result, state := RunHandler(state, turns[t], parse, dump);
        if !result.Returned? {
          return;
        }
      }
    }
  }
}
