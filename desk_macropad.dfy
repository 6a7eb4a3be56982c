/**
 * The raylib host's session with the macro pad (`MacroPad` in the deskpi
 * host library): a port found by probing for the pad's `h\n` greeting, an
 * input queue cut into newline-terminated lines, the one-letter shorthand
 * lines for the potentiometer (`p`) and the joystick (`x`, `y`), and JSON
 * commands answered on the output queue with one final `success` or
 * `error` after any `timeEntry` messages.
 *
 * Everything outside the session is a parameter gathered in `Env`: the
 * JSON parser and serialiser, the API client's answer to the n-th call
 * (None for a Toggl error), the RFC 3339 parse of an entry's `start` (in
 * seconds) and the MAC-address parser.
 */
module DeskMacroPad {
  import opened Common
  import opened Json
  import opened Serial
  import opened PadProtocol

  const MACROPAD_PID: int := 0x8108

  datatype Env = Env(
    parse: seq<byte> -> Option<Json>,
    dump: Json -> seq<byte>,
    api: nat -> Option<Json>,
    startOf: Json -> Option<int>,
    macOk: string -> bool)

  datatype Outcome = Done | Panicked

  // ---------------------------------------------------------------------
  // Lines
  // ---------------------------------------------------------------------

  /** What one complete input line asks for. */
  datatype LineKind =
    | Dropped
    | Heartbeat
    | SetZ(z: nat)
    | SetX(x: int)
    | SetY(y: int)
    | Command(message: Json)
      /** A shorthand line whose number does not parse: the `unwrap` panics. */
    | LinePanic

  predicate IsShorthandLetter(c: byte)
  {
    c == LETTER_P || c == LETTER_X || c == LETTER_Y
  }

  /**
   * The body of the `process_input` loop: invalid UTF-8 is dropped, the
   * heartbeat skipped, `p` read as a u32 and `x`/`y` as i32 from the text
   * between the letter and the newline, and anything else handed to the
   * JSON parser, whose failures are dropped too.
   */
  function Classify(line: seq<byte>, parse: seq<byte> -> Option<Json>): (c: LineKind)
    requires IsLine(line)
    ensures c.Command? ==>
      ValidUtf8(line) && line != HEARTBEAT && !IsShorthandLetter(line[0]) && parse(line) == Some(c.message)
    ensures ValidUtf8(line) && IsShorthandLetter(line[0]) ==>
      c.SetZ? || c.SetX? || c.SetY? || c.LinePanic?
    ensures c.Dropped? <==>
      !ValidUtf8(line) || (line != HEARTBEAT && !IsShorthandLetter(line[0]) && parse(line).None?)
    ensures c.SetZ? ==> line[0] == LETTER_P && ParseU32(line[1..|line| - 1]) == Some(c.z)
    ensures c.SetX? ==> line[0] == LETTER_X && ParseI32(line[1..|line| - 1]) == Some(c.x)
    ensures c.SetY? ==> line[0] == LETTER_Y && ParseI32(line[1..|line| - 1]) == Some(c.y)
  {
    if !ValidUtf8(line) then Dropped
    else if line == HEARTBEAT then Heartbeat
    else if line[0] == LETTER_P then
      match ParseU32(line[1..|line| - 1])
        case Some(v) => SetZ(v)
        case None => LinePanic
    else if line[0] == LETTER_X then
      match ParseI32(line[1..|line| - 1])
        case Some(v) => SetX(v)
        case None => LinePanic
    else if line[0] == LETTER_Y then
      match ParseI32(line[1..|line| - 1])
        case Some(v) => SetY(v)
        case None => LinePanic
    else
      match parse(line)
        case Some(message) => Command(message)
        case None => Dropped
  }

  /** The pad's potentiometer line reads back as the value it was written from. */
  lemma PotentiometerRoundTrip(value: nat, parse: seq<byte> -> Option<Json>)
    requires value < U32_LIMIT
    ensures IsLine(Shorthand(LETTER_P, value))
    ensures Classify(Shorthand(LETTER_P, value), parse) == SetZ(value)
  {
    ShorthandIsAsciiLine(LETTER_P, value);
    NatTextParsesAsU32(value);
  }

  /** The pad's joystick lines read back as the values they were written from. */
  lemma AxisRoundTrip(value: int, parse: seq<byte> -> Option<Json>)
    requires I32_MIN <= value <= I32_MAX
    ensures IsLine(Shorthand(LETTER_X, value)) && IsLine(Shorthand(LETTER_Y, value))
    ensures Classify(Shorthand(LETTER_X, value), parse) == SetX(value)
    ensures Classify(Shorthand(LETTER_Y, value), parse) == SetY(value)
  {
    ShorthandIsAsciiLine(LETTER_X, value);
    ShorthandIsAsciiLine(LETTER_Y, value);
    IntTextParsesAsI32(value);
  }

  lemma ShorthandIsAsciiLine(letter: byte, value: int)
    requires IsShorthandLetter(letter)
    ensures IsLine(Shorthand(letter, value)) && ValidUtf8(Shorthand(letter, value))
  {
    var line := Shorthand(letter, value);
    var text := IntText(value);
    assert line == [letter] + text + [NEWLINE];
    assert forall i :: 0 <= i < |text| ==> text[i] == 45 || IsDigit(text[i]) by {
      if value >= 0 {
        assert text == NatText(value);
      } else {
        assert text == [45] + NatText(-value);
        assert forall i :: 1 <= i < |text| ==> text[i] == NatText(-value)[i - 1];
      }
    }
    assert forall i :: 0 <= i < |line| - 1 ==> line[i] != NEWLINE && line[i] < 0x80 by {
      forall i | 0 <= i < |line| - 1
        ensures line[i] != NEWLINE && line[i] < 0x80
      {
        if i > 0 {
          assert line[i] == text[i - 1];
        }
      }
    }
    assert line[..|line| - 1] == [letter] + text;
    AsciiIsUtf8(line);
  }

  // ---------------------------------------------------------------------
  // Commands
  // ---------------------------------------------------------------------

  /**
   * `send_time_entries`: list the entries; on a Toggl error reply `error`
   * alone, otherwise one `timeEntry` per listed entry in order and then
   * `success`.
   */
  function TimeEntriesEffect(n: nat, env: Env): (r: Option<Effect>)
    ensures r.Some? ==> Disciplined(r.value) && r.value.calls == [ListEntries]
    ensures r.Some? ==> r.value.forDisplay == [] && !r.value.resetsPoll
    ensures env.api(n).None? ==> r == Some(Effect([ERROR], [ListEntries], [], false))
    ensures env.api(n).Some? ==>
      (r.Some? <==> EntryReplies(Members(env.api(n).value)).Some?) &&
      (r.Some? ==> r.value.replies == EntryReplies(Members(env.api(n).value)).value + [SUCCESS])
  {
    match env.api(n)
      case None => Some(Effect([ERROR], [ListEntries], [], false))
      case Some(response) =>
        match EntryReplies(Members(response))
          case None => None
          case Some(entries) =>
            var e := Effect(entries + [SUCCESS], [ListEntries], [], false);
            EntryRepliesAreTimeEntries(Members(response));
            Some(e)
  }

  /**
   * `continue_time_entry`: restart the most recent entry under its
   * description; `error` when the list fails or is empty, or when the
   * creation fails.
   */
  function ContinueEffect(n: nat, env: Env): (r: Option<Effect>)
    ensures r.Some? ==> Disciplined(r.value) && |r.value.replies| == 1 && r.value.forDisplay == []
    ensures env.api(n).None? || (env.api(n).Some? && Members(env.api(n).value) == []) ==>
      r == Some(Effect([ERROR], [ListEntries], [], false))
    ensures env.api(n).Some? && Members(env.api(n).value) != [] ==>
      var description := Description(Members(env.api(n).value)[0]);
      (r.None? <==> description.None?) &&
      (description.Some? ==>
        r.value.calls == [ListEntries, CreateEntry(description.value)] && r.value.resetsPoll &&
        (r.value.replies == [SUCCESS] <==> env.api(n + 1).Some?))
  {
    match env.api(n)
      case None => Some(Effect([ERROR], [ListEntries], [], false))
      case Some(response) =>
        var entries := Members(response);
        if |entries| == 0 then Some(Effect([ERROR], [ListEntries], [], false))
        else match Description(entries[0])
          case None => None
          case Some(description) =>
            var reply := if env.api(n + 1).Some? then SUCCESS else ERROR;
            Some(Effect([reply], [ListEntries, CreateEntry(description)], [], true))
  }

  /**
   * `start_time_entry`: create an entry with the message's description
   * (unchanged); on success the e-ink display is told to start its
   * animation.
   */
  function StartEffect(message: Json, n: nat, env: Env): (r: Option<Effect>)
    ensures r.Some? <==> AsStr(Get(Get(message, "timeEntry"), "description")).Some?
    ensures r.Some? ==> Disciplined(r.value) && |r.value.replies| == 1 && r.value.resetsPoll
    ensures r.Some? ==> r.value.calls == [CreateEntry(AsStr(Get(Get(message, "timeEntry"), "description")).value)]
    ensures r.Some? ==> (r.value.replies == [SUCCESS] <==> env.api(n).Some?)
    ensures r.Some? ==> r.value.forDisplay == if env.api(n).Some? then [KindOnly("startAnimation")] else []
  {
    match AsStr(Get(Get(message, "timeEntry"), "description"))
      case None => None
      case Some(description) =>
        if env.api(n).Some? then
          Some(Effect([SUCCESS], [CreateEntry(description)], [KindOnly("startAnimation")], true))
        else Some(Effect([ERROR], [CreateEntry(description)], [], true))
  }

  /**
   * `stop_time_entry`: fetch the current entry; with none running reply
   * `success` without stopping anything, otherwise stop it by id.
   */
  function StopEffect(n: nat, env: Env): (r: Option<Effect>)
    ensures r.Some? ==> Disciplined(r.value) && |r.value.replies| == 1
    ensures env.api(n).None? ==> r == Some(Effect([ERROR], [CurrentEntry], [], false))
    ensures env.api(n) == Some(JNull) ==> r == Some(Effect([SUCCESS], [CurrentEntry], [], false))
    ensures env.api(n).Some? && env.api(n) != Some(JNull) ==>
      var id := AsI64(Get(env.api(n).value, "id"));
      (r.None? <==> id.None?) &&
      (id.Some? ==>
        r.value.calls == [CurrentEntry, StopEntry(id.value)] && r.value.resetsPoll &&
        (r.value.replies == [SUCCESS] <==> env.api(n + 1).Some?) &&
        r.value.forDisplay == if env.api(n + 1).Some? then [KindOnly("stopAnimation")] else [])
  {
    match env.api(n)
      case None => Some(Effect([ERROR], [CurrentEntry], [], false))
      case Some(current) =>
        if current.JNull? then Some(Effect([SUCCESS], [CurrentEntry], [], false))
        else match AsI64(Get(current, "id"))
          case None => None
          case Some(id) =>
            if env.api(n + 1).Some? then
              Some(Effect([SUCCESS], [CurrentEntry, StopEntry(id)], [KindOnly("stopAnimation")], true))
            else Some(Effect([ERROR], [CurrentEntry, StopEntry(id)], [], true))
  }

  /**
   * `adjust_time`: fetch the current entry; with none running reply
   * `error`, otherwise move its start `minutes` earlier.
   */
  function AdjustEffect(message: Json, n: nat, env: Env): (r: Option<Effect>)
    ensures r.Some? ==> Disciplined(r.value) && |r.value.replies| == 1 && r.value.forDisplay == []
    ensures env.api(n).None? || env.api(n) == Some(JNull) ==> r == Some(Effect([ERROR], [CurrentEntry], [], false))
    ensures env.api(n).Some? && env.api(n) != Some(JNull) ==>
      var current := env.api(n).value;
      var start, minutes, id := env.startOf(current), AsI64(Get(message, "minutes")), AsI64(Get(current, "id"));
      (r.None? <==> start.None? || minutes.None? || id.None?) &&
      (r.Some? ==>
        r.value.calls == [CurrentEntry, MoveStart(id.value, start.value - 60 * minutes.value)] &&
        r.value.resetsPoll && (r.value.replies == [SUCCESS] <==> env.api(n + 1).Some?))
  {
    match env.api(n)
      case None => Some(Effect([ERROR], [CurrentEntry], [], false))
      case Some(current) =>
        if current.JNull? then Some(Effect([ERROR], [CurrentEntry], [], false))
        else
          var start := env.startOf(current);
          var minutes := AsI64(Get(message, "minutes"));
          var id := AsI64(Get(current, "id"));
          if start.None? || minutes.None? || id.None? then None
          else
            var call := MoveStart(id.value, start.value - 60 * minutes.value);
            var reply := if env.api(n + 1).Some? then SUCCESS else ERROR;
            Some(Effect([reply], [CurrentEntry, call], [], true))
  }

  /** The strings of `devices` when each is a string the MAC parser accepts. */
  function MacAddresses(devices: seq<Json>, macOk: string -> bool): (r: Option<seq<string>>)
    ensures r.Some? <==> forall k :: 0 <= k < |devices| ==>
      devices[k].JString? && macOk(devices[k].s)
    ensures r.Some? ==> |r.value| == |devices|
    ensures r.Some? ==> forall k :: 0 <= k < |devices| ==> r.value[k] == devices[k].s
  {
    if |devices| == 0 then Some([])
    else
      var rest := MacAddresses(devices[1..], macOk);
      assert forall k :: 1 <= k < |devices| ==> devices[k] == devices[1..][k - 1];
      if !devices[0].JString? || !macOk(devices[0].s) || rest.None? then None
      else Some([devices[0].s] + rest.value)
  }

  /**
   * `switch_bose_devices`: exactly two valid MAC addresses go to the API
   * client (the fixed-size `try_into` panics on any other count).
   */
  function SwitchEffect(message: Json, env: Env): (r: Option<Effect>)
    ensures r.Some? <==> MacAddresses(Members(Get(message, "devices")), env.macOk).Some? &&
                         |Members(Get(message, "devices"))| == 2
    ensures r.Some? ==> r.value == Effect([SUCCESS], [SwitchBose(MacAddresses(Members(Get(message, "devices")), env.macOk).value)], [], false)
  {
    match MacAddresses(Members(Get(message, "devices")), env.macOk)
      case None => None
      case Some(addresses) =>
        if |addresses| != 2 then None
        else Some(Effect([SUCCESS], [SwitchBose(addresses)], [], false))
  }

  const COMMAND_KINDS: set<string> :=
    {"getTimeEntries", "continueTimeEntry", "startTimeEntry", "stopTimeEntry",
     "adjustTime", "sendWakeOnLan", "switchBoseDevices"}

  /**
   * `process_message`: dispatch on `kind`; a missing or unknown kind
   * panics. `n` is the number of API calls made so far.
   */
  function CommandEffect(message: Json, n: nat, env: Env): (r: Option<Effect>)
    ensures KindOf(message).None? ==> r.None?
    ensures r.Some? ==> Disciplined(r.value)
    ensures r.Some? ==> KindOf(message).value in COMMAND_KINDS
  {
    match KindOf(message)
      case None => None
      case Some(kind) =>
        if kind == "getTimeEntries" then TimeEntriesEffect(n, env)
        else if kind == "continueTimeEntry" then ContinueEffect(n, env)
        else if kind == "startTimeEntry" then StartEffect(message, n, env)
        else if kind == "stopTimeEntry" then StopEffect(n, env)
        else if kind == "adjustTime" then AdjustEffect(message, n, env)
        else if kind == "sendWakeOnLan" then Some(Effect([SUCCESS], [WakeOnLan], [], false))
        else if kind == "switchBoseDevices" then SwitchEffect(message, env)
        else None
  }

  // ---------------------------------------------------------------------
  // The session state, as a value
  // ---------------------------------------------------------------------

  /**
   * Everything the line loop can change: the output queue, the raw axis
   * values handed to the input state, the API calls made, the messages
   * queued for the e-ink display, and the poll time.
   */
  datatype Pad = Pad(output: seq<byte>, z: Option<nat>, x: Option<int>, y: Option<int>,
                     calls: seq<ApiCall>, forDisplay: seq<Json>, lastUpdate: Option<real>)

  /** Once the current entry, its start, its id and the minutes are read, the adjustment moves the start. */
  lemma AdjustMoves(message: Json, n: nat, env: Env)
    requires env.api(n).Some? && !env.api(n).value.JNull?
    requires env.startOf(env.api(n).value).Some? && AsI64(Get(message, "minutes")).Some?
    requires AsI64(Get(env.api(n).value, "id")).Some?
    ensures var current := env.api(n).value;
      var start, minutes, id := env.startOf(current).value, AsI64(Get(message, "minutes")).value, AsI64(Get(current, "id")).value;
      AdjustEffect(message, n, env) ==
        Some(Effect([if env.api(n + 1).Some? then SUCCESS else ERROR], [CurrentEntry, MoveStart(id, start - 60 * minutes)], [], true))
  {
  }

  /**
   * What serving a command leaves: the replies queued after the output,
   * the calls and display messages after the earlier ones, the axes
   * untouched, and the poll forced again when the command asks for it.
   */
  function Apply(p: Pad, e: Effect, dump: Json -> seq<byte>): (r: Pad)
    ensures r.z == p.z && r.x == p.x && r.y == p.y
    ensures r.output == p.output + Transcript(e.replies, dump)
    ensures p.calls <= r.calls && r.calls[|p.calls|..] == e.calls
    ensures p.forDisplay <= r.forDisplay && r.forDisplay[|p.forDisplay|..] == e.forDisplay
    ensures r.lastUpdate == if e.resetsPoll then None else p.lastUpdate
  {
    p.(output := p.output + Transcript(e.replies, dump),
       calls := p.calls + e.calls,
       forDisplay := p.forDisplay + e.forDisplay,
       lastUpdate := if e.resetsPoll then None else p.lastUpdate)
  }

  /** `process_message` for a command: served exactly when its kind is known, and then answered. */
  function Serve(p: Pad, message: Json, env: Env): (r: Option<Pad>)
    ensures r.Some? <==> CommandEffect(message, |p.calls|, env).Some?
    ensures r.Some? ==> KindOf(message).Some? && KindOf(message).value in COMMAND_KINDS
    ensures r.Some? ==> p.output < r.value.output && p.calls <= r.value.calls
  {
    match CommandEffect(message, |p.calls|, env)
      case None => None
      case Some(e) => Some(Apply(p, e, env.dump))
  }

  /** One line's effect on the state; None when it panics. */
  function LineStep(p: Pad, line: seq<byte>, env: Env): (r: Option<Pad>)
    requires IsLine(line)
    ensures !Classify(line, env.parse).Command? && r.Some? ==>
      r.value.output == p.output && r.value.calls == p.calls && r.value.forDisplay == p.forDisplay
    ensures r.Some? ==> p.output <= r.value.output && p.calls <= r.value.calls && p.forDisplay <= r.value.forDisplay
  {
    match Classify(line, env.parse)
      case Dropped => Some(p)
      case Heartbeat => Some(p)
      case SetZ(v) => Some(p.(z := Some(v)))
      case SetX(v) => Some(p.(x := Some(v)))
      case SetY(v) => Some(p.(y := Some(v)))
      case Command(message) => Serve(p, message, env)
      case LinePanic => None
  }

  /** The lines in arrival order; None as soon as one panics. */
  function RunLines(p: Pad, lines: seq<seq<byte>>, env: Env): (r: Option<Pad>)
    requires AllLines(lines)
    ensures r.Some? ==> p.output <= r.value.output && p.calls <= r.value.calls && p.forDisplay <= r.value.forDisplay
    decreases |lines|
  {
    if |lines| == 0 then Some(p)
    else match LineStep(p, lines[0], env)
      case None => None
      case Some(q) => RunLines(q, lines[1..], env)
  }

  lemma RunLinesCons(p: Pad, line: seq<byte>, lines: seq<seq<byte>>, env: Env)
    requires IsLine(line) && AllLines(lines)
    ensures AllLines([line] + lines)
    ensures RunLines(p, [line] + lines, env) ==
      match LineStep(p, line, env)
        case None => None
        case Some(q) => RunLines(q, lines, env)
  {
    AllLinesCons(line, lines);
    assert ([line] + lines)[0] == line && ([line] + lines)[1..] == lines;
  }

  /**
   * Serving a command appends its replies to the output queue as whole
   * lines, one per reply, and the last of them is `success` or `error`.
   */
  lemma ServeAppendsReplyLines(p: Pad, message: Json, env: Env)
    requires CompactDump(env.dump)
    requires SplitLines(p.output).partial == []
    requires Serve(p, message, env).Some?
    ensures var e := CommandEffect(message, |p.calls|, env).value;
      SplitLines(Serve(p, message, env).value.output) ==
        Lines(SplitLines(p.output).complete + FramedAll(e.replies, env.dump), []) &&
      IsFinalReply(e.replies[|e.replies| - 1])
  {
    var e := CommandEffect(message, |p.calls|, env).value;
    TranscriptLines(p.output, e.replies, env.dump);
  }

  // ---------------------------------------------------------------------
  // The session
  // ---------------------------------------------------------------------

  class MacroPad {
    /** The name of the open port, if any. */
    var port: Option<string>
    var inputBuffer: seq<byte>
    var outputBuffer: seq<byte>
    var zAxis: Option<nat>
    var xAxis: Option<int>
    var yAxis: Option<int>
    var calls: seq<ApiCall>
    var forDisplay: seq<Json>
    var lastUpdate: Option<real>

    function State(): Pad
      reads this
    {
      Pad(outputBuffer, zAxis, xAxis, yAxis, calls, forDisplay, lastUpdate)
    }

    constructor()
      ensures port == None && inputBuffer == [] && outputBuffer == []
      ensures State() == Pad([], None, None, None, [], [], None)
    {
      port := None;
      inputBuffer := [];
      outputBuffer := [];
      zAxis, xAxis, yAxis := None, None, None;
      calls := [];
      forDisplay := [];
      lastUpdate := None;
    }

    /**
     * `open_serial`: with no port held, keep the first vid/pid-matching
     * port whose first read is exactly `h\n`, and start with both queues
     * empty.
     */
    method OpenSerial(ports: seq<PortInfo>)
      modifies this
      ensures old(port).Some? ==> port == old(port) && inputBuffer == old(inputBuffer) && outputBuffer == old(outputBuffer)
      ensures old(port).None? ==>
        match FirstAccepted(ports, ADAFRUIT_VID, MACROPAD_PID, HEARTBEAT)
          case None => port == None && inputBuffer == old(inputBuffer) && outputBuffer == old(outputBuffer)
          case Some(i) => port == Some(ports[i].name) && inputBuffer == [] && outputBuffer == []
      ensures State() == old(State()).(output := outputBuffer)
    {
      if port.Some? {
        return;
      }
      var chosen := ProbeGreeting(ports, ADAFRUIT_VID, MACROPAD_PID, HEARTBEAT);
      if chosen.Some? {
        port := Some(ports[chosen.value].name);
        inputBuffer := [];
        outputBuffer := [];
      }
    }

    /**
     * `update_buffers`: a read appends exactly the bytes read; a read
     * timeout changes nothing and any other read error, a failed
     * `bytes_to_write()` or a failed write drops the port. The write loop
     * runs only while the port is still considered connected. Dropping
     * the port keeps both queues.
     */
    method UpdateBuffers(read: ReadOutcome, bytesToWrite: Option<nat>, write: WriteOracle)
      requires Progressing(write)
      modifies this
      ensures old(port).None? ==> port == None && inputBuffer == old(inputBuffer) && outputBuffer == old(outputBuffer)
      ensures old(port).Some? ==> inputBuffer == old(inputBuffer) + (if read.ReadOk? then read.data else [])
      ensures var held := old(port).Some? && !read.ReadFailed?;
        outputBuffer == Drained(held, old(outputBuffer), bytesToWrite, write) &&
        (port.Some? <==> StillConnected(held, old(outputBuffer), bytesToWrite, write))
      ensures port.Some? ==> port == old(port)
      ensures State() == old(State()).(output := outputBuffer)
    {
      if port.None? {
        return;
      }
      var disconnected := false;
      match read {
        case ReadOk(data) => inputBuffer := inputBuffer + data;
        case ReadTimedOut =>
        case ReadFailed => disconnected := true;
      }
      if bytesToWrite.None? {
        disconnected := true;
      }
      var pending := if bytesToWrite.Some? then bytesToWrite.value else 0;
      var rest, lost := WriteLoop(outputBuffer, disconnected, pending, write);
      outputBuffer := rest;
      if lost {
        port := None;
      }
    }

    /** `send_message`: queue the serialised message and a newline. */
    method SendMessage(message: Json, dump: Json -> seq<byte>)
      modifies this
      ensures outputBuffer == old(outputBuffer) + Framed(dump(message))
      ensures zAxis == old(zAxis) && xAxis == old(xAxis) && yAxis == old(yAxis)
      ensures calls == old(calls) && forDisplay == old(forDisplay) && lastUpdate == old(lastUpdate)
      ensures port == old(port) && inputBuffer == old(inputBuffer)
    {
      outputBuffer := outputBuffer + Framed(dump(message));
    }

    /** A call on the API client, answered by the oracle by call number. */
    method Request(call: ApiCall, env: Env) returns (response: Option<Json>)
      modifies this
      ensures calls == old(calls) + [call] && response == env.api(|old(calls)|)
      ensures State() == old(State()).(calls := calls)
      ensures port == old(port) && inputBuffer == old(inputBuffer)
    {
      response := env.api(|calls|);
      calls := calls + [call];
    }

    /** `process_input`: serve every complete line, keep the partial one. */
    method ProcessInput(env: Env) returns (outcome: Outcome)
      modifies this
      ensures var expected := RunLines(old(State()), SplitLines(old(inputBuffer)).complete, env);
        (outcome.Panicked? <==> expected.None?) &&
        (outcome.Done? ==> State() == expected.value && inputBuffer == SplitLines(old(inputBuffer)).partial)
      ensures port == old(port)
    {
      ghost var expected := RunLines(old(State()), SplitLines(old(inputBuffer)).complete, env);
      while FirstNewline(inputBuffer).Some?
        invariant RunLines(State(), SplitLines(inputBuffer).complete, env) == expected
        invariant SplitLines(inputBuffer).partial == SplitLines(old(inputBuffer)).partial
        invariant port == old(port)
        decreases |inputBuffer|
      {
        var k := FirstNewline(inputBuffer).value;
        var line := inputBuffer[..k + 1];
        ghost var before := State();
        ghost var rest := SplitLines(inputBuffer[k + 1..]);
        SplitFirstLine(inputBuffer, k);
        inputBuffer := inputBuffer[k + 1..];
        outcome := ProcessLine(line, env);
        RunLinesCons(before, line, rest.complete, env);
        if outcome.Panicked? {
          return;
        }
      }
      outcome := Done;
    }

    /** One iteration of the `process_input` loop. */
    method ProcessLine(line: seq<byte>, env: Env) returns (outcome: Outcome)
      requires IsLine(line)
      modifies this
      ensures var expected := LineStep(old(State()), line, env);
        (outcome.Panicked? <==> expected.None?) && (outcome.Done? ==> State() == expected.value)
      ensures port == old(port) && inputBuffer == old(inputBuffer)
    {
      outcome := Done;
      match Classify(line, env.parse) {
        case Dropped =>
        case Heartbeat =>
        case SetZ(v) => zAxis := Some(v);
        case SetX(v) => xAxis := Some(v);
        case SetY(v) => yAxis := Some(v);
        case Command(message) => outcome := ProcessMessage(message, env);
        case LinePanic => outcome := Panicked;
      }
    }

    /** `process_message`: dispatch on `kind`. */
    method ProcessMessage(message: Json, env: Env) returns (outcome: Outcome)
      modifies this
      ensures var expected := Serve(old(State()), message, env);
        (outcome.Panicked? <==> expected.None?) && (outcome.Done? ==> State() == expected.value)
      ensures port == old(port) && inputBuffer == old(inputBuffer)
    {
      var kind := KindOf(message);
      if kind.None? {
        return Panicked;
      }
      var n := |calls|;
      ghost var expected := CommandEffect(message, n, env);
      if kind.value == "getTimeEntries" {
        outcome := SendTimeEntries(env);
      } else if kind.value == "continueTimeEntry" {
        outcome := ContinueTimeEntry(env);
      } else if kind.value == "startTimeEntry" {
        outcome := StartTimeEntry(message, env);
      } else if kind.value == "stopTimeEntry" {
        outcome := StopTimeEntry(env);
      } else if kind.value == "adjustTime" {
        outcome := AdjustTime(message, env);
      } else if kind.value == "sendWakeOnLan" {
        outcome := SendWakeOnLan(env);
      } else if kind.value == "switchBoseDevices" {
        outcome := SwitchBoseDevices(message, env);
      } else {
        outcome := Panicked;
      }
    }

    /** Queue `replies` in order. */
    method SendReplies(replies: seq<Json>, dump: Json -> seq<byte>)
      modifies this
      ensures State() == old(State()).(output := old(outputBuffer) + Transcript(replies, dump))
      ensures port == old(port) && inputBuffer == old(inputBuffer)
    {
      for i := 0 to |replies|
        invariant State() == old(State()).(output := old(outputBuffer) + Transcript(replies[..i], dump))
        invariant port == old(port) && inputBuffer == old(inputBuffer)
      {
        SendMessage(replies[i], dump);
        TranscriptSnoc(replies, i, dump);
      }
      assert replies[..|replies|] == replies;
    }

    method SendTimeEntries(env: Env) returns (outcome: Outcome)
      modifies this
      ensures var expected := TimeEntriesEffect(|old(calls)|, env);
        (outcome.Panicked? <==> expected.None?) &&
        (outcome.Done? ==> State() == Apply(old(State()), expected.value, env.dump))
      ensures port == old(port) && inputBuffer == old(inputBuffer)
    {
      var response := Request(ListEntries, env);
      if response.None? {
        SendReplies([ERROR], env.dump);
        return Done;
      }
      ghost var start := outputBuffer;
      var complete := SendEntries(Members(response.value), env.dump);
      if !complete {
        return Panicked;
      }
      ghost var replies := EntryReplies(Members(response.value)).value;
      ghost var listed := outputBuffer;
      SendMessage(SUCCESS, env.dump);
      assert outputBuffer == (start + Transcript(replies, env.dump)) + Framed(env.dump(SUCCESS));
      AppendAssoc(start, Transcript(replies, env.dump), Framed(env.dump(SUCCESS)));
      TranscriptAppend(replies, SUCCESS, env.dump);
      outcome := Done;
    }

    /**
     * The `for_each` of `send_time_entries`: one `timeEntry` per entry,
     * in order; the `unwrap` of a missing description panics.
     */
    method SendEntries(entries: seq<Json>, dump: Json -> seq<byte>) returns (complete: bool)
      modifies this
      ensures complete <==> EntryReplies(entries).Some?
      ensures complete ==> outputBuffer == old(outputBuffer) + Transcript(EntryReplies(entries).value, dump)
      ensures State() == old(State()).(output := outputBuffer)
      ensures port == old(port) && inputBuffer == old(inputBuffer)
    {
      for i := 0 to |entries|
        invariant EntryReplies(entries[..i]).Some?
        invariant outputBuffer == old(outputBuffer) + Transcript(EntryReplies(entries[..i]).value, dump)
        invariant zAxis == old(zAxis) && xAxis == old(xAxis) && yAxis == old(yAxis)
        invariant calls == old(calls) && forDisplay == old(forDisplay) && lastUpdate == old(lastUpdate)
        invariant port == old(port) && inputBuffer == old(inputBuffer)
      {
        ghost var sent := EntryReplies(entries[..i]).value;
        assert entries[..i + 1][..i] == entries[..i];
        var description := Description(entries[i]);
        if description.None? {
          EntryRepliesPrefix(entries, i + 1);
          return false;
        }
        var message := TimeEntryMessage(description.value);
        SendMessage(message, dump);
        AppendAssoc(old(outputBuffer), Transcript(sent, dump), Framed(dump(message)));
        TranscriptAppend(sent, message, dump);
      }
      assert entries[..|entries|] == entries;
      complete := true;
    }

    method ContinueTimeEntry(env: Env) returns (outcome: Outcome)
      modifies this
      ensures var expected := ContinueEffect(|old(calls)|, env);
        (outcome.Panicked? <==> expected.None?) &&
        (outcome.Done? ==> State() == Apply(old(State()), expected.value, env.dump))
      ensures port == old(port) && inputBuffer == old(inputBuffer)
    {
      ghost var before := State();
      ghost var n := |calls|;
      var response := Request(ListEntries, env);
      if response.None? || |Members(response.value)| == 0 {
        SendReplies([ERROR], env.dump);
        return Done;
      }
      var description := Description(Members(response.value)[0]);
      if description.None? {
        return Panicked;
      }
      assert |calls| == n + 1 && response == env.api(n);
      var result := Request(CreateEntry(description.value), env);
      assert result == env.api(n + 1);
      lastUpdate := None;
      ghost var created := before.(calls := before.calls + [ListEntries, CreateEntry(description.value)], lastUpdate := None);
      assert State() == created;
      var reply := if result.Some? then SUCCESS else ERROR;
      SendReplies([reply], env.dump);
      assert State() == created.(output := before.output + Transcript([reply], env.dump));
      outcome := Done;
    }

    method StartTimeEntry(message: Json, env: Env) returns (outcome: Outcome)
      modifies this
      ensures var expected := StartEffect(message, |old(calls)|, env);
        (outcome.Panicked? <==> expected.None?) &&
        (outcome.Done? ==> State() == Apply(old(State()), expected.value, env.dump))
      ensures port == old(port) && inputBuffer == old(inputBuffer)
    {
      var description := AsStr(Get(Get(message, "timeEntry"), "description"));
      if description.None? {
        return Panicked;
      }
      var result := Request(CreateEntry(description.value), env);
      lastUpdate := None;
      if result.Some? {
        forDisplay := forDisplay + [KindOnly("startAnimation")];
        SendReplies([SUCCESS], env.dump);
      } else {
        SendReplies([ERROR], env.dump);
      }
      outcome := Done;
    }

    method StopTimeEntry(env: Env) returns (outcome: Outcome)
      modifies this
      ensures var expected := StopEffect(|old(calls)|, env);
        (outcome.Panicked? <==> expected.None?) &&
        (outcome.Done? ==> State() == Apply(old(State()), expected.value, env.dump))
      ensures port == old(port) && inputBuffer == old(inputBuffer)
    {
      ghost var before := State();
      ghost var n := |calls|;
      var current := Request(CurrentEntry, env);
      if current.None? {
        SendReplies([ERROR], env.dump);
        return Done;
      }
      if current.value.JNull? {
        SendReplies([SUCCESS], env.dump);
        return Done;
      }
      var id := AsI64(Get(current.value, "id"));
      if id.None? {
        return Panicked;
      }
      assert |calls| == n + 1 && current == env.api(n);
      var result := Request(StopEntry(id.value), env);
      assert result == env.api(n + 1);
      lastUpdate := None;
      ghost var stopped := before.(calls := before.calls + [CurrentEntry, StopEntry(id.value)], lastUpdate := None);
      assert State() == stopped;
      if result.Some? {
        forDisplay := forDisplay + [KindOnly("stopAnimation")];
        SendReplies([SUCCESS], env.dump);
        assert State() == stopped.(output := before.output + Transcript([SUCCESS], env.dump),
                                   forDisplay := before.forDisplay + [KindOnly("stopAnimation")]);
      } else {
        SendReplies([ERROR], env.dump);
        assert State() == stopped.(output := before.output + Transcript([ERROR], env.dump));
      }
      outcome := Done;
    }

    method AdjustTime(message: Json, env: Env) returns (outcome: Outcome)
      modifies this
      ensures var expected := AdjustEffect(message, |old(calls)|, env);
        (outcome.Panicked? <==> expected.None?) &&
        (outcome.Done? ==> State() == Apply(old(State()), expected.value, env.dump))
      ensures port == old(port) && inputBuffer == old(inputBuffer)
    {
      ghost var before := State();
      ghost var n := |calls|;
      var current := Request(CurrentEntry, env);
      if current.None? || current.value.JNull? {
        SendReplies([ERROR], env.dump);
        assert State() == before.(calls := before.calls + [CurrentEntry], output := before.output + Transcript([ERROR], env.dump));
        assert AdjustEffect(message, n, env) == Some(Effect([ERROR], [CurrentEntry], [], false));
        return Done;
      }
      var start := env.startOf(current.value);
      var minutes := AsI64(Get(message, "minutes"));
      var id := AsI64(Get(current.value, "id"));
      if start.None? || minutes.None? || id.None? {
        return Panicked;
      }
      var call := MoveStart(id.value, start.value - 60 * minutes.value);
      assert |calls| == n + 1 && current == env.api(n);
      var result := Request(call, env);
      assert result == env.api(n + 1);
      lastUpdate := None;
      ghost var moved := before.(calls := before.calls + [CurrentEntry, call], lastUpdate := None);
      assert State() == moved;
      var reply := if result.Some? then SUCCESS else ERROR;
      SendReplies([reply], env.dump);
      assert State() == moved.(output := before.output + Transcript([reply], env.dump));
      AdjustMoves(message, n, env);
      outcome := Done;
    }

    method SendWakeOnLan(env: Env) returns (outcome: Outcome)
      modifies this
      ensures outcome.Done?
      ensures State() == Apply(old(State()), Effect([SUCCESS], [WakeOnLan], [], false), env.dump)
      ensures port == old(port) && inputBuffer == old(inputBuffer)
    {
      var _ := Request(WakeOnLan, env);
      SendReplies([SUCCESS], env.dump);
      outcome := Done;
    }

    method SwitchBoseDevices(message: Json, env: Env) returns (outcome: Outcome)
      modifies this
      ensures var expected := SwitchEffect(message, env);
        (outcome.Panicked? <==> expected.None?) &&
        (outcome.Done? ==> State() == Apply(old(State()), expected.value, env.dump))
      ensures port == old(port) && inputBuffer == old(inputBuffer)
    {
      var addresses := MacAddresses(Members(Get(message, "devices")), env.macOk);
      if addresses.None? || |addresses.value| != 2 {
        return Panicked;
      }
      var _ := Request(SwitchBose(addresses.value), env);
      SendReplies([SUCCESS], env.dump);
      outcome := Done;
    }
  }
}
