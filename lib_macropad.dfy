/**
 * The older host library's session with the macro pad (`MacroPad` in the
 * shared raylib library). It connects to the matching port with the
 * greatest name without any greeting, treats every input line as a JSON
 * command, serves four kinds of command against the Toggl v8 API and
 * answers every one of them with `success`.
 *
 * This file calls `make_toggl_request` as returning the response value
 * itself, not a `Result`; the API client is therefore an oracle that
 * always answers, with the response to the n-th call.
 */
module LibMacroPad {
  import opened Common
  import opened Json
  import opened Serial
  import opened PadProtocol

  const MACROPAD_PID: int := 0x8108

  datatype Env = Env(
    parse: seq<byte> -> Option<Json>,
    dump: Json -> seq<byte>,
    api: nat -> Json,
    startOf: Json -> Option<int>)

  datatype Outcome = Done | Panicked

  datatype OpenOutcome = Kept | Connected(name: string) | NoPort | OpenPanic

  /** The current entry of a `time_entries/current` response, or null. */
  function CurrentData(response: Json): (r: Json)
    ensures response.JObject? && HasKey(response.fields, "data") ==>
      exists i :: 0 <= i < |response.fields| && response.fields[i] == ("data", r)
    ensures !response.JObject? || !HasKey(response.fields, "data") ==> r.JNull?
  {
    Get(response, "data")
  }

  /**
   * `send_time_entries`: one `timeEntry` per listed entry, in order, then
   * `success`; a missing description panics.
   */
  function TimeEntriesEffect(n: nat, env: Env): (r: Option<Effect>)
    ensures r.Some? <==> EntryReplies(Members(env.api(n))).Some?
    ensures r.Some? ==> Disciplined(r.value) && r.value.replies[|r.value.replies| - 1] == SUCCESS
    ensures r.Some? ==> r.value.calls == [ListEntries]
    ensures r.Some? ==> r.value.replies == EntryReplies(Members(env.api(n))).value + [SUCCESS]
  {
    match EntryReplies(Members(env.api(n)))
      case None => None
      case Some(entries) =>
        var e := Effect(entries + [SUCCESS], [ListEntries], [], false);
        EntryRepliesAreTimeEntries(Members(env.api(n)));
        Some(e)
  }

  /** `start_time_entry`: start an entry with the message's description, whatever the answer. */
  function StartEffect(message: Json): (r: Option<Effect>)
    ensures r.Some? <==> AsStr(Get(Get(message, "timeEntry"), "description")).Some?
    ensures r.Some? ==> r.value.replies == [SUCCESS]
    ensures r.Some? ==> r.value.calls == [CreateEntry(AsStr(Get(Get(message, "timeEntry"), "description")).value)]
  {
    match AsStr(Get(Get(message, "timeEntry"), "description"))
      case None => None
      case Some(description) => Some(Effect([SUCCESS], [CreateEntry(description)], [], false))
  }

  /** `stop_time_entry`: stop the current entry if there is one; reply `success` either way. */
  function StopEffect(n: nat, env: Env): (r: Option<Effect>)
    ensures r.Some? ==> r.value.replies == [SUCCESS]
    ensures CurrentData(env.api(n)).JNull? ==> r == Some(Effect([SUCCESS], [CurrentEntry], [], false))
    ensures !CurrentData(env.api(n)).JNull? ==>
      var id := AsI64(Get(CurrentData(env.api(n)), "id"));
      (r.None? <==> id.None?) &&
      (id.Some? ==> r.value.calls == [CurrentEntry, StopEntry(id.value)])
  {
    var current := CurrentData(env.api(n));
    if current.JNull? then Some(Effect([SUCCESS], [CurrentEntry], [], false))
    else match AsI64(Get(current, "id"))
      case None => None
      case Some(id) => Some(Effect([SUCCESS], [CurrentEntry, StopEntry(id)], [], false))
  }

  /** `adjust_time`: move the current entry's start `minutes` earlier if there is one. */
  function AdjustEffect(message: Json, n: nat, env: Env): (r: Option<Effect>)
    ensures r.Some? ==> r.value.replies == [SUCCESS]
    ensures CurrentData(env.api(n)).JNull? ==> r == Some(Effect([SUCCESS], [CurrentEntry], [], false))
    ensures !CurrentData(env.api(n)).JNull? ==>
      var current := CurrentData(env.api(n));
      var start, minutes, id := env.startOf(current), AsI64(Get(message, "minutes")), AsI64(Get(current, "id"));
      (r.None? <==> start.None? || minutes.None? || id.None?) &&
      (r.Some? ==> r.value.calls == [CurrentEntry, MoveStart(id.value, start.value - 60 * minutes.value)])
  {
    var current := CurrentData(env.api(n));
    if current.JNull? then Some(Effect([SUCCESS], [CurrentEntry], [], false))
    else
      var start := env.startOf(current);
      var minutes := AsI64(Get(message, "minutes"));
      var id := AsI64(Get(current, "id"));
      if start.None? || minutes.None? || id.None? then None
      else Some(Effect([SUCCESS], [CurrentEntry, MoveStart(id.value, start.value - 60 * minutes.value)], [], false))
  }

  const COMMAND_KINDS: set<string> := {"getTimeEntries", "startTimeEntry", "stopTimeEntry", "adjustTime"}

  /** `process_message`: only four kinds are served; anything else panics. */
  function CommandEffect(message: Json, n: nat, env: Env): (r: Option<Effect>)
    ensures r.Some? ==> KindOf(message).Some? && KindOf(message).value in COMMAND_KINDS
    ensures r.Some? ==> Disciplined(r.value) && r.value.replies[|r.value.replies| - 1] == SUCCESS
    ensures r.Some? ==> r.value.forDisplay == [] && !r.value.resetsPoll
  {
    match KindOf(message)
      case None => None
      case Some(kind) =>
        if kind == "getTimeEntries" then TimeEntriesEffect(n, env)
        else if kind == "startTimeEntry" then StartEffect(message)
        else if kind == "stopTimeEntry" then StopEffect(n, env)
        else if kind == "adjustTime" then AdjustEffect(message, n, env)
        else None
  }

  /** What the line loop can change. */
  datatype Session = Session(output: seq<byte>, calls: seq<ApiCall>)

  /** The replies queued after the output and the calls after the earlier ones; a reply lengthens the queue. */
  function Apply(s: Session, e: Effect, dump: Json -> seq<byte>): (r: Session)
    ensures r.output == s.output + Transcript(e.replies, dump)
    ensures s.calls <= r.calls && r.calls[|s.calls|..] == e.calls
    ensures |e.replies| > 0 ==> |r.output| > |s.output|
  {
    TranscriptLonger(e.replies, dump);
    Session(s.output + Transcript(e.replies, dump), s.calls + e.calls)
  }

  /**
   * One line: invalid UTF-8 and invalid JSON both panic (two `unwrap`s),
   * and every parsed line is a command.
   */
  function LineStep(s: Session, line: seq<byte>, env: Env): (r: Option<Session>)
    ensures r.Some? ==> ValidUtf8(line) && env.parse(line).Some?
    ensures r.Some? ==> |r.value.output| > |s.output|
    ensures r.Some? ==> s.output <= r.value.output && s.calls <= r.value.calls
  {
    if !ValidUtf8(line) || env.parse(line).None? then None
    else match CommandEffect(env.parse(line).value, |s.calls|, env)
      case None => None
      case Some(e) =>
        Some(Apply(s, e, env.dump))
  }

  lemma TranscriptLonger(messages: seq<Json>, dump: Json -> seq<byte>)
    ensures |messages| > 0 ==> |Transcript(messages, dump)| > 0
  {
  }

  function RunLines(s: Session, lines: seq<seq<byte>>, env: Env): (r: Option<Session>)
    ensures r.Some? ==> s.output <= r.value.output && s.calls <= r.value.calls
    decreases |lines|
  {
    if |lines| == 0 then Some(s)
    else match LineStep(s, lines[0], env)
      case None => None
      case Some(t) => RunLines(t, lines[1..], env)
  }

  /** Every line that does not panic is answered: the output queue grows by at least one line per input line. */
  lemma {:induction false} EveryLineAnswered(s: Session, lines: seq<seq<byte>>, env: Env)
    requires RunLines(s, lines, env).Some?
    ensures |RunLines(s, lines, env).value.output| >= |s.output| + |lines|
    decreases |lines|
  {
    if |lines| > 0 {
      var t := LineStep(s, lines[0], env).value;
      EveryLineAnswered(t, lines[1..], env);
    }
  }

  lemma RunLinesCons(s: Session, line: seq<byte>, lines: seq<seq<byte>>, env: Env)
    ensures RunLines(s, [line] + lines, env) ==
      match LineStep(s, line, env)
        case None => None
        case Some(t) => RunLines(t, lines, env)
  {
    assert ([line] + lines)[0] == line && ([line] + lines)[1..] == lines;
  }

  class MacroPad {
    var port: Option<string>
    var inputBuffer: seq<byte>
    var outputBuffer: seq<byte>
    var calls: seq<ApiCall>

    function State(): Session
      reads this
    {
      Session(outputBuffer, calls)
    }

    constructor()
      ensures port == None && inputBuffer == [] && outputBuffer == [] && calls == []
    {
      port := None;
      inputBuffer := [];
      outputBuffer := [];
      calls := [];
    }

    /**
     * `open_serial`: with no port held, open the matching port with the
     * greatest name, with no greeting; a failed open panics. Both queues
     * start empty.
     */
    method OpenSerial(ports: seq<PortInfo>) returns (outcome: OpenOutcome)
      modifies this
      ensures outcome.Kept? <==> old(port).Some?
      ensures outcome.Kept? ==> port == old(port) && inputBuffer == old(inputBuffer) && outputBuffer == old(outputBuffer)
      ensures outcome.NoPort? <==>
        old(port).None? && forall j :: 0 <= j < |ports| ==> !Matches(ports[j], ADAFRUIT_VID, MACROPAD_PID)
      ensures outcome.NoPort? ==> port == None
      ensures outcome.Connected? || outcome.OpenPanic? ==>
        exists i :: 0 <= i < |ports| && Matches(ports[i], ADAFRUIT_VID, MACROPAD_PID) &&
          (forall j :: 0 <= j < |ports| && Matches(ports[j], ADAFRUIT_VID, MACROPAD_PID) ==>
            !NameLess(ports[i].name, ports[j].name)) &&
          (outcome.Connected? <==> ports[i].open.Opened?) &&
          (outcome.Connected? ==> outcome.name == ports[i].name)
      ensures outcome.Connected? ==> port == Some(outcome.name) && inputBuffer == [] && outputBuffer == []
      ensures calls == old(calls)
    {
      if port.Some? {
        return Kept;
      }
      var chosen := LastGreatest(ports, ADAFRUIT_VID, MACROPAD_PID);
      if chosen.None? {
        return NoPort;
      }
      var last := ports[chosen.value];
      if last.open.OpenFailed? {
        return OpenPanic;
      }
      port := Some(last.name);
      inputBuffer := [];
      outputBuffer := [];
      outcome := Connected(last.name);
    }

    /**
     * `update_buffers`: the same discipline as the other sessions: a read
     * appends what was read, a time-out changes nothing, and any other
     * error drops the port, keeping both queues.
     */
    method UpdateBuffers(read: ReadOutcome, bytesToWrite: Option<nat>, write: WriteOracle)
      requires Progressing(write)
      modifies this
      ensures old(port).None? ==> port == None && inputBuffer == old(inputBuffer) && outputBuffer == old(outputBuffer)
      ensures old(port).Some? ==> inputBuffer == old(inputBuffer) + (if read.ReadOk? then read.data else [])
      ensures var held := old(port).Some? && !read.ReadFailed?;
        outputBuffer == Drained(held, old(outputBuffer), bytesToWrite, write) &&
        (port.Some? <==> StillConnected(held, old(outputBuffer), bytesToWrite, write))
      ensures port.Some? ==> port == old(port)
      ensures calls == old(calls)
    {
      if port.None? {
        return;
      }
      var disconnected := false;
      match read {
        case ReadOk(data) => inputBuffer := inputBuffer + data;
        case ReadTimedOut =>
        case ReadFailed => disconnected := true;
      }
      if bytesToWrite.None? {
        disconnected := true;
      }
      var pending := if bytesToWrite.Some? then bytesToWrite.value else 0;
      var rest, lost := WriteLoop(outputBuffer, disconnected, pending, write);
      outputBuffer := rest;
      if lost {
        port := None;
      }
    }

    /** `process_input`: every complete line is a command; the partial line stays. */
    method ProcessInput(env: Env) returns (outcome: Outcome)
      modifies this
      ensures var expected := RunLines(old(State()), SplitLines(old(inputBuffer)).complete, env);
        (outcome.Panicked? <==> expected.None?) &&
        (outcome.Done? ==> State() == expected.value && inputBuffer == SplitLines(old(inputBuffer)).partial)
      ensures port == old(port)
    {
      ghost var expected := RunLines(old(State()), SplitLines(old(inputBuffer)).complete, env);
      while FirstNewline(inputBuffer).Some?
        invariant RunLines(State(), SplitLines(inputBuffer).complete, env) == expected
        invariant SplitLines(inputBuffer).partial == SplitLines(old(inputBuffer)).partial
        invariant port == old(port)
        decreases |inputBuffer|
      {
        var k := FirstNewline(inputBuffer).value;
        var line := inputBuffer[..k + 1];
        ghost var before := State();
        ghost var rest := SplitLines(inputBuffer[k + 1..]);
        SplitFirstLine(inputBuffer, k);
        inputBuffer := inputBuffer[k + 1..];
        outcome := ProcessLine(line, env);
        RunLinesCons(before, line, rest.complete, env);
        if outcome.Panicked? {
          return;
        }
      }
      outcome := Done;
    }

    method ProcessLine(line: seq<byte>, env: Env) returns (outcome: Outcome)
      modifies this
      ensures var expected := LineStep(old(State()), line, env);
        (outcome.Panicked? <==> expected.None?) && (outcome.Done? ==> State() == expected.value)
      ensures port == old(port) && inputBuffer == old(inputBuffer)
    {
      if !ValidUtf8(line) {
        return Panicked;
      }
      var message := env.parse(line);
      if message.None? {
        return Panicked;
      }
      outcome := ProcessMessage(message.value, env);
    }

    /** `process_message`. */
    method ProcessMessage(message: Json, env: Env) returns (outcome: Outcome)
      modifies this
      ensures var expected := CommandEffect(message, |old(calls)|, env);
        (outcome.Panicked? <==> expected.None?) &&
        (outcome.Done? ==> State() == Apply(old(State()), expected.value, env.dump))
      ensures port == old(port) && inputBuffer == old(inputBuffer)
    {
      var kind := KindOf(message);
      if kind.None? {
        return Panicked;
      }
      if kind.value == "getTimeEntries" {
        outcome := SendTimeEntries(env);
      } else if kind.value == "startTimeEntry" {
        outcome := StartTimeEntry(message, env);
      } else if kind.value == "stopTimeEntry" {
        outcome := StopTimeEntry(env);
      } else if kind.value == "adjustTime" {
        outcome := AdjustTime(message, env);
      } else {
        outcome := Panicked;
      }
    }

    method SendMessage(message: Json, dump: Json -> seq<byte>)
      modifies this
      ensures outputBuffer == old(outputBuffer) + Framed(dump(message))
      ensures calls == old(calls) && port == old(port) && inputBuffer == old(inputBuffer)
    {
      outputBuffer := outputBuffer + Framed(dump(message));
    }

    /** `send_success_message`: the one final reply of every command. */
    method SendSuccess(dump: Json -> seq<byte>)
      modifies this
      ensures outputBuffer == old(outputBuffer) + Transcript([SUCCESS], dump)
      ensures calls == old(calls) && port == old(port) && inputBuffer == old(inputBuffer)
    {
      SendMessage(SUCCESS, dump);
      TranscriptAppend([], SUCCESS, dump);
      assert [] + [SUCCESS] == [SUCCESS];
    }

    method Request(call: ApiCall, env: Env) returns (response: Json)
      modifies this
      ensures calls == old(calls) + [call] && response == env.api(|old(calls)|)
      ensures outputBuffer == old(outputBuffer) && port == old(port) && inputBuffer == old(inputBuffer)
    {
      response := env.api(|calls|);
      calls := calls + [call];
    }

    method SendTimeEntries(env: Env) returns (outcome: Outcome)
      modifies this
      ensures var expected := TimeEntriesEffect(|old(calls)|, env);
        (outcome.Panicked? <==> expected.None?) &&
        (outcome.Done? ==> State() == Apply(old(State()), expected.value, env.dump))
      ensures port == old(port) && inputBuffer == old(inputBuffer)
    {
      var response := Request(ListEntries, env);
      var entries := Members(response);
      for i := 0 to |entries|
        invariant EntryReplies(entries[..i]).Some?
        invariant outputBuffer == old(outputBuffer) + Transcript(EntryReplies(entries[..i]).value, env.dump)
        invariant calls == old(calls) + [ListEntries]
        invariant port == old(port) && inputBuffer == old(inputBuffer)
      {
        ghost var sent := EntryReplies(entries[..i]).value;
        assert entries[..i + 1][..i] == entries[..i];
        var description := Description(entries[i]);
        if description.None? {
          EntryRepliesPrefix(entries, i + 1);
          return Panicked;
        }
        var message := TimeEntryMessage(description.value);
        SendMessage(message, env.dump);
        AppendAssoc(old(outputBuffer), Transcript(sent, env.dump), Framed(env.dump(message)));
        TranscriptAppend(sent, message, env.dump);
      }
      assert entries[..|entries|] == entries;
      ghost var replies := EntryReplies(entries).value;
      SendMessage(SUCCESS, env.dump);
      AppendAssoc(old(outputBuffer), Transcript(replies, env.dump), Framed(env.dump(SUCCESS)));
      TranscriptAppend(replies, SUCCESS, env.dump);
      outcome := Done;
    }

    method StartTimeEntry(message: Json, env: Env) returns (outcome: Outcome)
      modifies this
      ensures var expected := StartEffect(message);
        (outcome.Panicked? <==> expected.None?) &&
        (outcome.Done? ==> State() == Apply(old(State()), expected.value, env.dump))
      ensures port == old(port) && inputBuffer == old(inputBuffer)
    {
      var description := AsStr(Get(Get(message, "timeEntry"), "description"));
      if description.None? {
        return Panicked;
      }
      var _ := Request(CreateEntry(description.value), env);
      SendSuccess(env.dump);
      outcome := Done;
    }

    method StopTimeEntry(env: Env) returns (outcome: Outcome)
      modifies this
      ensures var expected := StopEffect(|old(calls)|, env);
        (outcome.Panicked? <==> expected.None?) &&
        (outcome.Done? ==> State() == Apply(old(State()), expected.value, env.dump))
      ensures port == old(port) && inputBuffer == old(inputBuffer)
    {
      var response := Request(CurrentEntry, env);
      var current := CurrentData(response);
      if !current.JNull? {
        var id := AsI64(Get(current, "id"));
        if id.None? {
          return Panicked;
        }
        var _ := Request(StopEntry(id.value), env);
      }
      SendSuccess(env.dump);
      outcome := Done;
    }

    method AdjustTime(message: Json, env: Env) returns (outcome: Outcome)
      modifies this
      ensures var expected := AdjustEffect(message, |old(calls)|, env);
        (outcome.Panicked? <==> expected.None?) &&
        (outcome.Done? ==> State() == Apply(old(State()), expected.value, env.dump))
      ensures port == old(port) && inputBuffer == old(inputBuffer)
    {
      var response := Request(CurrentEntry, env);
      var current := CurrentData(response);
      if !current.JNull? {
        var start := env.startOf(current);
        var minutes := AsI64(Get(message, "minutes"));
        var id := AsI64(Get(current, "id"));
        if start.None? || minutes.None? || id.None? {
          return Panicked;
        }
        var _ := Request(MoveStart(id.value, start.value - 60 * minutes.value), env);
      }
      SendSuccess(env.dump);
      outcome := Done;
    }
  }
}
