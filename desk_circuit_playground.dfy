/**
 * The desk host's session with the Circuit Playground soil sensor
 * (`CircuitPlayground` in the deskpi library): a port found by probing for
 * the `c\n` greeting, an input queue split into lines, and `ra1<value>`
 * readings turned into soil-capacitance metrics at most once a minute.
 *
 * The raylib clock (`rl.get_time()`, seconds as a float) and the UTC
 * timestamp of a metric are parameters, read once per `process_input`.
 * The metrics channel and the thread behind it are reduced to the list of
 * metrics handed to the channel.
 */
module DeskCircuitPlayground {
  import opened Common
  import opened Serial

  const PLAYGROUND_PID: int := 0x8019
  /** `c\n`: the sensor's heartbeat, also its greeting. */
  const PLAYGROUND_GREETING: seq<byte> := [99, 10]
  /** `ra1`: the prefix of an analog reading of pin A1. */
  const READING_PREFIX: seq<byte> := [114, 97, 49]
  /** Metrics are sent when strictly more than this many seconds have passed. */
  const METRIC_INTERVAL: real := 60.0

  datatype Outcome = Done | Panicked

  datatype LineKind = Dropped | Greeting | Reading(value: nat) | Silent | LinePanic

  predicate StartsWithPrefix(line: seq<byte>)
  {
    |line| >= 3 && line[..3] == READING_PREFIX
  }

  /**
   * One complete line: invalid UTF-8 is dropped, the greeting skipped, a
   * `ra1` line carries a u32 between the prefix and the newline (anything
   * else there panics), and all other lines are consumed silently.
   */
  function Classify(line: seq<byte>): (k: LineKind)
    requires IsLine(line)
    ensures k.Dropped? <==> !ValidUtf8(line)
    ensures k.Greeting? <==> ValidUtf8(line) && line == PLAYGROUND_GREETING
    ensures k.Reading? || k.LinePanic? <==> ValidUtf8(line) && StartsWithPrefix(line)
    ensures k.Silent? <==> ValidUtf8(line) && line != PLAYGROUND_GREETING && !StartsWithPrefix(line)
    ensures StartsWithPrefix(line) ==> |line| >= 4
    ensures k.Reading? ==> ParseU32(line[3..|line| - 1]) == Some(k.value)
    ensures k.LinePanic? ==> ParseU32(line[3..|line| - 1]).None?
  {
    if !ValidUtf8(line) then Dropped
    else if line == PLAYGROUND_GREETING then Greeting
    else if StartsWithPrefix(line) then
      assert line[2] == 49;
      match ParseU32(line[3..|line| - 1])
        case None => LinePanic
        case Some(value) => Reading(value)
    else Silent
  }

  /** What the firmware writes, `'ra1' + str(value) + '\n'`, reads back as the same value. */
  lemma ReadingRoundTrip(value: nat)
    requires value < U32_LIMIT
    ensures IsLine(READING_PREFIX + NatText(value) + [NEWLINE])
    ensures Classify(READING_PREFIX + NatText(value) + [NEWLINE]) == Reading(value)
  {
    var line := READING_PREFIX + NatText(value) + [NEWLINE];
    assert line[..|line| - 1] == READING_PREFIX + NatText(value);
    assert Ascii(line);
    AsciiIsUtf8(line);
    assert line[..3] == READING_PREFIX;
    assert line[3..|line| - 1] == NatText(value);
    NatTextParsesAsU32(value);
  }

  /** One metric handed to the metrics thread, with the raylib time it was sent at. */
  datatype Metric = Metric(at: real, timestamp: int, value: nat)

  /** What the line loop changes besides the input queue. */
  datatype Meter = Meter(lastSubmitted: Option<real>, submitted: seq<Metric>)

  /** Whether a reading at `now` is sent: never sent before, or more than a minute ago. */
  function Due(lastSubmitted: Option<real>, now: real): (due: bool)
    ensures lastSubmitted.None? ==> due
    ensures lastSubmitted.Some? ==> (due <==> now > lastSubmitted.value + METRIC_INTERVAL)
  {
    lastSubmitted.None? || now - lastSubmitted.value > METRIC_INTERVAL
  }

  /** One line; None when the line panics. */
  function LineStep(m: Meter, line: seq<byte>, now: real, timestamp: int): (r: Option<Meter>)
    requires IsLine(line)
    ensures r.None? <==> Classify(line).LinePanic?
    ensures r.Some? && Classify(line).Reading? && Due(m.lastSubmitted, now) ==>
      r.value == Meter(Some(now), m.submitted + [Metric(now, timestamp, Classify(line).value)])
    ensures r.Some? && !(Classify(line).Reading? && Due(m.lastSubmitted, now)) ==> r.value == m
  {
    match Classify(line)
      case LinePanic => None
      case Reading(value) =>
        if Due(m.lastSubmitted, now) then Some(Meter(Some(now), m.submitted + [Metric(now, timestamp, value)]))
        else Some(m)
      case _ => Some(m)
  }

  /**
   * The lines in arrival order, read against one clock value; None as soon
   * as one panics. Metrics are only ever added, each stamped with that
   * clock.
   */
  function RunLines(m: Meter, lines: seq<seq<byte>>, now: real, timestamp: int): (r: Option<Meter>)
    requires AllLines(lines)
    ensures r.Some? ==> m.submitted <= r.value.submitted
    ensures r.Some? ==> forall i :: |m.submitted| <= i < |r.value.submitted| ==>
      r.value.submitted[i].at == now && r.value.submitted[i].timestamp == timestamp
    decreases |lines|
  {
    if |lines| == 0 then Some(m)
    else match LineStep(m, lines[0], now, timestamp)
      case None => None
      case Some(n) => RunLines(n, lines[1..], now, timestamp)
  }

  /**
   * The rate limit as an invariant of the metrics sent: consecutive
   * metrics are more than a minute apart, and `last_metrics_submitted`
   * is the time of the last one.
   */
  predicate Spaced(m: Meter)
  {
    (forall i :: 0 < i < |m.submitted| ==> m.submitted[i].at - m.submitted[i - 1].at > METRIC_INTERVAL) &&
    (if |m.submitted| == 0 then m.lastSubmitted.None?
     else m.lastSubmitted == Some(m.submitted[|m.submitted| - 1].at))
  }

  lemma {:induction false} LineStepSpaced(m: Meter, line: seq<byte>, now: real, timestamp: int)
    requires IsLine(line) && Spaced(m) && LineStep(m, line, now, timestamp).Some?
    ensures Spaced(LineStep(m, line, now, timestamp).value)
  {
    var r := LineStep(m, line, now, timestamp).value;
    if r != m {
      var s := r.submitted;
      assert |s| == |m.submitted| + 1;
      forall i | 0 < i < |s|
        ensures s[i].at - s[i - 1].at > METRIC_INTERVAL
      {
        if i == |s| - 1 {
          assert s[i].at == now;
          assert m.submitted != [] ==> s[i - 1].at == m.lastSubmitted.value;
        } else {
          assert s[i] == m.submitted[i] && s[i - 1] == m.submitted[i - 1];
        }
      }
    }
  }

  lemma {:induction false} RunLinesSpaced(m: Meter, lines: seq<seq<byte>>, now: real, timestamp: int)
    requires AllLines(lines) && Spaced(m) && RunLines(m, lines, now, timestamp).Some?
    ensures Spaced(RunLines(m, lines, now, timestamp).value)
    decreases |lines|
  {
    if |lines| > 0 {
      var n := LineStep(m, lines[0], now, timestamp).value;
      LineStepSpaced(m, lines[0], now, timestamp);
      RunLinesSpaced(n, lines[1..], now, timestamp);
    }
  }

  /** Read against one clock value, a batch of lines sends at most one metric. */
  lemma {:induction false} AtMostOneMetricPerBatch(m: Meter, lines: seq<seq<byte>>, now: real, timestamp: int)
    requires AllLines(lines) && RunLines(m, lines, now, timestamp).Some?
    ensures |RunLines(m, lines, now, timestamp).value.submitted| <= |m.submitted| + 1
    ensures |RunLines(m, lines, now, timestamp).value.submitted| == |m.submitted| + 1 ==>
      RunLines(m, lines, now, timestamp).value.lastSubmitted == Some(now)
    ensures m.lastSubmitted == Some(now) ==> RunLines(m, lines, now, timestamp).value == m
    decreases |lines|
  {
    if |lines| > 0 {
      var n := LineStep(m, lines[0], now, timestamp).value;
      if n == m {
        AtMostOneMetricPerBatch(n, lines[1..], now, timestamp);
      } else {
        assert n.lastSubmitted == Some(now);
        AtMostOneMetricPerBatch(n, lines[1..], now, timestamp);
      }
    }
  }

  lemma RunLinesCons(m: Meter, line: seq<byte>, lines: seq<seq<byte>>, now: real, timestamp: int)
    requires IsLine(line) && AllLines(lines)
    ensures AllLines([line] + lines)
    ensures RunLines(m, [line] + lines, now, timestamp) ==
      match LineStep(m, line, now, timestamp)
        case None => None
        case Some(n) => RunLines(n, lines, now, timestamp)
  {
    AllLinesCons(line, lines);
    assert ([line] + lines)[0] == line && ([line] + lines)[1..] == lines;
  }

  /**
   * Nothing in the session ever queues output, so an empty output queue
   * stays empty and `update_buffers` keeps the port exactly when the read
   * and the `bytes_to_write()` query succeed.
   */
  lemma EmptyQueueNeverWrites(held: bool, bytesToWrite: Option<nat>, write: WriteOracle)
    requires Progressing(write)
    ensures Drained(held, [], bytesToWrite, write) == []
    ensures StillConnected(held, [], bytesToWrite, write) <==> held && bytesToWrite.Some?
  {
    var d := Drained(held, [], bytesToWrite, write);
    var sent :| [] == sent + d;
    assert |d| == 0;
  }

  class CircuitPlayground {
    var port: Option<string>
    var inputBuffer: seq<byte>
    var outputBuffer: seq<byte>
    var lastSubmitted: Option<real>
    var submitted: seq<Metric>

    function State(): Meter
      reads this
    {
      Meter(lastSubmitted, submitted)
    }

    /** The session invariant: nothing queued for the sensor, and metrics spaced out. */
    predicate Valid()
      reads this
    {
      outputBuffer == [] && Spaced(State())
    }

    constructor()
      ensures port == None && inputBuffer == [] && State() == Meter(None, [])
      ensures Valid()
    {
      port := None;
      inputBuffer := [];
      outputBuffer := [];
      lastSubmitted := None;
      submitted := [];
    }

    /**
     * `open_serial`: with no port held, keep the first vid/pid-matching
     * port whose first read is exactly `c\n`, with both queues emptied.
     */
    method OpenSerial(ports: seq<PortInfo>)
      requires Valid()
      modifies this
      ensures Valid()
      ensures old(port).Some? ==> port == old(port) && inputBuffer == old(inputBuffer)
      ensures old(port).None? ==>
        match FirstAccepted(ports, ADAFRUIT_VID, PLAYGROUND_PID, PLAYGROUND_GREETING)
          case None => port == None && inputBuffer == old(inputBuffer)
          case Some(i) => port == Some(ports[i].name) && inputBuffer == []
      ensures State() == old(State())
    {
      if port.Some? {
        return;
      }
      var chosen := ProbeGreeting(ports, ADAFRUIT_VID, PLAYGROUND_PID, PLAYGROUND_GREETING);
      if chosen.Some? {
        port := Some(ports[chosen.value].name);
        inputBuffer := [];
        outputBuffer := [];
      }
    }

    /**
     * `update_buffers`: a read appends what was read; a timeout changes
     * nothing; any other read error or a failed `bytes_to_write()` drops
     * the port. With nothing ever queued, the write loop never runs.
     */
    method UpdateBuffers(read: ReadOutcome, bytesToWrite: Option<nat>, write: WriteOracle)
      requires Progressing(write) && Valid()
      modifies this
      ensures Valid()
      ensures old(port).None? ==> port == None && inputBuffer == old(inputBuffer)
      ensures old(port).Some? ==> inputBuffer == old(inputBuffer) + (if read.ReadOk? then read.data else [])
      ensures port.Some? <==> old(port).Some? && !read.ReadFailed? && bytesToWrite.Some?
      ensures port.Some? ==> port == old(port)
      ensures State() == old(State())
    {
      if port.None? {
        return;
      }
      var disconnected := false;
      match read {
        case ReadOk(data) => inputBuffer := inputBuffer + data;
        case ReadTimedOut =>
        case ReadFailed => disconnected := true;
      }
      if bytesToWrite.None? {
        disconnected := true;
      }
      var pending := if bytesToWrite.Some? then bytesToWrite.value else 0;
      var rest, lost := WriteLoop(outputBuffer, disconnected, pending, write);
      EmptyQueueNeverWrites(!disconnected, bytesToWrite, write);
      outputBuffer := rest;
      if lost {
        port := None;
      }
    }

    /**
     * `process_input`: consume every complete line in order, leaving the
     * partial line queued; `now` is the raylib clock and `timestamp` the
     * UTC time of any metric sent.
     */
    method ProcessInput(now: real, timestamp: int) returns (outcome: Outcome)
      requires Valid()
      modifies this
      ensures var expected := RunLines(old(State()), SplitLines(old(inputBuffer)).complete, now, timestamp);
        (outcome.Panicked? <==> expected.None?) &&
        (outcome.Done? ==> State() == expected.value && inputBuffer == SplitLines(old(inputBuffer)).partial)
      ensures outcome.Done? ==> Valid()
      ensures port == old(port) && outputBuffer == old(outputBuffer)
    {
      ghost var expected := RunLines(old(State()), SplitLines(old(inputBuffer)).complete, now, timestamp);
      while FirstNewline(inputBuffer).Some?
        invariant RunLines(State(), SplitLines(inputBuffer).complete, now, timestamp) == expected
        invariant SplitLines(inputBuffer).partial == SplitLines(old(inputBuffer)).partial
        invariant Spaced(State())
        invariant port == old(port) && outputBuffer == old(outputBuffer)
        decreases |inputBuffer|
      {
        var k := FirstNewline(inputBuffer).value;
        var line := inputBuffer[..k + 1];
        ghost var before := State();
        ghost var rest := SplitLines(inputBuffer[k + 1..]);
        SplitFirstLine(inputBuffer, k);
        inputBuffer := inputBuffer[k + 1..];
        RunLinesCons(before, line, rest.complete, now, timestamp);
        outcome := ProcessLine(line, now, timestamp);
        if outcome.Panicked? {
          return;
        }
        assert RunLines(State(), rest.complete, now, timestamp) == expected;
      }
      outcome := Done;
    }

    /** The body of the line loop for one complete line. */
    method ProcessLine(line: seq<byte>, now: real, timestamp: int) returns (outcome: Outcome)
      requires IsLine(line) && Spaced(State())
      modifies this
      ensures var expected := LineStep(old(State()), line, now, timestamp);
        (outcome.Panicked? <==> expected.None?) && (outcome.Done? ==> State() == expected.value)
      ensures Spaced(State())
      ensures port == old(port) && inputBuffer == old(inputBuffer) && outputBuffer == old(outputBuffer)
    {
      var kind := Classify(line);
      if kind.LinePanic? {
        return Panicked;
      }
      if kind.Reading? && Due(lastSubmitted, now) {
        submitted := submitted + [Metric(now, timestamp, kind.value)];
        lastSubmitted := Some(now);
      }
      LineStepSpaced(old(State()), line, now, timestamp);
      outcome := Done;
    }
  }
}
