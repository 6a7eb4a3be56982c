/**
 * The serial-port discipline shared by the host-side sessions (the
 * e-ink display, both macro-pad hosts and the circuit-playground host):
 * probing USB ports for a device that greets with a two-byte line,
 * classifying read and write failures into "timed out, keep going" and
 * "disconnected", draining the output queue at most 256 bytes per write,
 * and cutting the input queue into newline-terminated lines.
 *
 * The port itself is an oracle: a read outcome, a `bytes_to_write`
 * outcome and a write outcome chosen by the device for each write call.
 */
module Serial {
  import opened Common
  import opened Json

  /** What `port.read(&mut buf)` returned. */
  datatype ReadOutcome = ReadOk(data: seq<byte>) | ReadTimedOut | ReadFailed

  /** What `port.write(&chunk)` returned. */
  datatype WriteOutcome = Wrote(count: nat) | WriteTimedOut | WriteFailed

  /** The device's answer to the k-th write call of one update, given the chunk offered. */
  type WriteOracle = (nat, seq<byte>) -> WriteOutcome

  /**
   * `Write::write` never reports more bytes than it was given. A port that
   * accepts zero bytes would make the write loop spin forever, so the
   * model asks for progress on every successful write.
   */
  ghost predicate Progressing(write: WriteOracle)
  {
    forall k: nat, chunk: seq<byte> :: |chunk| > 0 && write(k, chunk).Wrote? ==>
      1 <= write(k, chunk).count <= |chunk|
  }

  // ---------------------------------------------------------------------
  // Probing
  // ---------------------------------------------------------------------

  datatype UsbId = UsbId(vid: int, pid: int)

  /** What `serialport::new(name, baud).open()` did, and what the first read returned. */
  datatype OpenOutcome = OpenFailed | Opened(firstRead: ReadOutcome)

  /** One entry of `available_ports()`; `usb` is None for non-USB ports. */
  datatype PortInfo = PortInfo(name: string, usb: Option<UsbId>, open: OpenOutcome)

  /** Adafruit's USB vendor id, used by every device of the desk. */
  const ADAFRUIT_VID: int := 0x239A

  predicate Matches(port: PortInfo, vid: int, pid: int)
  {
    port.usb.Some? && port.usb.value.vid == vid && port.usb.value.pid == pid
  }

  /** Opening succeeds and the first read returns exactly the greeting. */
  predicate Greets(port: PortInfo, greeting: seq<byte>)
  {
    port.open.Opened? && port.open.firstRead.ReadOk? && port.open.firstRead.data == greeting
  }

  predicate Accepts(port: PortInfo, vid: int, pid: int, greeting: seq<byte>)
  {
    Matches(port, vid, pid) && Greets(port, greeting)
  }

  /** The index of the first port the probe keeps, if any. */
  function FirstAccepted(ports: seq<PortInfo>, vid: int, pid: int, greeting: seq<byte>): (r: Option<nat>)
    ensures r.Some? ==> r.value < |ports| && Accepts(ports[r.value], vid, pid, greeting)
    ensures r.Some? ==> forall j :: 0 <= j < r.value ==> !Accepts(ports[j], vid, pid, greeting)
    ensures r.None? ==> forall j :: 0 <= j < |ports| ==> !Accepts(ports[j], vid, pid, greeting)
  {
    if |ports| == 0 then None
    else if Accepts(ports[0], vid, pid, greeting) then Some(0)
    else match FirstAccepted(ports[1..], vid, pid, greeting)
      case None => None
      case Some(k) => Some(k + 1)
  }

  /**
   * The probe loop of `open_serial`: among ports with the given USB ids,
   * skip those that fail to open, fail the first read or greet with
   * anything but `greeting`; keep the first one that greets correctly.
   */
  method ProbeGreeting(ports: seq<PortInfo>, vid: int, pid: int, greeting: seq<byte>)
    returns (chosen: Option<nat>)
    ensures chosen == FirstAccepted(ports, vid, pid, greeting)
  {
    var i := 0;
    while i < |ports|
      invariant 0 <= i <= |ports|
      invariant forall j :: 0 <= j < i ==> !Accepts(ports[j], vid, pid, greeting)
    {
      if Matches(ports[i], vid, pid) {
        match ports[i].open {
          case OpenFailed =>
          case Opened(firstRead) =>
            if firstRead.ReadOk? && firstRead.data == greeting {
              FirstAcceptedIsFirst(ports, vid, pid, greeting, i);
              return Some(i);
            }
        }
      }
      i := i + 1;
    }
    return None;
  }

  lemma {:induction false} FirstAcceptedIsFirst(ports: seq<PortInfo>, vid: int, pid: int, greeting: seq<byte>, i: nat)
    requires i < |ports| && Accepts(ports[i], vid, pid, greeting)
    requires forall j :: 0 <= j < i ==> !Accepts(ports[j], vid, pid, greeting)
    ensures FirstAccepted(ports, vid, pid, greeting) == Some(i)
    decreases i
  {
    if i > 0 {
      FirstAcceptedIsFirst(ports[1..], vid, pid, greeting, i - 1);
    }
  }

  /**
   * The port that `sort_by(port_name)` followed by `last()` picks among
   * the ports with the given USB ids: one with the greatest name, and the
   * last of them in listing order when several share it (the sort is
   * stable).
   */
  method LastGreatest(ports: seq<PortInfo>, vid: int, pid: int) returns (chosen: Option<nat>)
    ensures chosen.None? <==> forall j :: 0 <= j < |ports| ==> !Matches(ports[j], vid, pid)
    ensures chosen.Some? ==> chosen.value < |ports| && Matches(ports[chosen.value], vid, pid)
    ensures chosen.Some? ==> forall j :: 0 <= j < |ports| && Matches(ports[j], vid, pid) ==>
      !NameLess(ports[chosen.value].name, ports[j].name)
    ensures chosen.Some? ==> forall j :: chosen.value < j < |ports| && Matches(ports[j], vid, pid) ==>
      NameLess(ports[j].name, ports[chosen.value].name)
  {
    chosen := None;
    for i := 0 to |ports|
      invariant chosen.None? <==> forall j :: 0 <= j < i ==> !Matches(ports[j], vid, pid)
      invariant chosen.Some? ==> chosen.value < i && Matches(ports[chosen.value], vid, pid)
      invariant chosen.Some? ==> forall j :: 0 <= j < i && Matches(ports[j], vid, pid) ==>
        !NameLess(ports[chosen.value].name, ports[j].name)
      invariant chosen.Some? ==> forall j :: chosen.value < j < i && Matches(ports[j], vid, pid) ==>
        NameLess(ports[j].name, ports[chosen.value].name)
    {
      if Matches(ports[i], vid, pid) {
        if chosen.None? || !NameLess(ports[i].name, ports[chosen.value].name) {
          ghost var previous := chosen;
          chosen := Some(i);
          NameLessIrreflexive(ports[i].name);
          if previous.Some? {
            forall j | 0 <= j < i && Matches(ports[j], vid, pid)
              ensures !NameLess(ports[i].name, ports[j].name)
            {
              NotLessTransitive(ports[i].name, ports[previous.value].name, ports[j].name);
            }
          }
        } else if NameLess(ports[chosen.value].name, ports[i].name) {
          NameLessTransitive(ports[i].name, ports[chosen.value].name, ports[i].name);
          NameLessIrreflexive(ports[i].name);
          assert false;
        }
      }
    }
  }

  // ---------------------------------------------------------------------
  // Writing
  // ---------------------------------------------------------------------

  /** `output_buffer.iter().take(256)`: the front of the queue, at most 256 bytes. */
  function Take256(output: seq<byte>): (chunk: seq<byte>)
    ensures |chunk| == if |output| < 256 then |output| else 256
    ensures chunk == output[..|chunk|]
  {
    if |output| < 256 then output else output[..256]
  }

  /**
   * How a write loop ends: `sent` is what the device accepted, `rest` is
   * what stays queued, `calls` the index of the last write call made and
   * `disconnected` whether a write failed with anything but a timeout.
   */
  datatype Flushed = Flushed(sent: seq<byte>, rest: seq<byte>, calls: nat, disconnected: bool)

  /**
   * The loop `while output non-empty { write(take 256); drain(count) }`
   * starting at write call `k`: a timeout stops it quietly, any other
   * error stops it and drops the port, and otherwise it runs until the
   * queue is empty.
   */
  function Flush(output: seq<byte>, k: nat, write: WriteOracle): (r: Flushed)
    requires Progressing(write)
    ensures output == r.sent + r.rest
    ensures r.rest == [] ==> !r.disconnected
    ensures r.rest != [] ==> !write(r.calls, Take256(r.rest)).Wrote?
    ensures r.disconnected <==> r.rest != [] && write(r.calls, Take256(r.rest)) == WriteFailed
    decreases |output|
  {
    if |output| == 0 then Flushed([], [], k, false)
    else
      var chunk := Take256(output);
      match write(k, chunk)
      case Wrote(n) =>
        WroteWithinChunk(write, k, chunk);
        var r := Flush(output[n..], k + 1, write);
        DrainFront(output, n, r.sent, r.rest);
        Flushed(output[..n] + r.sent, r.rest, r.calls, r.disconnected)
      case WriteTimedOut => Flushed([], output, k, false)
      case WriteFailed => Flushed([], output, k, true)
  }

  lemma WroteWithinChunk(write: WriteOracle, k: nat, chunk: seq<byte>)
    requires Progressing(write) && |chunk| > 0 && write(k, chunk).Wrote?
    ensures 1 <= write(k, chunk).count <= |chunk|
  {
  }

  lemma DrainFront(output: seq<byte>, n: nat, sent: seq<byte>, rest: seq<byte>)
    requires n <= |output| && output[n..] == sent + rest
    ensures output == (output[..n] + sent) + rest
  {
    assert output == output[..n] + output[n..];
  }

  /**
   * The write half of `update_buffers`: the loop runs only while nothing
   * has already marked the port disconnected and the driver reported
   * fewer than 256 bytes pending (sampled once, before the loop).
   */
  method WriteLoop(output: seq<byte>, disconnected: bool, bytesToWrite: nat, write: WriteOracle)
    returns (rest: seq<byte>, lost: bool)
    requires Progressing(write)
    ensures disconnected || bytesToWrite >= 256 ==> rest == output && lost == disconnected
    ensures !disconnected && bytesToWrite < 256 ==>
      rest == Flush(output, 0, write).rest && lost == Flush(output, 0, write).disconnected
  {
    rest := output;
    lost := disconnected;
    var calls := 0;
    while |rest| > 0 && bytesToWrite < 256 && !lost
      invariant !disconnected && bytesToWrite < 256 ==> !lost
      invariant !disconnected && bytesToWrite < 256 ==>
        Flush(rest, calls, write).rest == Flush(output, 0, write).rest &&
        Flush(rest, calls, write).disconnected == Flush(output, 0, write).disconnected
      invariant disconnected || bytesToWrite >= 256 ==> rest == output && lost == disconnected
      decreases |rest|
    {
      var chunk := Take256(rest);
      match write(calls, chunk) {
        case Wrote(n) =>
          rest := rest[n..];
          calls := calls + 1;
        case WriteTimedOut =>
          break;
        case WriteFailed =>
          lost := true;
          break;
      }
    }
  }

  /**
   * The output queue after `update_buffers`, given whether a port is held
   * and the `bytes_to_write()` answer (None for an error).
   */
  function Drained(held: bool, output: seq<byte>, bytesToWrite: Option<nat>, write: WriteOracle): (rest: seq<byte>)
    requires Progressing(write)
    ensures exists sent :: output == sent + rest
  {
    if !held || bytesToWrite.None? || bytesToWrite.value >= 256 then
      assert output == [] + output;
      output
    else Flush(output, 0, write).rest
  }

  /** Whether the port is still held after `update_buffers`. */
  function StillConnected(held: bool, output: seq<byte>, bytesToWrite: Option<nat>, write: WriteOracle): (r: bool)
    requires Progressing(write)
    ensures r ==> held && bytesToWrite.Some?
    ensures held && bytesToWrite.Some? && bytesToWrite.value < 256 ==>
      (r <==> Drained(held, output, bytesToWrite, write) == [] ||
              write(Flush(output, 0, write).calls, Take256(Flush(output, 0, write).rest)) != WriteFailed)
  {
    held && bytesToWrite.Some? && (bytesToWrite.value >= 256 || !Flush(output, 0, write).disconnected)
  }

  // ---------------------------------------------------------------------
  // Lines
  // ---------------------------------------------------------------------

  /**
   * One item of a line-framed serial stream as the desk service's actors
   * receive it: a line with its newline removed, a framing error, or the
   * start or end of the stream.
   */
  datatype StreamItem = Line(text: string) | LineError | Started | Finished

  /** A complete line: ends with its only newline. */
  predicate IsLine(line: seq<byte>)
  {
    |line| > 0 && line[|line| - 1] == NEWLINE && NoNewline(line[..|line| - 1])
  }

  function Concat(lines: seq<seq<byte>>): seq<byte>
  {
    if |lines| == 0 then [] else lines[0] + Concat(lines[1..])
  }

  datatype Lines = Lines(complete: seq<seq<byte>>, partial: seq<byte>)

  /**
   * The complete lines of a buffer in arrival order, and the trailing
   * partial line that stays queued.
   */
  function SplitLines(buffer: seq<byte>): (r: Lines)
    ensures Concat(r.complete) + r.partial == buffer
    ensures AllLines(r.complete)
    ensures NoNewline(r.partial)
    decreases |buffer|
  {
    match FirstNewline(buffer)
      case None => Lines([], buffer)
      case Some(k) =>
        var line := buffer[..k + 1];
        var more := SplitLines(buffer[k + 1..]);
        assert IsLine(line) by {
          assert line[..|line| - 1] == buffer[..k];
        }
        AllLinesCons(line, more.complete);
        SplitStep(buffer, k, more.complete, more.partial);
        Lines([line] + more.complete, more.partial)
  }

  /** Unfolding `SplitLines` once: the first line, then the lines of the rest. */
  lemma SplitFirstLine(buffer: seq<byte>, k: nat)
    requires FirstNewline(buffer) == Some(k)
    ensures IsLine(buffer[..k + 1])
    ensures SplitLines(buffer) ==
      Lines([buffer[..k + 1]] + SplitLines(buffer[k + 1..]).complete, SplitLines(buffer[k + 1..]).partial)
  {
    assert buffer[..k + 1][..k] == buffer[..k];
  }

  lemma SplitStep(buffer: seq<byte>, k: nat, lines: seq<seq<byte>>, partial: seq<byte>)
    requires k < |buffer| && Concat(lines) + partial == buffer[k + 1..]
    ensures Concat([buffer[..k + 1]] + lines) + partial == buffer
  {
    ConcatCons(buffer[..k + 1], lines);
    assert buffer == buffer[..k + 1] + buffer[k + 1..];
  }

  lemma ConcatCons(line: seq<byte>, lines: seq<seq<byte>>)
    ensures Concat([line] + lines) == line + Concat(lines)
  {
    assert ([line] + lines)[1..] == lines;
  }

  predicate AllLines(lines: seq<seq<byte>>)
  {
    forall i :: 0 <= i < |lines| ==> IsLine(lines[i])
  }

  lemma AllLinesCons(line: seq<byte>, lines: seq<seq<byte>>)
    requires IsLine(line) && AllLines(lines)
    ensures AllLines([line] + lines)
  {
    forall i | 0 <= i < |[line] + lines| ensures IsLine(([line] + lines)[i]) {
      if i > 0 {
        assert ([line] + lines)[i] == lines[i - 1];
      }
    }
  }

  /** The first newline is at `k` when `s[k]` is one and none comes before. */
  lemma {:induction false} FirstNewlineAt(s: seq<byte>, k: nat)
    requires k < |s| && s[k] == NEWLINE && NoNewline(s[..k])
    ensures FirstNewline(s) == Some(k)
    decreases k
  {
    if k > 0 {
      assert s[0] == s[..k][0];
      assert s[1..][..k - 1] == s[1..k];
      FirstNewlineAt(s[1..], k - 1);
    }
  }

  /** Any split into complete lines and a newline-free rest is `SplitLines`. */
  lemma {:induction false} SplitLinesUnique(buffer: seq<byte>, lines: seq<seq<byte>>, partial: seq<byte>)
    requires Concat(lines) + partial == buffer
    requires AllLines(lines)
    requires NoNewline(partial)
    ensures SplitLines(buffer) == Lines(lines, partial)
    decreases |lines|
  {
    if |lines| == 0 {
      assert buffer == partial;
    } else {
      var line := lines[0];
      var k := |line| - 1;
      assert buffer == line + (Concat(lines[1..]) + partial);
      assert buffer[..k] == line[..k];
      FirstNewlineAt(buffer, k);
      assert buffer[k + 1..] == Concat(lines[1..]) + partial;
      SplitLinesUnique(buffer[k + 1..], lines[1..], partial);
    }
  }

  /** `send_message`: the dump followed by a newline. */
  function Framed(text: seq<byte>): seq<byte>
  {
    text + [NEWLINE]
  }

  lemma ConcatAppend(lines: seq<seq<byte>>, line: seq<byte>)
    ensures Concat(lines + [line]) == Concat(lines) + line
  {
    if |lines| > 0 {
      assert (lines + [line])[1..] == lines[1..] + [line];
    }
  }

  /**
   * Appending a framed message to a queue of complete lines adds exactly
   * that message as one more line, so the reader on the other side sees
   * the messages in order, one per line.
   */
  lemma {:induction false} FramedAppendsOneLine(buffer: seq<byte>, text: seq<byte>)
    requires SplitLines(buffer).partial == []
    requires NoNewline(text)
    ensures SplitLines(buffer + Framed(text)) == Lines(SplitLines(buffer).complete + [Framed(text)], [])
  {
    var lines := SplitLines(buffer).complete;
    ConcatAppend(lines, Framed(text));
    assert Framed(text)[..|Framed(text)| - 1] == text;
    SplitLinesUnique(buffer + Framed(text), lines + [Framed(text)], []);
  }

  /** What a run of `send_message` calls appends to the output queue. */
  function Transcript(messages: seq<Json>, dump: Json -> seq<byte>): seq<byte>
  {
    if |messages| == 0 then []
    else Transcript(messages[..|messages| - 1], dump) + Framed(dump(messages[|messages| - 1]))
  }

  lemma TranscriptSnoc(messages: seq<Json>, k: nat, dump: Json -> seq<byte>)
    requires k < |messages|
    ensures Transcript(messages[..k + 1], dump) == Transcript(messages[..k], dump) + Framed(dump(messages[k]))
  {
    assert messages[..k + 1][..k] == messages[..k];
  }

  lemma TranscriptAppend(messages: seq<Json>, message: Json, dump: Json -> seq<byte>)
    ensures Transcript(messages + [message], dump) == Transcript(messages, dump) + Framed(dump(message))
  {
    assert (messages + [message])[..|messages|] == messages;
  }

  /** The lines a reader sees for a run of messages: one per message. */
  function FramedAll(messages: seq<Json>, dump: Json -> seq<byte>): (r: seq<seq<byte>>)
    ensures |r| == |messages|
    ensures forall k :: 0 <= k < |messages| ==> r[k] == Framed(dump(messages[k]))
  {
    seq(|messages|, k requires 0 <= k < |messages| => Framed(dump(messages[k])))
  }

  /**
   * With a serialiser that writes no raw newline, a queue of whole lines
   * followed by a transcript splits into the old lines and then exactly
   * one line per message, in order, with nothing left over.
   */
  lemma {:induction false} TranscriptLines(buffer: seq<byte>, messages: seq<Json>, dump: Json -> seq<byte>)
    requires CompactDump(dump)
    requires SplitLines(buffer).partial == []
    ensures SplitLines(buffer + Transcript(messages, dump)) ==
      Lines(SplitLines(buffer).complete + FramedAll(messages, dump), [])
    decreases |messages|
  {
    if |messages| > 0 {
      TranscriptLines(buffer, messages[..|messages| - 1], dump);
      TranscriptStep(buffer, messages, dump);
    } else {
      assert buffer + Transcript(messages, dump) == buffer;
      assert SplitLines(buffer).complete + FramedAll(messages, dump) == SplitLines(buffer).complete;
    }
  }

  lemma TranscriptStep(buffer: seq<byte>, messages: seq<Json>, dump: Json -> seq<byte>)
    requires |messages| > 0
    requires NoNewline(dump(messages[|messages| - 1]))
    requires SplitLines(buffer + Transcript(messages[..|messages| - 1], dump)) ==
      Lines(SplitLines(buffer).complete + FramedAll(messages[..|messages| - 1], dump), [])
    ensures SplitLines(buffer + Transcript(messages, dump)) ==
      Lines(SplitLines(buffer).complete + FramedAll(messages, dump), [])
  {
    var front := messages[..|messages| - 1];
    var text := dump(messages[|messages| - 1]);
    var lines := SplitLines(buffer).complete;
    var framed := FramedAll(front, dump);
    var before := buffer + Transcript(front, dump);
    AppendAssoc(buffer, Transcript(front, dump), Framed(text));
    FramedAppendsOneLine(before, text);
    FramedAllSnoc(messages, dump);
    AppendAssoc(lines, framed, [Framed(text)]);
  }

  lemma FramedAllSnoc(messages: seq<Json>, dump: Json -> seq<byte>)
    requires |messages| > 0
    ensures FramedAll(messages[..|messages| - 1], dump) + [Framed(dump(messages[|messages| - 1]))] ==
      FramedAll(messages, dump)
  {
    var n := |messages|;
    var a := FramedAll(messages[..n - 1], dump) + [Framed(dump(messages[n - 1]))];
    var b := FramedAll(messages, dump);
    forall k | 0 <= k < n
      ensures a[k] == b[k]
    {
      if k < n - 1 {
        assert messages[..n - 1][k] == messages[k];
      }
    }
  }

  lemma AppendAssoc<T>(a: seq<T>, b: seq<T>, c: seq<T>)
    ensures a + b + c == a + (b + c)
  {
  }
}
