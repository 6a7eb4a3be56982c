/**
 * The desktop host's session with the Think Ink display (`ThinkInk` in the
 * raylib host library): a serial port found by probing for the display's
 * `t\n` greeting, an output queue of newline-terminated JSON messages that
 * `update_buffers` drains at most 256 bytes per write, a light-level
 * message once a minute, and a redraw of the e-paper image once a day.
 */
module ThinkInkSession {
  import opened Common
  import opened Json
  import opened Serial
  import opened Eink

  const THINKINK_PID: int := 0x80F1
  const THINKINK_GREETING: seq<byte> := [116, 10]
  const IMAGE_WIDTH: nat := 296
  const IMAGE_HEIGHT: nat := 128
  /** The fixed `speed` of the periodic light message. */
  const LIGHT_SPEED: nat := 100

  datatype DrawOutcome =
    | Kept
      /** The image was regenerated; `packed` is what went out as `displayData`. */
    | Redrawn(packed: seq<bv8>)
      /** `unwrap()` of a date string that `update` has not set yet. */
    | Panicked

  class ThinkInk {
    /** The name of the open port, if any. */
    var port: Option<string>
    var outputBuffer: seq<byte>
    var lastUpdate: Option<real>
    var currentDateString: Option<string>
    var lastDateString: Option<string>

    /** `new`: no port, empty queue, and the date last drawn as saved in `date.txt`. */
    constructor(savedDate: Option<string>)
      ensures port == None && outputBuffer == [] && lastUpdate == None
      ensures currentDateString == None && lastDateString == savedDate
    {
      port := None;
      outputBuffer := [];
      lastUpdate := None;
      currentDateString := None;
      lastDateString := savedDate;
    }

    /**
     * `open_serial`: with no port held, keep the first vid/pid-matching
     * port whose first read is exactly `t\n`. The output queue is kept, so
     * messages queued while disconnected go out after reconnecting.
     */
    method OpenSerial(ports: seq<PortInfo>)
      modifies this
      ensures old(port).Some? ==> port == old(port)
      ensures old(port).None? ==>
        match FirstAccepted(ports, ADAFRUIT_VID, THINKINK_PID, THINKINK_GREETING)
          case None => port == None
          case Some(i) => port == Some(ports[i].name)
      ensures outputBuffer == old(outputBuffer)
      ensures lastUpdate == old(lastUpdate)
      ensures currentDateString == old(currentDateString) && lastDateString == old(lastDateString)
    {
      if port.Some? {
        return;
      }
      var chosen := ProbeGreeting(ports, ADAFRUIT_VID, THINKINK_PID, THINKINK_GREETING);
      if chosen.Some? {
        port := Some(ports[chosen.value].name);
      }
    }

    /**
     * `update_buffers`: `bytesToWrite` is the driver's answer to
     * `bytes_to_write()` (None for an error, which disconnects). The queue
     * loses exactly what the port accepted; a write error other than a
     * time-out drops the port and keeps the queue.
     */
    method UpdateBuffers(bytesToWrite: Option<nat>, write: WriteOracle)
      requires Progressing(write)
      modifies this
      ensures outputBuffer == Drained(old(port).Some?, old(outputBuffer), bytesToWrite, write)
      ensures port.Some? <==> StillConnected(old(port).Some?, old(outputBuffer), bytesToWrite, write)
      ensures port.Some? ==> port == old(port)
      ensures lastUpdate == old(lastUpdate)
      ensures currentDateString == old(currentDateString) && lastDateString == old(lastDateString)
    {
      if port.None? {
        return;
      }
      var disconnected := bytesToWrite.None?;
      var pending := if bytesToWrite.Some? then bytesToWrite.value else 0;
      var rest, lost := WriteLoop(outputBuffer, disconnected, pending, write);
      outputBuffer := rest;
      if lost {
        port := None;
      }
    }

    /** `send_message`: queue the serialised message and a newline. */
    method SendMessage(message: Json, dump: Json -> seq<byte>)
      modifies this
      ensures outputBuffer == old(outputBuffer) + Framed(dump(message))
      ensures port == old(port) && lastUpdate == old(lastUpdate)
      ensures currentDateString == old(currentDateString) && lastDateString == old(lastDateString)
    {
      outputBuffer := outputBuffer + Framed(dump(message));
    }

    /**
     * `update`: drain the queue, then, on the first call and whenever more
     * than 60 seconds have passed since the last refresh, queue one light
     * message (the spline's target value is a parameter) and take today's
     * `%m-%d` text as the current date.
     */
    method Update(now: real, targetValue: nat, today: string,
                  bytesToWrite: Option<nat>, write: WriteOracle, dump: Json -> seq<byte>)
      requires Progressing(write)
      modifies this
      ensures var due := old(lastUpdate).None? || now - old(lastUpdate).value > 60.0;
        (due ==> lastUpdate == Some(now) && currentDateString == Some(today)) &&
        (!due ==> lastUpdate == old(lastUpdate) && currentDateString == old(currentDateString))
      ensures lastDateString == old(lastDateString)
      ensures port.Some? <==> StillConnected(old(port).Some?, old(outputBuffer), bytesToWrite, write)
      ensures var drained := Drained(old(port).Some?, old(outputBuffer), bytesToWrite, write);
        var due := old(lastUpdate).None? || now - old(lastUpdate).value > 60.0;
        outputBuffer == drained + (if due then Framed(dump(LightMessage(targetValue, LIGHT_SPEED))) else [])
    {
      UpdateBuffers(bytesToWrite, write);
      ghost var drained := outputBuffer;
      if lastUpdate.None? || now - lastUpdate.value > 60.0 {
        SendMessage(LightMessage(targetValue, LIGHT_SPEED), dump);
        currentDateString := Some(today);
        lastUpdate := Some(now);
      } else {
        assert outputBuffer == drained + [];
      }
    }

    /**
     * `send_dithered_image`: pack the dithered image and queue one
     * `displayData` message per 256-byte chunk, then `refreshDisplay`.
     * Base64 encoding is a parameter. The packed buffer is returned so the
     * contract can name it.
     */
    method SendDitheredImage(raw: seq<bv8>, base64: seq<bv8> -> string, dump: Json -> seq<byte>)
      returns (data: seq<bv8>)
      requires |raw| == IMAGE_WIDTH * IMAGE_HEIGHT * 2
      modifies this
      ensures |data| == IMAGE_WIDTH * IMAGE_HEIGHT / 4 && PacksPixels(raw, data)
      ensures outputBuffer == old(outputBuffer) + Transcript(ImageMessages(data, base64), dump)
      ensures port == old(port) && lastUpdate == old(lastUpdate)
      ensures currentDateString == old(currentDateString) && lastDateString == old(lastDateString)
    {
      data := PackDitheredImage(raw, IMAGE_WIDTH, IMAGE_HEIGHT);
      SendImageMessages(data, base64, dump);
    }

    /** The chunk loop of `send_dithered_image`, then `refreshDisplay`. */
    method SendImageMessages(data: seq<bv8>, base64: seq<bv8> -> string, dump: Json -> seq<byte>)
      modifies this
      ensures outputBuffer == old(outputBuffer) + Transcript(ImageMessages(data, base64), dump)
      ensures port == old(port) && lastUpdate == old(lastUpdate)
      ensures currentDateString == old(currentDateString) && lastDateString == old(lastDateString)
    {
      var chunks := Chunks(data);
      ghost var messages := ImageMessages(data, base64);
      assert |messages| == |chunks| + 1;
      for index := 0 to |chunks|
        invariant outputBuffer == old(outputBuffer) + Transcript(messages[..index], dump)
        invariant port == old(port) && lastUpdate == old(lastUpdate)
        invariant currentDateString == old(currentDateString) && lastDateString == old(lastDateString)
      {
        var message := DisplayData(CHUNK_SIZE * index, base64(chunks[index]));
        assert messages[index] == message;
        SendNext(old(outputBuffer), messages, index, message, dump);
      }
      SendNext(old(outputBuffer), messages, |chunks|, REFRESH_DISPLAY, dump);
      assert messages[..|chunks| + 1] == messages;
    }

    /** Send the next message of a run: the transcript grows by one message. */
    method SendNext(ghost start: seq<byte>, ghost messages: seq<Json>, k: nat, message: Json, dump: Json -> seq<byte>)
      requires k < |messages| && messages[k] == message
      requires outputBuffer == start + Transcript(messages[..k], dump)
      modifies this
      ensures outputBuffer == start + Transcript(messages[..k + 1], dump)
      ensures port == old(port) && lastUpdate == old(lastUpdate)
      ensures currentDateString == old(currentDateString) && lastDateString == old(lastDateString)
    {
      SendMessage(message, dump);
      TranscriptSnoc(messages, k, dump);
    }

    /**
     * `draw`: when the redraw gate opens, remember today's date (the write
     * to `date.txt` is not modelled) and send the freshly dithered image.
     */
    method Draw(keyTwoPressed: bool, raw: seq<bv8>, base64: seq<bv8> -> string, dump: Json -> seq<byte>)
      returns (outcome: DrawOutcome)
      requires |raw| == IMAGE_WIDTH * IMAGE_HEIGHT * 2
      modifies this
      ensures old(currentDateString).None? <==> outcome.Panicked?
      ensures old(currentDateString).Some? ==>
        (outcome.Redrawn? <==> Redraws(old(lastDateString), old(currentDateString).value, keyTwoPressed))
      ensures outcome.Redrawn? ==>
        lastDateString == currentDateString && |outcome.packed| == IMAGE_WIDTH * IMAGE_HEIGHT / 4 &&
        PacksPixels(raw, outcome.packed) &&
        outputBuffer == old(outputBuffer) + Transcript(ImageMessages(outcome.packed, base64), dump)
      ensures outcome.Kept? ==> lastDateString == old(lastDateString) && outputBuffer == old(outputBuffer)
      ensures currentDateString == old(currentDateString) && port == old(port) && lastUpdate == old(lastUpdate)
    {
      if currentDateString.None? {
        return Panicked;
      }
      if Redraws(lastDateString, currentDateString.value, keyTwoPressed) {
        lastDateString := currentDateString;
        var packed := SendDitheredImage(raw, base64, dump);
        outcome := Redrawn(packed);
      } else {
        outcome := Kept;
      }
    }
  }
}
