/**
 * The Circuit Playground's firmware main loop: button A toggles the
 * reading display on a rising edge, and about once a second the board
 * writes its heartbeat `c\n` followed by `ra1<raw touch value>\n` to the
 * data serial port.
 *
 * Each hardware read of the button is a parameter (the loop reads it up
 * to three times per pass). Time is counted in the loop's 10 ms sleeps;
 * the float accumulator's rounding and the NeoPixel display are not
 * modelled.
 */
module PlaygroundFirmware {
  import opened Common
  import opened Serial
  import DeskCircuitPlayground

  /** `time_since_update >= 1` after this many 10 ms sleeps. */
  const TICKS_PER_UPDATE: nat := 100

  /** `'ra1' + str(raw_value) + '\n'`: one line, which the desk host reads as the reading. */
  function ReadingLine(raw: nat): (line: seq<byte>)
    ensures IsLine(line)
    ensures raw < U32_LIMIT ==> DeskCircuitPlayground.Classify(line) == DeskCircuitPlayground.Reading(raw)
  {
    var line := DeskCircuitPlayground.READING_PREFIX + NatText(raw) + [NEWLINE];
    assert line[..|line| - 1] == DeskCircuitPlayground.READING_PREFIX + NatText(raw);
    if raw < U32_LIMIT then
      DeskCircuitPlayground.ReadingRoundTrip(raw);
      line
    else
      line
  }

  /** What one update writes: two whole lines, the heartbeat and then the readings line. */
  function UpdateBytes(raw: nat): (bytes: seq<byte>)
    ensures AllLines([DeskCircuitPlayground.PLAYGROUND_GREETING, ReadingLine(raw)])
    ensures Concat([DeskCircuitPlayground.PLAYGROUND_GREETING, ReadingLine(raw)]) == bytes
  {
    var greeting := DeskCircuitPlayground.PLAYGROUND_GREETING;
    var lines: seq<seq<byte>> := [greeting, ReadingLine(raw)];
    assert greeting[..|greeting| - 1] == [99];
    assert IsLine(greeting);
    var tail: seq<seq<byte>> := [];
    assert lines[1..] == [ReadingLine(raw)] && lines[1..][1..] == tail;
    ConcatCons(ReadingLine(raw), tail);
    ConcatCons(greeting, [ReadingLine(raw)]);
    assert [greeting] + [ReadingLine(raw)] == lines;
    greeting + ReadingLine(raw)
  }

  /**
   * The desk host splits one update into exactly two lines, skips the
   * first as the greeting and reads the raw value back from the second.
   */
  lemma UpdateReadsBack(raw: nat)
    requires raw < U32_LIMIT
    ensures SplitLines(UpdateBytes(raw)) == Lines([DeskCircuitPlayground.PLAYGROUND_GREETING, ReadingLine(raw)], [])
    ensures DeskCircuitPlayground.Classify(DeskCircuitPlayground.PLAYGROUND_GREETING).Greeting?
    ensures DeskCircuitPlayground.Classify(ReadingLine(raw)) == DeskCircuitPlayground.Reading(raw)
  {
    var greeting := DeskCircuitPlayground.PLAYGROUND_GREETING;
    var lines: seq<seq<byte>> := [greeting, ReadingLine(raw)];
    assert greeting[..|greeting| - 1] == [99];
    assert Ascii(greeting);
    AsciiIsUtf8(greeting);
    SplitLinesUnique(UpdateBytes(raw), lines, []);
  }

  /**
   * The toggle rule: flip exactly when the first read differs from the
   * last pass and the second reads pressed; a released button never flips.
   */
  function Toggled(show: bool, previous: bool, first: bool, second: bool): (r: bool)
    ensures r != show <==> first != previous && second
    ensures !second ==> r == show
  {
    if first != previous && second then !show else show
  }

  /** With a button that reads the same throughout a pass, only a rising edge toggles. */
  lemma ToggleOnRisingEdge(show: bool, previous: bool, button: bool)
    ensures Toggled(show, previous, button, button) != show <==> button && !previous
  {
  }

  class Playground {
    var showReadings: bool
    var previousButton: bool
    /** `time_since_update` in 10 ms sleeps. */
    var ticks: nat
    /** Everything written to the data port, in order. */
    var written: seq<byte>

    constructor()
      ensures !showReadings && !previousButton && ticks == 0 && written == []
    {
      showReadings := false;
      previousButton := false;
      ticks := 0;
      written := [];
    }

    /**
     * One pass of the main loop. `first` and `second` are the two reads of
     * `button.value` in the toggle test (the second happens only when the
     * first differs from the previous value), `last` the read stored as
     * the previous value, and `raw` the touch reading sent on an update.
     */
    method Step(first: bool, second: bool, last: bool, raw: nat)
      requires ticks < TICKS_PER_UPDATE
      modifies this
      ensures showReadings == Toggled(old(showReadings), old(previousButton), first, second)
      ensures previousButton == last
      ensures ticks < TICKS_PER_UPDATE
      ensures old(ticks) + 1 == TICKS_PER_UPDATE ==> ticks == 0 && written == old(written) + UpdateBytes(raw)
      ensures old(ticks) + 1 < TICKS_PER_UPDATE ==> ticks == old(ticks) + 1 && written == old(written)
    {
      if first != previousButton && second {
        showReadings := !showReadings;
      }
      previousButton := last;
      ticks := ticks + 1;
      if ticks >= TICKS_PER_UPDATE {
        ticks := 0;
        written := written + DeskCircuitPlayground.PLAYGROUND_GREETING;
        written := written + ReadingLine(raw);
      }
    }
  }
}
