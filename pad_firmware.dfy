/**
 * What the two CircuitPython programs of the macro pad share: the first
 * version `code.py` and its successor `macropad/code.py`. That is the key
 * event queue that can be peeked, the reassembly of JSON lines from the
 * data port, Python's reading of a reply, the wrap-around and clamping
 * arithmetic of the menus, the option list built from the time entries,
 * and the handler table of the main loop with its dict merge.
 *
 * The programs work on Python `str`: what one read of the port returns is
 * a decoded chunk of text, and `json.loads` is a parameter.
 */
module PadFirmware {
  import opened Common
  import opened Json
  import opened PadProtocol
  import Serial

  // ---------------------------------------------------------------------
  // Key events
  // ---------------------------------------------------------------------

  /** The twelve keys of the pad, numbered as `key_number`. */
  type KeyNumber = k: int | 0 <= k < 12

  datatype KeyEvent = KeyEvent(key: KeyNumber, pressed: bool)

  /** The event `get_key_event` returns and the queue it leaves behind. */
  datatype Taken = Taken(event: Option<KeyEvent>, queue: seq<KeyEvent>)

  /**
   * `get_key_event(peek)`: the front of `key_event_buffer`, or the
   * hardware's next event when the buffer is empty. A peeked event goes
   * back, at the end of the buffer.
   */
  function TakeKeyEvent(queue: seq<KeyEvent>, peek: bool, hardware: Option<KeyEvent>): (r: Taken)
    ensures |queue| > 0 ==> r.event == Some(queue[0])
    ensures |queue| == 0 ==> r.event == hardware
  {
    var event := if |queue| > 0 then Some(queue[0]) else hardware;
    var rest := if |queue| > 0 then queue[1..] else [];
    Taken(event, if peek && event.Some? then rest + [event.value] else rest)
  }

  /**
   * No key event is lost or made up: what was queued plus what the
   * hardware handed over is what stays queued plus what was consumed.
   */
  lemma TakeKeepsEvents(queue: seq<KeyEvent>, peek: bool, hardware: Option<KeyEvent>)
    ensures var r := TakeKeyEvent(queue, peek, hardware);
      multiset(queue) + (if |queue| == 0 && hardware.Some? then multiset{hardware.value} else multiset{}) ==
      multiset(r.queue) + (if peek || r.event.None? then multiset{} else multiset{r.event.value})
  {
    if |queue| > 0 {
      assert queue == [queue[0]] + queue[1..];
    }
  }

  /**
   * Peeking and then taking returns the same event twice, whatever the
   * hardware reports in between, and the queue never holds more than one
   * event.
   */
  lemma PeekThenTake(queue: seq<KeyEvent>, first: Option<KeyEvent>, second: Option<KeyEvent>)
    requires |queue| <= 1
    ensures var peeked := TakeKeyEvent(queue, true, first);
      |peeked.queue| <= 1 &&
      (peeked.event.Some? ==>
        TakeKeyEvent(peeked.queue, false, second) == Taken(peeked.event, [])) &&
      (peeked.event.None? ==>
        peeked.queue == [] && TakeKeyEvent(peeked.queue, false, second) == Taken(second, []))
  {
  }

  // ---------------------------------------------------------------------
  // Lines from the host
  // ---------------------------------------------------------------------

  /** `text.find('\n')`: the first newline, or None (Python's -1). */
  function LineBreak(text: string): (r: Option<nat>)
    ensures r.None? <==> '\n' !in text
    ensures r.Some? ==> r.value < |text| && text[r.value] == '\n' && '\n' !in text[..r.value]
  {
    if |text| == 0 then None
    else if text[0] == '\n' then Some(0)
    else
      assert text == [text[0]] + text[1..];
      match LineBreak(text[1..])
        case None => None
        case Some(k) =>
          assert text[..k + 1] == [text[0]] + text[1..][..k];
          Some(k + 1)
  }

  /** The first newline is the one with no newline before it. */
  lemma LineBreakAt(text: string, j: nat)
    requires j < |text| && text[j] == '\n' && '\n' !in text[..j]
    ensures LineBreak(text) == Some(j)
  {
  }

  /** `message_buffer` after one `get_message`, the line it consumed, and the message. */
  datatype Received = Received(buffer: string, line: Option<string>, message: Option<Json>)

  /**
   * `get_message`: append what the port returned, then take the text up
   * to the first newline and parse it. Without a newline nothing is
   * consumed; a line that does not parse is consumed all the same.
   */
  function Receive(buffer: string, chunk: string, parse: string -> Option<Json>): (r: Received)
    ensures r.line.None? <==> '\n' !in buffer + chunk
    ensures r.line.None? ==> r.buffer == buffer + chunk && r.message.None?
    ensures r.line.Some? ==>
      buffer + chunk == r.line.value + "\n" + r.buffer && '\n' !in r.line.value &&
      r.message == parse(r.line.value)
  {
    var text := buffer + chunk;
    match LineBreak(text)
      case None => Received(text, None, None)
      case Some(index) =>
        assert text == text[..index] + "\n" + text[index + 1..];
        Received(text[index + 1..], Some(text[..index]), parse(text[..index]))
  }

  /** The chunks one after the other. */
  function Flatten(chunks: seq<string>): string
  {
    if |chunks| == 0 then "" else chunks[0] + Flatten(chunks[1..])
  }

  /** Lines with their newlines put back. */
  function Joined(lines: seq<string>): string
  {
    if |lines| == 0 then "" else lines[0] + "\n" + Joined(lines[1..])
  }

  /** The lines a run of `get_message` calls consumes, one chunk per call, and the text left over. */
  datatype Reassembly = Reassembly(lines: seq<string>, rest: string)

  /** At most one line per call of `get_message`. */
  function Reassemble(buffer: string, chunks: seq<string>, parse: string -> Option<Json>): (r: Reassembly)
    ensures |r.lines| <= |chunks|
    decreases |chunks|
  {
    if |chunks| == 0 then Reassembly([], buffer)
    else
      var step := Receive(buffer, chunks[0], parse);
      var later := Reassemble(step.buffer, chunks[1..], parse);
      Reassembly((if step.line.Some? then [step.line.value] else []) + later.lines, later.rest)
  }

  /**
   * Reassembly loses and reorders nothing: the text received is exactly
   * the lines consumed, each with its newline, followed by what is still
   * buffered, and no consumed line holds a newline.
   */
  lemma ReassembleKeepsText(buffer: string, chunks: seq<string>, parse: string -> Option<Json>)
    ensures var r := Reassemble(buffer, chunks, parse);
      buffer + Flatten(chunks) == Joined(r.lines) + r.rest &&
      forall k :: 0 <= k < |r.lines| ==> '\n' !in r.lines[k]
  {
    ReassembleJoins(buffer, chunks, parse);
    ReassembleLinesClean(buffer, chunks, parse);
  }

  lemma {:induction false} ReassembleJoins(buffer: string, chunks: seq<string>, parse: string -> Option<Json>)
    ensures var r := Reassemble(buffer, chunks, parse);
      buffer + Flatten(chunks) == Joined(r.lines) + r.rest
    decreases |chunks|
  {
    if |chunks| > 0 {
      var step := Receive(buffer, chunks[0], parse);
      var later := Reassemble(step.buffer, chunks[1..], parse);
      ReassembleJoins(step.buffer, chunks[1..], parse);
      var r := Reassemble(buffer, chunks, parse);
      assert buffer + Flatten(chunks) == (buffer + chunks[0]) + Flatten(chunks[1..]);
      if step.line.Some? {
        var line := step.line.value;
        assert r.lines == [line] + later.lines;
        assert r.lines[1..] == later.lines;
        assert Joined(r.lines) == line + "\n" + Joined(later.lines);
        PrefixLine(line, step.buffer, Flatten(chunks[1..]), Joined(later.lines), later.rest);
      } else {
        assert r.lines == later.lines;
      }
    }
  }

  /** No line of a run holds a newline. */
  predicate LinesClean(lines: seq<string>)
  {
    forall k :: 0 <= k < |lines| ==> '\n' !in lines[k]
  }

  lemma {:induction false} ReassembleLinesClean(buffer: string, chunks: seq<string>, parse: string -> Option<Json>)
    ensures LinesClean(Reassemble(buffer, chunks, parse).lines)
    decreases |chunks|
  {
    if |chunks| > 0 {
      var step := Receive(buffer, chunks[0], parse);
      var later := Reassemble(step.buffer, chunks[1..], parse);
      ReassembleLinesClean(step.buffer, chunks[1..], parse);
      var r := Reassemble(buffer, chunks, parse);
      if step.line.Some? {
        assert r.lines == [step.line.value] + later.lines;
        forall k | 0 <= k < |r.lines|
          ensures '\n' !in r.lines[k]
        {
          if k > 0 {
            assert r.lines[k] == later.lines[k - 1];
          }
        }
      } else {
        assert r.lines == later.lines;
      }
    }
  }

  lemma PrefixLine(line: string, buffered: string, received: string, lines: string, rest: string)
    requires buffered + received == lines + rest
    ensures (line + "\n" + buffered) + received == (line + "\n" + lines) + rest
  {
    assert (line + "\n" + buffered) + received == (line + "\n") + (buffered + received);
    assert (line + "\n" + lines) + rest == (line + "\n") + (lines + rest);
  }

  /**
   * `wait_for_reply_animated`: one `get_message` per chunk until a message
   * arrives. The clock passes the deadline on the last chunk, so the wait
   * ends there with None when nothing came.
   */
  function Await(buffer: string, chunks: seq<string>, parse: string -> Option<Json>): (r: Received)
    requires |chunks| > 0
    ensures r.message.Some? ==> r.line.Some? && r.message == parse(r.line.value) && '\n' !in r.line.value
    ensures r.line.None? ==> r.message.None?
    decreases |chunks|
  {
    var step := Receive(buffer, chunks[0], parse);
    if step.message.Some? || |chunks| == 1 then step else Await(step.buffer, chunks[1..], parse)
  }

  /** A line already buffered is what the next `get_message` consumes, whatever the chunk. */
  lemma ReceiveFirstLine(line: string, rest: string, chunk: string, parse: string -> Option<Json>)
    requires '\n' !in line
    ensures Receive(line + "\n" + rest, chunk, parse) == Received(rest + chunk, Some(line), parse(line))
  {
    var text := line + "\n" + rest + chunk;
    assert text == line + "\n" + (rest + chunk);
    assert text[..|line|] == line && text[|line| + 1..] == rest + chunk;
    LineBreakAt(text, |line|);
  }

  /** A reply already buffered when the wait begins is returned by its first poll. */
  lemma AwaitFindsBufferedReply(line: string, rest: string, chunks: seq<string>, parse: string -> Option<Json>)
    requires |chunks| > 0 && '\n' !in line && parse(line).Some?
    ensures Await(line + "\n" + rest, chunks, parse).message == parse(line)
  {
    ReceiveFirstLine(line, rest, chunks[0], parse);
  }

  /** When no newline arrives, the wait returns None and keeps everything it read. */
  lemma {:induction false} AwaitTimesOut(buffer: string, chunks: seq<string>, parse: string -> Option<Json>)
    requires |chunks| > 0 && '\n' !in buffer + Flatten(chunks)
    ensures Await(buffer, chunks, parse) == Received(buffer + Flatten(chunks), None, None)
    decreases |chunks|
  {
    assert buffer + Flatten(chunks) == (buffer + chunks[0]) + Flatten(chunks[1..]);
    if |chunks| > 1 {
      AwaitTimesOut(buffer + chunks[0], chunks[1..], parse);
    } else {
      assert Flatten(chunks[1..]) == "";
    }
  }

  // ---------------------------------------------------------------------
  // Replies, as Python reads them
  // ---------------------------------------------------------------------

  /** Python's truth value of a parsed JSON value (`not message`). */
  predicate Truthy(value: Json)
  {
    match value
      case JNull => false
      case JBool(b) => b
      case JNumber(n) => n != 0
      case JFloat(x) => x != 0.0
      case JString(s) => s != ""
      case JArray(items) => items != []
      case JObject(fields) => fields != []
  }

  /** `value[key]` on a parsed value: None where Python raises (not a dict, or no such key). */
  function Index(value: Json, key: string): (r: Option<Json>)
    ensures r.Some? <==> value.JObject? && HasKey(value.fields, key)
    ensures r.Some? ==> r.value == Get(value, key)
  {
    if value.JObject? && HasKey(value.fields, key) then Some(Get(value, key)) else None
  }

  /** What a handler makes of the reply it waited for. */
  datatype Verdict = Failed | Succeeded | Crashed

  /**
   * `if not message or message['kind'] != 'success'`: the error flash, the
   * success flash, or an exception when a truthy reply has no `kind`.
   */
  function ReplyVerdict(message: Option<Json>): (v: Verdict)
    ensures v.Succeeded? <==> message.Some? && Index(message.value, "kind") == Some(JString("success"))
    ensures v.Crashed? <==> message.Some? && Truthy(message.value) && Index(message.value, "kind").None?
  {
    if message.None? || !Truthy(message.value) then Failed
    else
      match Index(message.value, "kind")
        case None => Crashed
        case Some(kind) => if kind != JString("success") then Failed else Succeeded
  }

  /** The host's two final replies and a timeout are read as intended, without an exception. */
  lemma HostRepliesUnderstood()
    ensures ReplyVerdict(Some(SUCCESS)) == Succeeded
    ensures ReplyVerdict(Some(ERROR)) == Failed
    ensures ReplyVerdict(None) == Failed
  {
    assert SUCCESS.fields[0].0 == "kind" && ERROR.fields[0].0 == "kind";
  }

  // ---------------------------------------------------------------------
  // Menu arithmetic
  // ---------------------------------------------------------------------

  /** `index % length` for a positive length: Python floors, and so does `%` here. */
  function Wrap(index: int, length: int): (r: int)
    requires length > 0
    ensures 0 <= r < length
  {
    index % length
  }

  /** A positive multiple of a positive length is at least that length. */
  lemma {:induction false} MultipleAtLeast(factor: int, length: int)
    requires factor >= 1 && length > 0
    ensures factor * length >= length
    decreases factor
  {
    if factor > 1 {
      MultipleAtLeast(factor - 1, length);
      assert factor * length == (factor - 1) * length + length;
    }
  }

  /** The remainder is the one value in range that differs from the index by a multiple of the length. */
  lemma RemainderUnique(index: int, quotient: int, remainder: int, length: int)
    requires length > 0 && 0 <= remainder < length
    requires index == quotient * length + remainder
    ensures Wrap(index, length) == remainder
  {
    var q := index / length;
    var r := index % length;
    assert index == q * length + r;
    if quotient > q {
      assert (quotient - q) * length == r - remainder;
      MultipleAtLeast(quotient - q, length);
    } else if quotient < q {
      assert (q - quotient) * length == remainder - r;
      MultipleAtLeast(q - quotient, length);
    }
  }

  /** Adding whole turns does not change the remainder. */
  lemma WrapTurns(index: int, turns: int, length: int)
    requires length > 0
    ensures Wrap(index + turns * length, length) == Wrap(index, length)
  {
    var q := index / length;
    assert index == q * length + index % length;
    assert index + turns * length == (q + turns) * length + index % length;
    RemainderUnique(index + turns * length, q + turns, index % length, length);
  }

  /**
   * Turning the selection by some steps and back again returns to the
   * option it started from, and a whole turn of the list changes nothing.
   */
  lemma TurnBack(selected: int, steps: int, length: int)
    requires 0 <= selected < length
    ensures Wrap(Wrap(selected + steps, length) - steps, length) == selected
    ensures Wrap(selected + length, length) == selected
  {
    var q := (selected + steps) / length;
    var turned := Wrap(selected + steps, length);
    assert selected + steps == q * length + turned;
    assert turned - steps == selected + (-q) * length;
    RemainderUnique(selected, 0, selected, length);
    WrapTurns(selected, -q, length);
    WrapTurns(selected, 1, length);
  }

  /** `-int(index / 4) * pageHeight`: the list scrolls by pages of four rows. */
  function PageOffset(index: nat, pageHeight: int): (r: int)
    requires pageHeight > 0
    ensures r <= 0
    ensures r == 0 <==> index < 4
  {
    var page := index / 4;
    assert page > 0 ==> page * pageHeight >= pageHeight;
    -page * pageHeight
  }

  const MAX_ADJUSTMENT: int := 45

  /** `min(45, max(-45, value))`. */
  function ClampMinutes(value: int): (r: int)
    ensures -MAX_ADJUSTMENT <= r <= MAX_ADJUSTMENT
    ensures -MAX_ADJUSTMENT <= value <= MAX_ADJUSTMENT ==> r == value
  {
    if value > MAX_ADJUSTMENT then MAX_ADJUSTMENT
    else if value < -MAX_ADJUSTMENT then -MAX_ADJUSTMENT
    else value
  }

  function Distance(a: int, b: int): nat
  {
    if a >= b then a - b else b - a
  }

  /** The clamped value is the allowed adjustment nearest to the one asked for. */
  lemma ClampIsNearest(value: int, other: int)
    requires -MAX_ADJUSTMENT <= other <= MAX_ADJUSTMENT
    ensures Distance(ClampMinutes(value), value) <= Distance(other, value)
  {
  }

  // ---------------------------------------------------------------------
  // Options
  // ---------------------------------------------------------------------

  /** Ascending in Python's string order, each option once. */
  predicate StrictlySorted(options: seq<string>)
  {
    forall i, j :: 0 <= i < j < |options| ==> NameLess(options[i], options[j])
  }

  /** One step of building `sorted(set(entries))`: insert an entry unless it is there. */
  function Insert(sorted: seq<string>, entry: string): (r: seq<string>)
    ensures entry in r && |sorted| <= |r| <= |sorted| + 1
  {
    if |sorted| == 0 then [entry]
    else if sorted[0] == entry then sorted
    else if NameLess(entry, sorted[0]) then [entry] + sorted
    else [sorted[0]] + Insert(sorted[1..], entry)
  }

  lemma {:induction false} InsertKeepsOrder(sorted: seq<string>, entry: string)
    requires StrictlySorted(sorted)
    ensures StrictlySorted(Insert(sorted, entry))
    ensures forall name :: name in Insert(sorted, entry) <==> name in sorted || name == entry
  {
    if |sorted| == 0 || sorted[0] == entry {
    } else if NameLess(entry, sorted[0]) {
      var r := [entry] + sorted;
      forall i, j | 0 <= i < j < |r|
        ensures NameLess(r[i], r[j])
      {
        if i == 0 && j > 1 {
          NameLessTransitive(entry, sorted[0], sorted[j - 1]);
        }
      }
    } else {
      InsertKeepsOrder(sorted[1..], entry);
      var inner := Insert(sorted[1..], entry);
      var r := [sorted[0]] + inner;
      NameLessTotal(entry, sorted[0]);
      forall i, j | 0 <= i < j < |r|
        ensures NameLess(r[i], r[j])
      {
        if i == 0 {
          assert r[j] in inner;
          if r[j] != entry {
            var k :| 0 <= k < |sorted[1..]| && sorted[1..][k] == r[j];
            assert sorted[k + 1] == r[j];
          }
        } else {
          assert r[i] == inner[i - 1] && r[j] == inner[j - 1];
        }
      }
      assert sorted == [sorted[0]] + sorted[1..];
    }
  }

  /** `sorted(set(entries))`. */
  function SortedDistinct(entries: seq<string>): (r: seq<string>)
    ensures |r| <= |entries|
    ensures |r| == 0 <==> |entries| == 0
  {
    if |entries| == 0 then []
    else Insert(SortedDistinct(entries[..|entries| - 1]), entries[|entries| - 1])
  }

  /** The sorted set holds each entry once, in ascending order, and nothing else. */
  lemma {:induction false} SortedDistinctIsSortedSet(entries: seq<string>)
    ensures StrictlySorted(SortedDistinct(entries))
    ensures forall name :: name in SortedDistinct(entries) <==> name in entries
  {
    if |entries| > 0 {
      var front := entries[..|entries| - 1];
      SortedDistinctIsSortedSet(front);
      InsertKeepsOrder(SortedDistinct(front), entries[|entries| - 1]);
      assert entries == front + [entries[|entries| - 1]];
    }
  }

  /**
   * Two strictly sorted lists with the same names are the same list, so
   * the result of `sorted(set(entries))` does not depend on the order in
   * which the set is walked.
   */
  lemma {:induction false} SortedUnique(a: seq<string>, b: seq<string>)
    requires StrictlySorted(a) && StrictlySorted(b)
    requires forall name :: name in a <==> name in b
    ensures a == b
    decreases |a|
  {
    assert |a| > 0 ==> a[0] in b;
    assert |b| > 0 ==> b[0] in a;
    if |a| > 0 && |b| > 0 {
      assert a[0] in b && b[0] in a;
      var i :| 0 <= i < |b| && b[i] == a[0];
      var j :| 0 <= j < |a| && a[j] == b[0];
      if a[0] != b[0] {
        assert i > 0 && j > 0;
        NameLessTransitive(a[0], a[j], b[i]);
        assert NameLess(b[0], b[i]);
        NameLessTransitive(b[0], a[0], b[0]);
        NameLessIrreflexive(b[0]);
      }
      forall name
        ensures name in a[1..] <==> name in b[1..]
      {
        if name in a[1..] {
          var k :| 0 <= k < |a[1..]| && a[1..][k] == name;
          assert NameLess(a[0], a[k + 1]);
          NameLessIrreflexive(name);
          assert name in b && name != b[0];
          var m :| 0 <= m < |b| && b[m] == name;
          assert b[1..][m - 1] == name;
        }
        if name in b[1..] {
          var k :| 0 <= k < |b[1..]| && b[1..][k] == name;
          assert NameLess(b[0], b[k + 1]);
          NameLessIrreflexive(name);
          assert name in a && name != a[0];
          var m :| 0 <= m < |a| && a[m] == name;
          assert a[1..][m - 1] == name;
        }
      }
      SortedUnique(a[1..], b[1..]);
      assert a == [a[0]] + a[1..] && b == [b[0]] + b[1..];
    }
  }

  /**
   * The options `get_time_entries` offers: the sorted distinct
   * descriptions, or the single empty option when there were none.
   */
  function Options(entries: seq<string>): (r: seq<string>)
    ensures |r| > 0 && |r| <= |entries| + 1
    ensures entries == [] ==> r == [""]
    ensures entries != [] ==> r == SortedDistinct(entries)
  {
    var sorted := SortedDistinct(entries);
    if |sorted| == 0 then [""] else sorted
  }

  /** There is always an option to select, they are sorted, and they are the entries. */
  lemma OptionsOfEntries(entries: seq<string>)
    ensures |Options(entries)| > 0 && StrictlySorted(Options(entries))
    ensures |entries| > 0 ==> forall name :: name in Options(entries) <==> name in entries
    ensures |entries| == 0 ==> Options(entries) == [""]
  {
    SortedDistinctIsSortedSet(entries);
    if |entries| > 0 {
      assert entries[0] in SortedDistinct(entries);
    }
  }

  // ---------------------------------------------------------------------
  // The main loop
  // ---------------------------------------------------------------------

  /** The keys of `state_handlers`; the first version knows the first eight. */
  datatype Handler =
    | Sleep
    | GetTimeEntries
    | DrawOptions
    | Command
    | AdjustTime
    | SendStart
    | SendStop
    | SendAdjustTime
    | SendContinue
    | SendSwitchBoseMac
    | SendSwitchBoseFractal
    | SendReadInbox
    | SendClearInbox
    | SendStartClock

  /** The `state` dict of the main loop; `adjust_minutes` is absent until the first adjustment. */
  datatype UiState = UiState(name: Handler, options: seq<string>, selected: int, adjustMinutes: Option<int>)

  /** A handler's result dict: `name` and whichever other keys it returns. */
  datatype Update = Update(name: Handler, options: Option<seq<string>>, selected: Option<int>, adjustMinutes: Option<int>)

  /**
   * `dict(state, **result)`: every key the result carries wins, and every
   * other key keeps the state's value.
   */
  function Merge(state: UiState, update: Update): (r: UiState)
    ensures r.name == update.name
    ensures r.options == (if update.options.Some? then update.options.value else state.options)
    ensures r.selected == (if update.selected.Some? then update.selected.value else state.selected)
    ensures r.adjustMinutes == (if update.adjustMinutes.Some? then update.adjustMinutes else state.adjustMinutes)
  {
    UiState(
      update.name,
      if update.options.Some? then update.options.value else state.options,
      if update.selected.Some? then update.selected.value else state.selected,
      if update.adjustMinutes.Some? then update.adjustMinutes else state.adjustMinutes)
  }

  /**
   * What every handler relies on: an option is selected, an adjustment is
   * within bounds, and `send_adjust_time` finds its `adjust_minutes`.
   */
  predicate Consistent(state: UiState)
  {
    0 <= state.selected < |state.options| &&
    (state.adjustMinutes.Some? ==> -MAX_ADJUSTMENT <= state.adjustMinutes.value <= MAX_ADJUSTMENT) &&
    (state.name == SendAdjustTime ==> state.adjustMinutes.Some?)
  }

  /** What a handler's result must satisfy for the merge to stay consistent. */
  predicate Fits(state: UiState, update: Update)
  {
    var options := if update.options.Some? then update.options.value else state.options;
    (update.options.Some? ==> update.selected.Some?) &&
    (update.selected.Some? ==> 0 <= update.selected.value < |options|) &&
    (update.adjustMinutes.Some? ==> -MAX_ADJUSTMENT <= update.adjustMinutes.value <= MAX_ADJUSTMENT) &&
    (update.name == SendAdjustTime ==> update.adjustMinutes.Some?)
  }

  /** The merge keeps the state consistent, and it keeps every key the result leaves out. */
  lemma MergeKeepsConsistent(state: UiState, update: Update)
    requires Consistent(state) && Fits(state, update)
    ensures Consistent(Merge(state, update))
    ensures update.options.None? ==> Merge(state, update).options == state.options
    ensures update.selected.None? ==> Merge(state, update).selected == state.selected
    ensures update.adjustMinutes.None? ==> Merge(state, update).adjustMinutes == state.adjustMinutes
  {
  }

  /** The state the main loop starts from: load the entries, with one empty option meanwhile. */
  const INITIAL_STATE: UiState := UiState(GetTimeEntries, [""], 0, None)

  lemma InitialStateConsistent()
    ensures Consistent(INITIAL_STATE)
  {
  }

  // ---------------------------------------------------------------------
  // get_time_entries
  // ---------------------------------------------------------------------

  /** The request `get_time_entries` sends. */
  const GET_TIME_ENTRIES: Json := KindOnly("getTimeEntries")

  /** Where the reading loop of `get_time_entries` ended. */
  datatype Collected = Collected(buffer: string, entries: seq<string>, last: Option<Json>, raised: bool)

  /** After one pass of that loop: go on with this buffer and these entries, or stop. */
  datatype CollectStep = Continue(buffer: string, entries: seq<string>) | Done(collected: Collected)

  /**
   * One pass of the loop of `get_time_entries`: a truthy `timeEntry`
   * message adds its description, any other truthy message ends the loop,
   * and the deadline ends it on the final pass. A truthy message without
   * `kind`, or a `timeEntry` without a description, raises; so does a
   * description that is not a string.
   */
  function CollectOne(buffer: string, chunk: string, parse: string -> Option<Json>, entries: seq<string>, final: bool)
    : (r: CollectStep)
    ensures final ==> r.Done?
    ensures r.Continue? ==> r.buffer == Receive(buffer, chunk, parse).buffer && entries <= r.entries
    ensures r.Done? ==> r.collected.buffer == Receive(buffer, chunk, parse).buffer
    ensures r.Done? && !r.collected.raised ==> entries <= r.collected.entries
    ensures r.Done? ==> r.collected.last == Receive(buffer, chunk, parse).message
  {
    var step := Receive(buffer, chunk, parse);
    var message := step.message;
    if message.Some? && Truthy(message.value) then
      match Index(message.value, "kind")
        case None => Done(Collected(step.buffer, entries, message, true))
        case Some(kind) =>
          if kind == JString("timeEntry") then
            var description := match Index(message.value, "timeEntry")
              case None => None
              case Some(entry) => Index(entry, "description");
            if description.None? || !description.value.JString? then Done(Collected(step.buffer, entries, message, true))
            else if final then Done(Collected(step.buffer, entries + [description.value.s], message, false))
            else Continue(step.buffer, entries + [description.value.s])
          else Done(Collected(step.buffer, entries, message, false))
    else if final then Done(Collected(step.buffer, entries, message, false))
    else Continue(step.buffer, entries)
  }

  /** The whole loop, one pass per chunk; the last chunk is the deadline's pass. */
  function Collect(buffer: string, chunks: seq<string>, parse: string -> Option<Json>, entries: seq<string>): (r: Collected)
    requires |chunks| > 0
    ensures !r.raised ==> entries <= r.entries
    decreases |chunks|
  {
    match CollectOne(buffer, chunks[0], parse, entries, |chunks| == 1)
      case Done(collected) => collected
      case Continue(next, more) => Collect(next, chunks[1..], parse, more)
  }

  /** Collect takes one pass, then goes on from where the pass left it. */
  lemma CollectSteps(buffer: string, chunks: seq<string>, parse: string -> Option<Json>, entries: seq<string>)
    requires |chunks| > 0
    ensures var step := CollectOne(buffer, chunks[0], parse, entries, |chunks| == 1);
      (step.Done? ==> Collect(buffer, chunks, parse, entries) == step.collected) &&
      (step.Continue? ==> Collect(buffer, chunks, parse, entries) == Collect(step.buffer, chunks[1..], parse, step.entries))
  {
  }

  /** A whole line arriving on an empty buffer is read at once and leaves the buffer empty. */
  lemma ReceiveWholeLine(line: string, parse: string -> Option<Json>)
    requires '\n' !in line
    ensures Receive("", line + "\n", parse) == Received("", Some(line), parse(line))
  {
    var text := "" + (line + "\n");
    assert text[..|line|] == line && text[|line| + 1..] == "";
    LineBreakAt(text, |line|);
  }

  /** A `timeEntry` message with a string description, read before the deadline, adds the description. */
  lemma TimeEntryContinues(buffer: string, chunk: string, parse: string -> Option<Json>, entries: seq<string>,
                           entry: Json, description: string)
    requires Receive(buffer, chunk, parse).message.Some?
    requires Index(Receive(buffer, chunk, parse).message.value, "kind") == Some(JString("timeEntry"))
    requires Index(Receive(buffer, chunk, parse).message.value, "timeEntry") == Some(entry)
    requires Index(entry, "description") == Some(JString(description))
    ensures CollectOne(buffer, chunk, parse, entries, false) ==
      Continue(Receive(buffer, chunk, parse).buffer, entries + [description])
  {
    assert Truthy(Receive(buffer, chunk, parse).message.value);
  }

  /** How `get_time_entries` reads one `timeEntry` message, before the deadline. */
  lemma EntryMessageRead(description: string, line: string, entries: seq<string>, parse: string -> Option<Json>)
    requires '\n' !in line && parse(line) == Some(TimeEntryMessage(description))
    ensures CollectOne("", line + "\n", parse, entries, false) == Continue("", entries + [description])
  {
    ReceiveWholeLine(line, parse);
    var message := TimeEntryMessage(description);
    var entry := JObject([("description", JString(description))]);
    LookupFirst(message.fields, "kind", 0);
    assert message.fields[0].0 != "timeEntry";
    LookupFirst(message.fields, "timeEntry", 1);
    LookupFirst(entry.fields, "description", 0);
    TimeEntryContinues("", line + "\n", parse, entries, entry, description);
  }

  /** The `success` that follows the entries ends the loop and keeps them. */
  lemma SuccessEndsCollect(line: string, entries: seq<string>, parse: string -> Option<Json>)
    requires '\n' !in line && parse(line) == Some(SUCCESS)
    ensures CollectOne("", line + "\n", parse, entries, true) == Done(Collected("", entries, Some(SUCCESS), false))
  {
    ReceiveWholeLine(line, parse);
    assert SUCCESS.fields[0].0 == "kind";
  }

  /** What the desk writes for `getTimeEntries`: a line per description, then `success`. */
  predicate EntryReplyLines(descriptions: seq<string>, lines: seq<string>, chunks: seq<string>, parse: string -> Option<Json>)
  {
    |lines| == |descriptions| + 1 && |chunks| == |lines| &&
    (forall k :: 0 <= k < |lines| ==> '\n' !in lines[k] && chunks[k] == lines[k] + "\n") &&
    (forall k :: 0 <= k < |descriptions| ==> parse(lines[k]) == Some(TimeEntryMessage(descriptions[k]))) &&
    parse(lines[|descriptions|]) == Some(SUCCESS)
  }

  /** Once the first entry is read, what remains is the answer for the other descriptions. */
  lemma RepliesAfterFirst(descriptions: seq<string>, lines: seq<string>, chunks: seq<string>, parse: string -> Option<Json>)
    requires EntryReplyLines(descriptions, lines, chunks, parse) && |descriptions| > 0
    ensures EntryReplyLines(descriptions[1..], lines[1..], chunks[1..], parse)
  {
    var restLines, restChunks := lines[1..], chunks[1..];
    forall k | 0 <= k < |restLines|
      ensures '\n' !in restLines[k] && restChunks[k] == restLines[k] + "\n"
    {
      assert restLines[k] == lines[k + 1] && restChunks[k] == chunks[k + 1];
    }
    forall k | 0 <= k < |descriptions| - 1
      ensures parse(restLines[k]) == Some(TimeEntryMessage(descriptions[1..][k]))
    {
      assert restLines[k] == lines[k + 1] && descriptions[1..][k] == descriptions[k + 1];
    }
    assert restLines[|descriptions| - 1] == lines[|descriptions|];
  }

  /**
   * The desk's answer to `getTimeEntries`, one `timeEntry` message per
   * description and then `success`, arriving in time, loads exactly those
   * descriptions.
   */
  lemma {:induction false} CollectReadsEntryReplies(descriptions: seq<string>, entries: seq<string>,
                                                     lines: seq<string>, chunks: seq<string>,
                                                     parse: string -> Option<Json>)
    requires EntryReplyLines(descriptions, lines, chunks, parse)
    ensures Collect("", chunks, parse, entries) == Collected("", entries + descriptions, Some(SUCCESS), false)
    decreases |descriptions|
  {
    assert chunks[0] == lines[0] + "\n" && '\n' !in lines[0];
    CollectSteps("", chunks, parse, entries);
    if |descriptions| == 0 {
      SuccessEndsCollect(lines[0], entries, parse);
      assert entries + descriptions == entries;
    } else {
      assert parse(lines[0]) == Some(TimeEntryMessage(descriptions[0]));
      EntryMessageRead(descriptions[0], lines[0], entries, parse);
      RepliesAfterFirst(descriptions, lines, chunks, parse);
      CollectReadsEntryReplies(descriptions[1..], entries + [descriptions[0]], lines[1..], chunks[1..], parse);
      Serial.AppendAssoc(entries, [descriptions[0]], descriptions[1..]);
      assert [descriptions[0]] + descriptions[1..] == descriptions;
    }
  }

  /**
   * A handler result that fits any state: it names no minutes, and options
   * it brings come with a selection inside them.
   */
  predicate SelfContained(update: Update)
  {
    update.adjustMinutes.None? && update.name != SendAdjustTime &&
    (update.options.Some? ==> |update.options.value| > 0 && update.selected == Some(0)) &&
    (update.options.None? ==> update.selected.None?)
  }

  /** What `get_time_entries` returns, given where its loop ended; None when it raises. */
  function EntriesResult(collected: Collected): (r: Option<Update>)
    ensures r.None? <==> collected.raised || ReplyVerdict(collected.last).Crashed?
    ensures r.Some? ==> SelfContained(r.value)
    ensures r.Some? ==> (r.value.name == DrawOptions <==> ReplyVerdict(collected.last).Succeeded?)
    ensures r.Some? && r.value.name == DrawOptions ==>
      r.value == Update(DrawOptions, Some(Options(collected.entries)), Some(0), None)
    ensures r.Some? && r.value.name != DrawOptions ==> r.value == Update(Command, None, None, None)
  {
    if collected.raised then None
    else
      match ReplyVerdict(collected.last)
        case Crashed => None
        case Failed => Some(Update(Command, None, None, None))
        case Succeeded => Some(Update(DrawOptions, Some(Options(collected.entries)), Some(0), None))
  }

  // ---------------------------------------------------------------------
  // Keys and requests
  // ---------------------------------------------------------------------

  /** A press (not a release) of the given key. */
  predicate Pressed(event: Option<KeyEvent>, key: KeyNumber)
  {
    event.Some? && event.value.key == key && event.value.pressed
  }

  /**
   * Where a pressed key leads from `adjust_time`, in both programs: key 2
   * sends the minutes, key 1 goes back to `command`, and any other event
   * keeps the loop going.
   */
  function AdjustTarget(event: Option<KeyEvent>, minutes: int): (r: Option<Update>)
    ensures r.Some? <==> Pressed(event, 2) || Pressed(event, 1)
    ensures Pressed(event, 2) ==> r == Some(Update(SendAdjustTime, None, None, Some(minutes)))
    ensures Pressed(event, 1) ==> r == Some(Update(Command, None, None, None))
  {
    if Pressed(event, 2) then Some(Update(SendAdjustTime, None, None, Some(minutes)))
    else if Pressed(event, 1) then Some(Update(Command, None, None, None))
    else None
  }

  const MAC_DEVICES: seq<string> := ["A4:83:E7:C9:0F:E3", "D4:3A:2C:99:00:E6"]
  const FRACTAL_DEVICES: seq<string> := ["80:B6:55:F7:40:76", "D4:3A:2C:99:00:E6"]

  predicate Sends(name: Handler)
  {
    name in {SendStart, SendStop, SendAdjustTime, SendContinue, SendSwitchBoseMac,
             SendSwitchBoseFractal, SendReadInbox, SendClearInbox, SendStartClock}
  }

  function Strings(names: seq<string>): (r: Json)
    ensures r.JArray? && |r.items| == |names|
    ensures forall k :: 0 <= k < |names| ==> r.items[k] == JString(names[k])
  {
    JArray(seq(|names|, k requires 0 <= k < |names| => JString(names[k])))
  }

  /** The message a sending handler writes, keys in the order the dict is built. */
  function Request(name: Handler, state: UiState): (r: Json)
    requires Sends(name) && Consistent(state)
    requires name == SendAdjustTime ==> state.adjustMinutes.Some?
    ensures r.JObject? && |r.fields| > 0 && r.fields[0].0 == "kind" && r.fields[0].1.JString?
    ensures name == SendStart ==> r.fields[0].1.s == "startTimeEntry" && |r.fields| == 2
    ensures name == SendAdjustTime ==> r.fields == [("kind", JString("adjustTime")), ("minutes", JNumber(state.adjustMinutes.value))]
  {
    match name
      case SendStart =>
        JObject([("kind", JString("startTimeEntry")),
                 ("timeEntry", JObject([("description", JString(state.options[state.selected]))]))])
      case SendStop => KindOnly("stopTimeEntry")
      case SendAdjustTime =>
        JObject([("kind", JString("adjustTime")), ("minutes", JNumber(state.adjustMinutes.value))])
      case SendContinue => KindOnly("continueTimeEntry")
      case SendSwitchBoseMac => JObject([("kind", JString("switchBoseDevices")), ("devices", Strings(MAC_DEVICES))])
      case SendSwitchBoseFractal => JObject([("kind", JString("switchBoseDevices")), ("devices", Strings(FRACTAL_DEVICES))])
      case SendReadInbox => KindOnly("readInbox")
      case SendClearInbox => KindOnly("clearInbox")
      case SendStartClock => KindOnly("startClock")
  }
}
