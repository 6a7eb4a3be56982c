/**
 * The hot and cold spells of the e-ink weather panel
 * (`src/apps/thinkink_image/weather_forecast.rs`). One pass over the
 * hourly forecast keeps, for each of the two kinds, the index where the
 * current spell started; a spell opens when the temperature crosses one
 * threshold and closes when it crosses back over a second one (the
 * hysteresis) or at the last hour, and is then recorded as its first and
 * last hour.
 *
 * Times are local minutes and temperatures degrees Fahrenheit; both are
 * only compared. The fetch, the JSON accessors and the time parser are
 * reduced to one `Hour` per forecast entry whose parts are None where an
 * `unwrap` would panic.
 */
module Weather {
  import opened Common

  const MINUTES_PER_DAY: int := 24 * 60
  const HOT_START: real := 75.0
  const HOT_END: real := 72.0
  const COLD_START: real := 50.0
  const COLD_END: real := 55.0

  /** One forecast entry: its time and its temperature, None where reading it panics. */
  datatype Hour = Hour(time: Option<int>, temperature: Option<real>)

  datatype Kind = Hot | Cold

  /** A recorded spell: the indices of its first and last hour. */
  type Spell = (nat, nat)

  datatype Forecast = Forecast(hot: seq<Spell>, cold: seq<Spell>, hotOpen: Option<nat>, coldOpen: Option<nat>)

  /** The loop panics at an entry: its time does not read, or it is from today and its temperature does not. */
  predicate Panics(h: Hour, startOfDay: int)
  {
    h.time.None? || (h.time.value >= startOfDay && h.temperature.None?)
  }

  /** An entry the loop looks at: readable, and not before the start of today. */
  predicate Live(h: Hour, startOfDay: int)
  {
    h.time.Some? && h.time.value >= startOfDay && h.temperature.Some?
  }

  /**
   * Hot spells open above 75 degrees before tomorrow; cold spells below
   * 50 degrees after noon today and before noon tomorrow.
   */
  predicate Opens(kind: Kind, h: Hour, startOfDay: int)
  {
    Live(h, startOfDay) &&
    match kind
      case Hot => h.temperature.value > HOT_START && h.time.value < startOfDay + MINUTES_PER_DAY
      case Cold =>
        h.temperature.value < COLD_START &&
        startOfDay + MINUTES_PER_DAY / 2 < h.time.value < startOfDay + MINUTES_PER_DAY + MINUTES_PER_DAY / 2
  }

  /** An open spell closes at the last hour, or when a hot hour drops below 72 or a cold one rises above 55. */
  predicate Closes(kind: Kind, hours: seq<Hour>, j: nat, startOfDay: int)
    requires j < |hours|
  {
    Live(hours[j], startOfDay) &&
    (j == |hours| - 1 ||
     match kind
       case Hot => hours[j].temperature.value < HOT_END
       case Cold => hours[j].temperature.value > COLD_END)
  }

  /** The index the last recorded spell ended at, or -1. */
  function LastEnd(spells: seq<Spell>): int
  {
    if spells == [] then -1 else spells[|spells| - 1].1
  }

  /** The index the spell before spell `k` ended at, or -1 for the first. */
  function PreviousEnd(spells: seq<Spell>, k: int): int
    requires 0 <= k < |spells|
  {
    if k == 0 then -1 else spells[k - 1].1
  }

  /** Every spell recorded so far starts no later than it ends, and ended before hour `i`. */
  predicate Bounded(spells: seq<Spell>, i: nat)
  {
    forall k :: 0 <= k < |spells| ==> spells[k].0 <= spells[k].1 < i
  }

  /** Spells are recorded in order, each starting after the previous one ended. */
  predicate Sequential(spells: seq<Spell>)
  {
    forall k, l :: 0 <= k < l < |spells| ==> spells[k].1 < spells[l].0
  }

  /** Each spell starts at an hour that opens one and ends at an hour that closes it. */
  predicate Endpoints(kind: Kind, hours: seq<Hour>, startOfDay: int, spells: seq<Spell>)
  {
    forall k :: 0 <= k < |spells| ==>
      spells[k].0 <= spells[k].1 < |hours| &&
      Opens(kind, hours[spells[k].0], startOfDay) && Closes(kind, hours, spells[k].1, startOfDay)
  }

  /** No hour inside a spell, before its last, could have closed it. */
  predicate Sustained(kind: Kind, hours: seq<Hour>, startOfDay: int, spells: seq<Spell>)
  {
    forall k, j :: 0 <= k < |spells| && spells[k].0 <= j < spells[k].1 && j < |hours| ==>
      !Closes(kind, hours, j, startOfDay)
  }

  /** No hour strictly between `from` and `to` could open a spell. */
  predicate Quiet(kind: Kind, hours: seq<Hour>, startOfDay: int, from: int, to: int)
  {
    forall j :: 0 <= j < |hours| && from < j < to ==> !Opens(kind, hours[j], startOfDay)
  }

  /** No hour between one spell and the next could have opened a spell. */
  predicate Earliest(kind: Kind, hours: seq<Hour>, startOfDay: int, spells: seq<Spell>)
  {
    forall k {:trigger PreviousEnd(spells, k)} :: 0 <= k < |spells| ==>
      Quiet(kind, hours, startOfDay, PreviousEnd(spells, k), spells[k].0)
  }

  /**
   * The spell under way before hour `i`, if any: it opened at the first
   * hour after the last recorded spell that could open one, and nothing
   * since could close it; with none under way, nothing since the last
   * recorded spell could open one.
   */
  predicate Pending(kind: Kind, hours: seq<Hour>, startOfDay: int, i: nat, spells: seq<Spell>, open: Option<nat>)
    requires i <= |hours|
  {
    (open.Some? ==>
      LastEnd(spells) < open.value < i && Opens(kind, hours[open.value], startOfDay) &&
      (forall j :: open.value <= j < i ==> !Closes(kind, hours, j, startOfDay)) &&
      Quiet(kind, hours, startOfDay, LastEnd(spells), open.value)) &&
    (open.None? ==> Quiet(kind, hours, startOfDay, LastEnd(spells), i))
  }

  /** What the loop knows of one kind after the hours before `i`. */
  predicate Tracks(kind: Kind, hours: seq<Hour>, startOfDay: int, i: nat, spells: seq<Spell>, open: Option<nat>)
    requires i <= |hours|
  {
    Bounded(spells, i) && Sequential(spells) && Endpoints(kind, hours, startOfDay, spells) &&
    Sustained(kind, hours, startOfDay, spells) && Earliest(kind, hours, startOfDay, spells) &&
    Pending(kind, hours, startOfDay, i, spells, open)
  }

  /**
   * One kind's step at hour `i` (lines 73-96 for hot, 98-124 for cold): an
   * hour the loop skips changes nothing; otherwise a spell opens if none is
   * under way and this hour opens one, and then the spell under way closes
   * and is recorded if this hour closes it.
   */
  function Step(kind: Kind, hours: seq<Hour>, startOfDay: int, i: nat, spells: seq<Spell>, open: Option<nat>)
    : (r: (seq<Spell>, Option<nat>))
    requires i < |hours|
    ensures spells <= r.0 && |r.0| <= |spells| + 1
    ensures |r.0| == |spells| + 1 ==> r.0[|spells|].1 == i && r.1.None? && Closes(kind, hours, i, startOfDay)
    ensures r.1.Some? ==> r.1 == open || (r.1 == Some(i) && open.None? && Opens(kind, hours[i], startOfDay))
    ensures !Live(hours[i], startOfDay) ==> r == (spells, open)
  {
    if !Live(hours[i], startOfDay) then (spells, open)
    else
      var started := if open.None? && Opens(kind, hours[i], startOfDay) then Some(i) else open;
      if started.Some? && Closes(kind, hours, i, startOfDay) then (spells + [(started.value, i)], None)
      else (spells, started)
  }

  /**
   * One kind's record after the loop has been through the first `i` hours:
   * at most one spell per hour, and a spell under way opened at one of them.
   */
  function Scan(kind: Kind, hours: seq<Hour>, startOfDay: int, i: nat): (r: (seq<Spell>, Option<nat>))
    requires i <= |hours|
    ensures |r.0| <= i
    ensures r.1.Some? ==> r.1.value < i
  {
    if i == 0 then ([], None)
    else
      var before := Scan(kind, hours, startOfDay, i - 1);
      Step(kind, hours, startOfDay, i - 1, before.0, before.1)
  }

  /** Each step keeps the record tracking the hours seen so far. */
  lemma StepKeepsTrack(kind: Kind, hours: seq<Hour>, startOfDay: int, i: nat, spells: seq<Spell>, open: Option<nat>)
    requires i < |hours| && Tracks(kind, hours, startOfDay, i, spells, open)
    ensures var after := Step(kind, hours, startOfDay, i, spells, open);
      Tracks(kind, hours, startOfDay, i + 1, after.0, after.1)
  {
    if !Live(hours[i], startOfDay) {
      SkipKeepsTrack(kind, hours, startOfDay, i, spells, open);
    } else {
      var started := if open.None? && Opens(kind, hours[i], startOfDay) then Some(i) else open;
      if started.Some? && Closes(kind, hours, i, startOfDay) {
        CloseRecords(kind, hours, startOfDay, i, spells, started.value);
      } else if started.Some? {
        StayOpen(kind, hours, startOfDay, i, spells, started.value);
      } else {
        NoneOpens(kind, hours, startOfDay, i, spells);
      }
    }
  }

  lemma ScanStep(kind: Kind, hours: seq<Hour>, startOfDay: int, i: nat)
    requires 0 < i <= |hours|
    requires var r := Scan(kind, hours, startOfDay, i - 1); Tracks(kind, hours, startOfDay, i - 1, r.0, r.1)
    ensures var r := Scan(kind, hours, startOfDay, i); Tracks(kind, hours, startOfDay, i, r.0, r.1)
  {
    var before := Scan(kind, hours, startOfDay, i - 1);
    var after := Scan(kind, hours, startOfDay, i);
    assert after == Step(kind, hours, startOfDay, i - 1, before.0, before.1);
    StepKeepsTrack(kind, hours, startOfDay, i - 1, before.0, before.1);
  }

  /**
   * The record after any number of hours tracks them: spells in order and
   * apart, each opened at the first hour that could open it and closed at
   * the first that could close it.
   */
  lemma {:induction false} ScanTracks(kind: Kind, hours: seq<Hour>, startOfDay: int, i: nat)
    requires i <= |hours|
    ensures var r := Scan(kind, hours, startOfDay, i); Tracks(kind, hours, startOfDay, i, r.0, r.1)
  {
    if i > 0 {
      ScanTracks(kind, hours, startOfDay, i - 1);
      ScanStep(kind, hours, startOfDay, i);
    }
  }

  /** The step of lines 73-96 or 98-124 as the loop runs it, at an hour it does not skip. */
  method Follow(kind: Kind, hours: seq<Hour>, startOfDay: int, i: nat, spells: seq<Spell>, open: Option<nat>)
    returns (spells': seq<Spell>, open': Option<nat>)
    requires i < |hours| && Live(hours[i], startOfDay)
    ensures (spells', open') == Step(kind, hours, startOfDay, i, spells, open)
  {
    spells', open' := spells, open;
    if open'.None? && Opens(kind, hours[i], startOfDay) {
      open' := Some(i);
    }
    if open'.Some? && Closes(kind, hours, i, startOfDay) {
      spells' := spells' + [(open'.value, i)];
      open' := None;
    }
  }

  /** The spell under way since `o`, whose hours before `i` could not close it. */
  predicate Underway(kind: Kind, hours: seq<Hour>, startOfDay: int, i: nat, spells: seq<Spell>, o: nat)
    requires i < |hours|
  {
    Bounded(spells, i) && Sequential(spells) && Endpoints(kind, hours, startOfDay, spells) &&
    Sustained(kind, hours, startOfDay, spells) && Earliest(kind, hours, startOfDay, spells) &&
    LastEnd(spells) < o <= i && Opens(kind, hours[o], startOfDay) &&
    (forall j :: o <= j < i ==> !Closes(kind, hours, j, startOfDay)) &&
    Quiet(kind, hours, startOfDay, LastEnd(spells), o)
  }

  /** Closing the spell under way at hour `i` records it. */
  lemma CloseRecords(kind: Kind, hours: seq<Hour>, startOfDay: int, i: nat, spells: seq<Spell>, o: nat)
    requires i < |hours| && Underway(kind, hours, startOfDay, i, spells, o)
    requires Closes(kind, hours, i, startOfDay)
    ensures Tracks(kind, hours, startOfDay, i + 1, spells + [(o, i)], None)
  {
    var spells' := spells + [(o, i)];
    assert Bounded(spells', i + 1);
    assert Sequential(spells');
    assert Endpoints(kind, hours, startOfDay, spells');
    RecordSustained(kind, hours, startOfDay, i, spells, o);
    RecordEarliest(kind, hours, startOfDay, i, spells, o);
  }

  lemma RecordSustained(kind: Kind, hours: seq<Hour>, startOfDay: int, i: nat, spells: seq<Spell>, o: nat)
    requires i < |hours| && Sustained(kind, hours, startOfDay, spells)
    requires forall j :: o <= j < i ==> !Closes(kind, hours, j, startOfDay)
    ensures Sustained(kind, hours, startOfDay, spells + [(o, i)])
  {
    var spells' := spells + [(o, i)];
    forall k, j | 0 <= k < |spells'| && spells'[k].0 <= j < spells'[k].1 && j < |hours|
      ensures !Closes(kind, hours, j, startOfDay)
    {
      if k < |spells| {
        assert spells'[k] == spells[k];
      }
    }
  }

  lemma RecordEarliest(kind: Kind, hours: seq<Hour>, startOfDay: int, i: nat, spells: seq<Spell>, o: nat)
    requires Earliest(kind, hours, startOfDay, spells)
    requires Quiet(kind, hours, startOfDay, LastEnd(spells), o)
    ensures Earliest(kind, hours, startOfDay, spells + [(o, i)])
  {
    var spells' := spells + [(o, i)];
    forall k | 0 <= k < |spells'|
      ensures Quiet(kind, hours, startOfDay, PreviousEnd(spells', k), spells'[k].0)
    {
      if k < |spells| {
        assert spells'[k] == spells[k];
        assert PreviousEnd(spells', k) == PreviousEnd(spells, k);
      } else {
        assert PreviousEnd(spells', k) == LastEnd(spells);
      }
    }
  }

  /** A spell under way that hour `i` cannot close stays under way. */
  lemma StayOpen(kind: Kind, hours: seq<Hour>, startOfDay: int, i: nat, spells: seq<Spell>, o: nat)
    requires i < |hours| && Underway(kind, hours, startOfDay, i, spells, o)
    requires !Closes(kind, hours, i, startOfDay)
    ensures Tracks(kind, hours, startOfDay, i + 1, spells, Some(o))
  {
  }

  /** With no spell under way, an hour that cannot open one leaves none under way. */
  lemma NoneOpens(kind: Kind, hours: seq<Hour>, startOfDay: int, i: nat, spells: seq<Spell>)
    requires i < |hours| && Tracks(kind, hours, startOfDay, i, spells, None)
    requires !Opens(kind, hours[i], startOfDay)
    ensures Tracks(kind, hours, startOfDay, i + 1, spells, None)
  {
  }

  /** An hour before the start of today changes neither kind's record. */
  lemma SkipKeepsTrack(kind: Kind, hours: seq<Hour>, startOfDay: int, i: nat, spells: seq<Spell>, open: Option<nat>)
    requires i < |hours| && !Live(hours[i], startOfDay)
    requires Tracks(kind, hours, startOfDay, i, spells, open)
    ensures Tracks(kind, hours, startOfDay, i + 1, spells, open)
  {
  }

  /**
   * One pass of the loop body at hour `i` (lines 59-124): a time that does
   * not read panics, an hour before today is skipped, a temperature that
   * does not read panics, and otherwise both kinds take their step.
   */
  method Visit(hours: seq<Hour>, startOfDay: int, i: nat,
               hot: seq<Spell>, hotOpen: Option<nat>, cold: seq<Spell>, coldOpen: Option<nat>)
    returns (panicked: bool, hot': seq<Spell>, hotOpen': Option<nat>, cold': seq<Spell>, coldOpen': Option<nat>)
    requires i < |hours|
    ensures panicked <==> Panics(hours[i], startOfDay)
    ensures !panicked ==> (hot', hotOpen') == Step(Hot, hours, startOfDay, i, hot, hotOpen)
    ensures !panicked ==> (cold', coldOpen') == Step(Cold, hours, startOfDay, i, cold, coldOpen)
  {
    hot', hotOpen', cold', coldOpen' := hot, hotOpen, cold, coldOpen;
    var h := hours[i];
    if h.time.None? {
      return true, hot', hotOpen', cold', coldOpen';
    }
    if h.time.value < startOfDay {
      return false, hot', hotOpen', cold', coldOpen';
    }
    if h.temperature.None? {
      return true, hot', hotOpen', cold', coldOpen';
    }
    hot', hotOpen' := Follow(Hot, hours, startOfDay, i, hot, hotOpen);
    cold', coldOpen' := Follow(Cold, hours, startOfDay, i, cold, coldOpen);
    panicked := false;
  }

  /**
   * The detection loop (lines 58-125). The result is None exactly when
   * some entry panics; otherwise it holds each kind's record after the
   * whole forecast, which tracks the forecast as `Tracks` says
   * (`LastHourCloses` and `NothingLeftOpen` say when no spell is left
   * under way).
   */
  method DetectSpells(hours: seq<Hour>, startOfDay: int) returns (r: Option<Forecast>)
    ensures r.None? <==> exists j :: 0 <= j < |hours| && Panics(hours[j], startOfDay)
    ensures r.Some? ==> (r.value.hot, r.value.hotOpen) == Scan(Hot, hours, startOfDay, |hours|)
    ensures r.Some? ==> (r.value.cold, r.value.coldOpen) == Scan(Cold, hours, startOfDay, |hours|)
    ensures r.Some? ==> Tracks(Hot, hours, startOfDay, |hours|, r.value.hot, r.value.hotOpen)
    ensures r.Some? ==> Tracks(Cold, hours, startOfDay, |hours|, r.value.cold, r.value.coldOpen)
  {
    var hot: seq<Spell> := [];
    var cold: seq<Spell> := [];
    var hotOpen: Option<nat> := None;
    var coldOpen: Option<nat> := None;
    var i := 0;
    while i < |hours|
      invariant i <= |hours|
      invariant forall j :: 0 <= j < i ==> !Panics(hours[j], startOfDay)
      invariant (hot, hotOpen) == Scan(Hot, hours, startOfDay, i)
      invariant (cold, coldOpen) == Scan(Cold, hours, startOfDay, i)
    {
      var panicked;
      panicked, hot, hotOpen, cold, coldOpen := Visit(hours, startOfDay, i, hot, hotOpen, cold, coldOpen);
      if panicked {
        return None;
      }
      i := i + 1;
    }
    ScanTracks(Hot, hours, startOfDay, |hours|);
    ScanTracks(Cold, hours, startOfDay, |hours|);
    r := Some(Forecast(hot, cold, hotOpen, coldOpen));
  }

  /** A last hour the loop looks at closes whatever spell is under way. */
  lemma LastHourCloses(kind: Kind, hours: seq<Hour>, startOfDay: int, spells: seq<Spell>, open: Option<nat>)
    requires |hours| > 0 && Live(hours[|hours| - 1], startOfDay)
    requires Tracks(kind, hours, startOfDay, |hours|, spells, open)
    ensures open.None?
  {
    if open.Some? {
      assert Closes(kind, hours, |hours| - 1, startOfDay);
      assert false;
    }
  }

  /** Forecast times only go forward. */
  predicate Chronological(hours: seq<Hour>)
  {
    forall j, k :: 0 <= j < k < |hours| && hours[j].time.Some? && hours[k].time.Some? ==>
      hours[j].time.value < hours[k].time.value
  }

  /**
   * In a chronological forecast that does not panic, no spell is ever left
   * open: either the last entry is from today and closes it, or every entry
   * is from before today and none opened.
   */
  lemma NothingLeftOpen(hours: seq<Hour>, startOfDay: int, kind: Kind, spells: seq<Spell>, open: Option<nat>)
    requires Chronological(hours) && |hours| > 0
    requires forall j :: 0 <= j < |hours| ==> !Panics(hours[j], startOfDay)
    requires Tracks(kind, hours, startOfDay, |hours|, spells, open)
    ensures open.None?
  {
    if open.Some? {
      var last := |hours| - 1;
      if Live(hours[last], startOfDay) {
        assert Closes(kind, hours, last, startOfDay);
      } else {
        BeforeToday(hours, startOfDay, open.value);
      }
      assert false;
    }
  }

  /** When the last entry of a chronological forecast is from before today, so is every other. */
  lemma BeforeToday(hours: seq<Hour>, startOfDay: int, j: nat)
    requires Chronological(hours) && j < |hours|
    requires forall k :: 0 <= k < |hours| ==> !Panics(hours[k], startOfDay)
    requires !Live(hours[|hours| - 1], startOfDay)
    ensures !Live(hours[j], startOfDay)
  {
    var last := |hours| - 1;
    assert !Panics(hours[last], startOfDay);
    if j < last {
      assert !Panics(hours[j], startOfDay);
    }
  }
}
