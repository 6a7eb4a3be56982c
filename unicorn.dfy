/**
 * The Galactic Unicorn display (`unicorn/src/main.py`): a MicroPython web
 * server whose routes queue animations by priority, a single runner that
 * plays them one at a time, and the clock and countdown faces, which slide
 * the digits that change between two frames.
 *
 * The animations themselves are coroutines; here each one is named by the
 * route that created it, and what happens while it plays (the requests that
 * arrive, whether it raises) is a parameter. Drawing, fonts, the rainbow
 * effect and frame timing are left out.
 */
module Unicorn {
  import opened Common

  // ---------------------------------------------------------------------
  // The animation queue
  // ---------------------------------------------------------------------

  /** The coroutine an item plays, by the route that queued it. */
  datatype Animation =
    | Stop
    | Countdown(timestamp: int)
    | Test
    | Message(id: nat)
    | Inbox
    | Clock(startTimestamp: int)
    | SpaceX

  /** `AnimationItem`: a priority and the value of the class counter when it was made. */
  datatype Item = Item(priority: int, order: nat, animation: Animation)

  /** `AnimationItem.__lt__`: the lower priority first, and among equal priorities the older item. */
  function Less(a: Item, b: Item): (before: bool)
    ensures a.priority < b.priority ==> before
    ensures a.priority > b.priority ==> !before
    ensures a.priority == b.priority ==> (before <==> a.order < b.order)
  {
    if a.priority != b.priority then a.priority < b.priority else a.order < b.order
  }

  /** `Less` is a strict order. */
  lemma LessIsStrictOrder(a: Item, b: Item, c: Item)
    ensures !Less(a, a)
    ensures Less(a, b) ==> !Less(b, a)
    ensures Less(a, b) && Less(b, c) ==> Less(a, c)
  {
  }

  /** Items with different counters are always ordered one way or the other. */
  lemma LessTotal(a: Item, b: Item)
    requires a.order != b.order
    ensures Less(a, b) || Less(b, a)
  {
  }

  /** Among equal priorities the heap is first in, first out. */
  lemma EqualPrioritiesAreFifo(a: Item, b: Item)
    requires a.priority == b.priority
    ensures Less(a, b) <==> a.order < b.order
  {
  }

  /** Every queued item has a counter value handed out so far, and no two share one. */
  predicate Numbered(heap: seq<Item>, counter: nat)
  {
    (forall i :: 0 <= i < |heap| ==> 1 <= heap[i].order <= counter) &&
    (forall i, j :: 0 <= i < j < |heap| ==> heap[i].order != heap[j].order)
  }

  /** Where `heapq.heappop` finds its item: one no other item is `Less` than. */
  function MinIndex(heap: seq<Item>): (m: nat)
    requires heap != []
    ensures m < |heap|
    ensures forall j :: 0 <= j < |heap| ==> !Less(heap[j], heap[m])
  {
    if |heap| == 1 then 0
    else
      var m := MinIndex(heap[..|heap| - 1]);
      if Less(heap[|heap| - 1], heap[m]) then |heap| - 1 else m
  }

  /** The heap without the item at `m`. */
  function Remove(heap: seq<Item>, m: nat): (r: seq<Item>)
    requires m < |heap|
    ensures |r| == |heap| - 1
    ensures forall j :: 0 <= j < |r| ==> r[j] == heap[if j < m then j else j + 1]
  {
    heap[..m] + heap[m + 1..]
  }

  lemma NumberedRemove(heap: seq<Item>, counter: nat, m: nat)
    requires Numbered(heap, counter) && m < |heap|
    ensures Numbered(Remove(heap, m), counter)
  {
    var r := Remove(heap, m);
    forall i, j | 0 <= i < j < |r|
      ensures r[i].order != r[j].order
    {
      assert r[i] == heap[if i < m then i else i + 1];
      assert r[j] == heap[if j < m then j else j + 1];
    }
  }

  /** The item at `MinIndex` comes before every other one, and removing it keeps the rest. */
  lemma PopTakesTheLeast(heap: seq<Item>, counter: nat, m: nat)
    requires Numbered(heap, counter) && heap != [] && m == MinIndex(heap)
    ensures Numbered(Remove(heap, m), counter)
    ensures forall x :: x in heap && x != heap[m] ==> Less(heap[m], x)
    ensures forall x :: x in Remove(heap, m) ==> x in heap && Less(heap[m], x)
    ensures multiset(Remove(heap, m)) + multiset{heap[m]} == multiset(heap)
  {
    var item, rest := heap[m], Remove(heap, m);
    forall x | x in heap && x != item
      ensures Less(item, x)
    {
      var o :| 0 <= o < |heap| && heap[o] == x;
      MinimumComesFirst(heap, counter, m, o);
    }
    forall x | x in rest
      ensures x in heap && Less(item, x)
    {
      var j :| 0 <= j < |rest| && rest[j] == x;
      MinimumComesFirst(heap, counter, m, if j < m then j else j + 1);
    }
    RemoveSplits(heap, m);
    NumberedRemove(heap, counter, m);
  }

  /** The minimum comes before the item at any other index. */
  lemma MinimumComesFirst(heap: seq<Item>, counter: nat, m: nat, o: nat)
    requires Numbered(heap, counter) && heap != [] && m == MinIndex(heap)
    requires o < |heap| && o != m
    ensures Less(heap[m], heap[o])
  {
    assert heap[m].order != heap[o].order;
    LessTotal(heap[m], heap[o]);
  }

  /** The heap is what `Remove` keeps plus the removed item. */
  lemma RemoveSplits(heap: seq<Item>, m: nat)
    requires m < |heap|
    ensures multiset(Remove(heap, m)) + multiset{heap[m]} == multiset(heap)
  {
    assert heap == heap[..m] + [heap[m]] + heap[m + 1..];
  }

  /** What happens while an animation other than `Stop` plays. */
  datatype Play = Play(
    /** The `enqueue_animation` calls the server makes meanwhile, as (animation, priority). */
    arrivals: seq<(Animation, int)>,
    /** Whether the coroutine raises something other than `AnimationInterrupt`. */
    raises: bool)

  predicate NoArrivals(script: seq<Play>)
  {
    forall k :: 0 <= k < |script| ==> script[k].arrivals == []
  }

  /**
   * The module globals `animation_heap`, `animation_priority`,
   * `animation_running` and `animation_interrupt`, the class counter of
   * `AnimationItem`, and how many runner tasks have been created and how
   * many have ended.
   */
  class Animations {
    var heap: seq<Item>
    var counter: nat
    var priority: Option<int>
    var running: bool
    var interrupt: bool
    var runners: nat
    var ended: nat

    /**
     * A priority is recorded exactly while a runner is running, the
     * interrupt flag is only raised while one is, at most one runner is
     * alive at any time, and the queued items carry distinct counters.
     */
    predicate Valid()
      reads this
    {
      (running <==> priority.Some?) &&
      (!running ==> !interrupt) &&
      runners == ended + (if running then 1 else 0) &&
      Numbered(heap, counter)
    }

    /** The module as loaded: nothing queued, nothing running. */
    constructor()
      ensures Valid()
      ensures heap == [] && counter == 0 && priority.None? && !running && !interrupt
      ensures runners == 0 && ended == 0
    {
      heap := [];
      counter := 0;
      priority := None;
      running := false;
      interrupt := false;
      runners := 0;
      ended := 0;
    }

    /**
     * `enqueue_animation`: raise the interrupt flag when something is
     * running and the newcomer's priority is strictly lower, push the
     * newcomer with the next counter value, and when nothing is running
     * record its priority and start one runner.
     */
    method Enqueue(animation: Animation, p: int)
      requires Valid()
      modifies this
      ensures Valid()
      ensures interrupt <==> old(interrupt) || (old(running) && p < old(priority).value)
      ensures counter == old(counter) + 1
      ensures heap == old(heap) + [Item(p, counter, animation)]
      ensures running
      ensures priority == if old(running) then old(priority) else Some(p)
      ensures runners == old(runners) + (if old(running) then 0 else 1) && ended == old(ended)
    {
      if running && p < priority.value {
        interrupt := true;
      }
      counter := counter + 1;
      heap := heap + [Item(p, counter, animation)];
      if !running {
        running := true;
        priority := Some(p);
        runners := runners + 1;
      }
    }

    /** `heapq.heappop`, then the popped item's priority becomes the running one. */
    method Pop() returns (item: Item)
      requires Valid() && running && heap != []
      modifies this`heap, this`priority
      ensures Valid()
      ensures item in old(heap)
      ensures forall x :: x in old(heap) && x != item ==> Less(item, x)
      ensures forall x :: x in heap ==> x in old(heap) && Less(item, x)
      ensures multiset(heap) + multiset{item} == multiset(old(heap))
      ensures priority == Some(item.priority)
    {
      var m := MinIndex(heap);
      item := heap[m];
      var rest := Remove(heap, m);
      PopTakesTheLeast(heap, counter, m);
      heap := rest;
      priority := Some(item.priority);
    }

    /** `finally`: no priority, not running, no interrupt; the runner has ended. */
    method Finish()
      requires Valid() && running
      modifies this`priority, this`running, this`interrupt, this`ended
      ensures Valid()
      ensures priority.None? && !running && !interrupt && ended == old(ended) + 1
    {
      priority := None;
      running := false;
      interrupt := false;
      ended := ended + 1;
    }

    /**
     * One turn of `run_animations`: pop the first item and play it while
     * the `arrivals` of `play` are queued. `Stop` raises `AnimationClear`
     * at once, which empties the heap; an animation that raises anything
     * else ends the runner through `finally`; otherwise the animation ends,
     * on its own or interrupted, and the interrupt flag is cleared.
     */
    method PlayNext(play: Play) returns (item: Item, raised: bool)
      requires Valid() && running && heap != []
      modifies this
      ensures Valid()
      ensures item in old(heap)
      ensures runners == old(runners)
      ensures raised ==> item.animation != Stop && play.raises
      ensures raised ==> priority.None? && !running && !interrupt && ended == old(ended) + 1
      ensures !raised ==> running && !interrupt && ended == old(ended)
      ensures item.animation == Stop ==> heap == []
      ensures item.animation == Stop || play.arrivals == [] ==>
        forall x :: x in heap ==> x in old(heap) && Less(item, x)
    {
      item := Pop();
      ghost var afterPop := heap;
      raised := false;
      if item.animation == Stop {
        heap := [];
      } else {
        for j := 0 to |play.arrivals|
          invariant Valid() && running
          invariant runners == old(runners) && ended == old(ended)
          invariant play.arrivals == [] ==> heap == afterPop
        {
          Enqueue(play.arrivals[j].0, play.arrivals[j].1);
        }
        if play.raises {
          Finish();
          return item, true;
        }
      }
      interrupt := false;
    }

    /**
     * `run_animations`, for as many animations as `script` describes. The
     * runner ends, through `finally`, when the heap is empty or an
     * animation raises; until then it keeps the priority of what it plays.
     */
    method RunAnimations(script: seq<Play>) returns (played: seq<Item>)
      requires Valid() && running
      modifies this
      ensures Valid()
      ensures |played| <= |script|
      ensures runners == old(runners)
      ensures running ==> |played| == |script| && heap != [] && (|played| > 0 ==> !interrupt)
      ensures running ==> ended == old(ended)
      ensures !running ==> priority.None? && !interrupt && ended == old(ended) + 1
      ensures !running ==> heap == [] || (|played| > 0 && script[|played| - 1].raises)
      ensures forall i :: 0 <= i < |played| - 1 ==> played[i].animation != Stop
      ensures |played| > 0 && played[|played| - 1].animation == Stop ==> !running && heap == []
      ensures NoArrivals(script) ==> forall i, j :: 0 <= i < j < |played| ==> Less(played[i], played[j])
    {
      played := [];
      while heap != [] && |played| < |script|
        invariant Valid() && running
        invariant |played| <= |script|
        invariant runners == old(runners) && ended == old(ended)
        invariant |played| > 0 ==> !interrupt
        invariant forall i :: 0 <= i < |played| - 1 ==> played[i].animation != Stop
        invariant |played| > 0 && played[|played| - 1].animation == Stop ==> heap == []
        invariant NoArrivals(script[..|played|]) ==> Ascending(played, heap)
        decreases |script| - |played|
      {
        var k := |played|;
        ghost var before := heap;
        ghost var sorted := NoArrivals(script[..k + 1]);
        assert sorted ==> NoArrivals(script[..k]) && script[k].arrivals == [] by {
          assert forall i :: 0 <= i < k ==> script[..k + 1][i] == script[..k][i];
          assert script[..k + 1][k] == script[k];
        }
        var item, raised := PlayNext(script[k]);
        AscendingExtends(played, before, item, heap, sorted);
        played := played + [item];
        if raised {
          return;
        }
      }
      if heap == [] {
        Finish();
      }
    }
  }

  /** The items played so far are in `Less` order, and all come before what is still queued. */
  predicate Ascending(played: seq<Item>, heap: seq<Item>)
  {
    (forall i, j :: 0 <= i < j < |played| ==> Less(played[i], played[j])) &&
    (forall i, x :: 0 <= i < |played| && x in heap ==> Less(played[i], x))
  }

  lemma AscendingExtends(played: seq<Item>, before: seq<Item>, item: Item, after: seq<Item>, sorted: bool)
    requires sorted ==> Ascending(played, before)
    requires item in before
    requires sorted ==> forall x :: x in after ==> x in before && Less(item, x)
    ensures sorted ==> Ascending(played + [item], after)
  {
  }

  /** Two animations queued at the same priority on an idle display play in the order they were queued. */
  method SamePriorityPlaysInOrder(first: Animation, second: Animation, p: int) returns (popped: Item)
    ensures popped.animation == first && popped.priority == p
  {
    var a, b := Item(p, 1, first), Item(p, 2, second);
    var queue := new Animations();
    queue.Enqueue(first, p);
    assert queue.heap == [a];
    queue.Enqueue(second, p);
    assert queue.heap == [a, b];
    popped := queue.Pop();
    assert popped == a || popped == b;
    assert !Less(b, a);
    assert popped != b;
  }

  /** A more urgent request raises the interrupt flag over whatever is playing; an equal or less urgent one does not. */
  method UrgentRequestInterrupts(queue: Animations, animation: Animation, p: int) returns (interrupted: bool)
    requires queue.Valid() && queue.running && !queue.interrupt
    modifies queue
    ensures interrupted <==> p < old(queue.priority).value
  {
    queue.Enqueue(animation, p);
    interrupted := queue.interrupt;
  }

  // ---------------------------------------------------------------------
  // Clock and countdown text
  // ---------------------------------------------------------------------

  /**
   * The clock's fields: `(ts // 3600) % 12`, `(ts // 60) % 60` and
   * `ts % 60`. Python's `//` and `%` floor, which for a positive divisor
   * is what Dafny's `/` and `%` do.
   */
  function ClockFields(ts: int): (r: (int, int, int))
    ensures 0 <= r.0 < 12 && 0 <= r.1 < 60 && 0 <= r.2 < 60
  {
    ((ts / 3600) % 12, (ts / 60) % 60, ts % 60)
  }

  /** The three fields are the position on a twelve-hour dial: they give back the time modulo twelve hours. */
  lemma ClockFieldsTellTime(ts: int)
    ensures var (h, m, s) := ClockFields(ts); h * 3600 + m * 60 + s == ts % 43200
  {
    var q, s := ts / 60, ts % 60;
    var hours, m := q / 60, q % 60;
    assert ts == 3600 * hours + (60 * m + s);
    assert ts / 3600 == hours;
    var h, days := hours % 12, hours / 12;
    assert ts == 43200 * days + (3600 * h + 60 * m + s);
  }

  function DigitChar(d: nat): (c: char)
    requires d < 10
    ensures '0' <= c <= '9' && c as int - '0' as int == d
  {
    (d + '0' as int) as char
  }

  /** `"{:02}".format(n)`: the decimal digits of `n`, padded with zeros to two. */
  function Format02(n: nat): (r: string)
    ensures |r| >= 2
  {
    if n < 10 then ['0', DigitChar(n)]
    else if n < 100 then [DigitChar(n / 10), DigitChar(n % 10)]
    else Format02(n / 10) + [DigitChar(n % 10)]
  }

  /** The value of two decimal digits. */
  function TwoDigitValue(s: string): int
    requires |s| == 2
  {
    (s[0] as int - '0' as int) * 10 + (s[1] as int - '0' as int)
  }

  /** Below 100 the padded text is exactly two digits, and they read back as the number. */
  lemma Format02ReadsBack(n: nat)
    requires n < 100
    ensures |Format02(n)| == 2 && TwoDigitValue(Format02(n)) == n
  {
  }

  /** `"{:02}:{:02}".format(a, b)`. */
  function FieldsText(a: nat, b: nat): (r: string)
    ensures |r| == |Format02(a)| + 1 + |Format02(b)|
  {
    Format02(a) + [':'] + Format02(b)
  }

  /** The clock face: hours and minutes of the dial. */
  function ClockText(ts: int): (r: string)
    ensures |r| == 5 && r[2] == ':'
  {
    var (h, m, _) := ClockFields(ts);
    FieldsText(h as nat, m as nat)
  }

  /** The face reads back as the dial's hours and minutes. */
  lemma ClockTextReadsBack(ts: int)
    ensures var (h, m, _) := ClockFields(ts); var r := ClockText(ts);
      TwoDigitValue(r[..2]) == h && TwoDigitValue(r[3..]) == m
  {
    var (h, m, _) := ClockFields(ts);
    Format02ReadsBack(h as nat);
    Format02ReadsBack(m as nat);
    var r := ClockText(ts);
    assert r[..2] == Format02(h as nat);
    assert r[3..] == Format02(m as nat);
  }

  /**
   * The countdown's length in seconds: `min(3599, max(0, timestamp -
   * time.time()))`, so that it fits the `MM:SS` face.
   */
  function CountdownSeconds(timestamp: int, now: int): (r: int)
    ensures 0 <= r <= 3599
    ensures 0 <= timestamp - now <= 3599 ==> r == timestamp - now
    ensures timestamp - now > 3599 ==> r == 3599
    ensures timestamp - now < 0 ==> r == 0
  {
    var remaining := timestamp - now;
    if remaining < 0 then 0 else if remaining > 3599 then 3599 else remaining
  }

  /** Python's float `x % 60` for a non-negative `x`: `x - 60 * floor(x / 60)`. */
  function Mod60(x: real): (r: real)
    ensures 0.0 <= r < 60.0
  {
    x - 60.0 * ((x / 60.0).Floor as real)
  }

  /**
   * The countdown face for `timer = max(0, diff)` seconds left (a float):
   * `floor(timer / 60 % 60)` minutes and `floor(timer % 60)` seconds.
   */
  function CountdownFields(diff: real): (r: (int, int))
    ensures 0 <= r.0 < 60 && 0 <= r.1 < 60
  {
    var timer := if diff < 0.0 then 0.0 else diff;
    (Mod60(timer / 60.0).Floor, Mod60(timer).Floor)
  }

  /** Within the hour the countdown shows whole minutes and the whole seconds past them. */
  lemma CountdownTellsTime(diff: real)
    requires 0.0 <= diff < 3600.0
    ensures var (m, s) := CountdownFields(diff); m * 60 + s == diff.Floor
  {
  }

  /** The countdown face is five characters, whatever is left. */
  function CountdownText(diff: real): (r: string)
    ensures |r| == 5 && r[2] == ':'
  {
    var (m, s) := CountdownFields(diff);
    FieldsText(m as nat, s as nat)
  }

  // ---------------------------------------------------------------------
  // Sliding digits
  // ---------------------------------------------------------------------

  /** Whether a character stays put or slides between two faces. */
  datatype RangeKind = Fixed | Moving

  /** An entry of `ranges`: `(kind, start, end)`, `end` excluded. */
  datatype Range = Range(kind: RangeKind, start: nat, end: nat)

  /** A character is fixed where both faces show the same character, and moving where they differ. */
  function KindAt(previous: string, clock: string, i: nat): (kind: RangeKind)
    requires i < |previous| && i < |clock|
    ensures kind == Moving <==> previous[i] != clock[i]
  {
    if previous[i] == clock[i] then Fixed else Moving
  }

  /** A non-empty range every index of which has the range's kind. */
  predicate Uniform(previous: string, clock: string, r: Range)
  {
    r.start < r.end <= |previous| && r.end <= |clock| &&
    forall i :: r.start <= i < r.end ==> KindAt(previous, clock, i) == r.kind
  }

  /**
   * `ranges` tiles `[from, upTo)`: uniform ranges, each starting where the
   * one before it ends, with kinds that alternate.
   */
  predicate Tiles(previous: string, clock: string, ranges: seq<Range>, from: nat, upTo: nat)
    decreases |ranges|
  {
    if ranges == [] then from == upTo
    else
      ranges[0].start == from && Uniform(previous, clock, ranges[0]) &&
      (|ranges| > 1 ==> ranges[1].kind != ranges[0].kind) &&
      Tiles(previous, clock, ranges[1..], ranges[0].end, upTo)
  }

  /** A tiling grows by a uniform range that starts where it ends and switches kind. */
  lemma {:induction false} TilesAppend(previous: string, clock: string, ranges: seq<Range>, from: nat, mid: nat, r: Range)
    requires Tiles(previous, clock, ranges, from, mid)
    requires r.start == mid && Uniform(previous, clock, r)
    requires |ranges| > 0 ==> ranges[|ranges| - 1].kind != r.kind
    ensures Tiles(previous, clock, ranges + [r], from, r.end)
    decreases |ranges|
  {
    if ranges != [] {
      TilesAppend(previous, clock, ranges[1..], ranges[0].end, mid, r);
      assert (ranges + [r])[1..] == ranges[1..] + [r];
    } else {
      assert Tiles(previous, clock, [r][1..], r.end, r.end);
    }
  }

  /**
   * The segmentation loop of the clock and countdown faces: walk the two
   * faces and close a range whenever a character switches between staying
   * and changing, then close the last one at the end.
   */
  method Segment(previous: string, clock: string) returns (ranges: seq<Range>)
    requires |previous| == |clock| && |previous| > 0
    ensures |ranges| > 0 && Tiles(previous, clock, ranges, 0, |previous|)
  {
    ranges := [];
    var start: nat := 0;
    var kind: Option<RangeKind> := None;
    for i := 0 to |previous|
      invariant kind.None? <==> i == 0
      invariant kind.Some? ==> start < i && Uniform(previous, clock, Range(kind.value, start, i))
      invariant Tiles(previous, clock, ranges, 0, start)
      invariant |ranges| > 0 ==> kind.Some? && ranges[|ranges| - 1].kind != kind.value
    {
      if kind.None? {
        if previous[i] == clock[i] {
          kind := Some(Fixed);
          start := i;
        } else {
          kind := Some(Moving);
          start := i;
        }
      } else if kind.value == Fixed {
        if previous[i] != clock[i] {
          TilesAppend(previous, clock, ranges, 0, start, Range(Fixed, start, i));
          ranges := ranges + [Range(Fixed, start, i)];
          kind := Some(Moving);
          start := i;
        }
      } else {
        if previous[i] == clock[i] {
          TilesAppend(previous, clock, ranges, 0, start, Range(Moving, start, i));
          ranges := ranges + [Range(Moving, start, i)];
          kind := Some(Fixed);
          start := i;
        }
      }
    }
    TilesAppend(previous, clock, ranges, 0, start, Range(kind.value, start, |previous|));
    ranges := ranges + [Range(kind.value, start, |previous|)];
  }

  /**
   * There is only one way to tile a span: the ranges `Segment` returns are
   * the maximal runs of staying and of changing characters.
   */
  lemma {:induction false} TilingIsUnique(previous: string, clock: string, r1: seq<Range>, r2: seq<Range>, from: nat, upTo: nat)
    requires Tiles(previous, clock, r1, from, upTo) && Tiles(previous, clock, r2, from, upTo)
    ensures r1 == r2
    decreases |r1|
  {
    if r1 != [] {
      EndsWithinSpan(previous, clock, r1, from, upTo);
      EndsWithinSpan(previous, clock, r2, from, upTo);
      if r2 != [] {
        var a, b := r1[0], r2[0];
        assert KindAt(previous, clock, from) == a.kind == b.kind;
        NextSwitches(previous, clock, r1, from, upTo);
        NextSwitches(previous, clock, r2, from, upTo);
        assert a.end == b.end;
        TilingIsUnique(previous, clock, r1[1..], r2[1..], a.end, upTo);
        assert r1 == [a] + r1[1..] && r2 == [b] + r2[1..];
      }
    } else if r2 != [] {
      EndsWithinSpan(previous, clock, r2, from, upTo);
    }
  }

  /** A tiling of `[from, upTo)` with ranges in it has `from < upTo`, and its first range ends by `upTo`. */
  lemma {:induction false} EndsWithinSpan(previous: string, clock: string, ranges: seq<Range>, from: nat, upTo: nat)
    requires Tiles(previous, clock, ranges, from, upTo) && ranges != []
    ensures from < ranges[0].end <= upTo
    decreases |ranges|
  {
    if |ranges| > 1 {
      EndsWithinSpan(previous, clock, ranges[1..], ranges[0].end, upTo);
    }
  }

  /** Where the first range of a tiling ends, either the span ends or the kind switches. */
  lemma NextSwitches(previous: string, clock: string, ranges: seq<Range>, from: nat, upTo: nat)
    requires Tiles(previous, clock, ranges, from, upTo) && ranges != []
    ensures ranges[0].end == upTo || (ranges[0].end < |previous| && ranges[0].end < |clock| &&
      KindAt(previous, clock, ranges[0].end) != ranges[0].kind)
  {
    if |ranges| > 1 {
      assert ranges[1..][0] == ranges[1];
      assert Uniform(previous, clock, ranges[1]);
    }
  }

  /** Every index of the faces lies in some range, whose kind says whether its character slides. */
  lemma {:induction false} TilesCover(previous: string, clock: string, ranges: seq<Range>, from: nat, upTo: nat, i: nat)
    requires Tiles(previous, clock, ranges, from, upTo) && from <= i < upTo
    requires i < |previous| && i < |clock|
    ensures exists k :: 0 <= k < |ranges| && ranges[k].start <= i < ranges[k].end && ranges[k].kind == KindAt(previous, clock, i)
    decreases |ranges|
  {
    if i >= ranges[0].end {
      TilesCover(previous, clock, ranges[1..], ranges[0].end, upTo, i);
      var k :| 0 <= k < |ranges[1..]| && ranges[1..][k].start <= i < ranges[1..][k].end &&
        ranges[1..][k].kind == KindAt(previous, clock, i);
      assert ranges[k + 1] == ranges[1..][k];
    } else {
      assert ranges[0].start <= i < ranges[0].end;
    }
  }

  // ---------------------------------------------------------------------
  // Icons
  // ---------------------------------------------------------------------

  /**
   * Whether an icon lights the pixel at `row`, `column`: byte
   * `row * 2 + column // 8`, bit `7 - column % 8`.
   */
  function IconBit(icon: seq<byte>, row: nat, column: nat): (lit: bool)
    requires column < 16 && row * 2 + column / 8 < |icon|
    ensures lit == Bit(icon[row * 2 + column / 8] as nat, 7 - column % 8)
  {
    AndSingleBit(icon[row * 2 + column / 8], 7 - column % 8);
    BitAnd(icon[row * 2 + column / 8], Pow2(7 - column % 8)) != 0
  }

  /**
   * Each row of an icon is a 16-bit big-endian number, two bytes, whose
   * most significant bit is column 0.
   */
  lemma IconRowsAreBigEndian(icon: seq<byte>, row: nat, column: nat)
    requires column < 16 && row * 2 + 1 < |icon|
    ensures IconBit(icon, row, column) == Bit(icon[row * 2] as nat * 256 + icon[row * 2 + 1], 15 - column)
  {
    var hi, lo := icon[row * 2], icon[row * 2 + 1];
    var bit := 7 - column % 8;
    AndSingleBit(icon[row * 2 + column / 8], bit);
    assert Pow2(8) == 256 by {
      assert Pow2(1) == 2 && Pow2(2) == 4 && Pow2(3) == 8 && Pow2(4) == 16;
      assert Pow2(5) == 32 && Pow2(6) == 64 && Pow2(7) == 128;
    }
    BitSplit(hi, lo, 8, 15 - column);
  }

  /** The bits of `hi * 2^k + lo`, for `lo < 2^k`: those of `lo`, then those of `hi`. */
  lemma {:induction false} BitSplit(hi: nat, lo: nat, k: nat, i: nat)
    requires lo < Pow2(k)
    ensures Bit(hi * Pow2(k) + lo, i) == if i < k then Bit(lo, i) else Bit(hi, i - k)
  {
    if k > 0 {
      var x := hi * Pow2(k) + lo;
      assert hi * Pow2(k) == 2 * (hi * Pow2(k - 1));
      assert x / 2 == hi * Pow2(k - 1) + lo / 2 && x % 2 == lo % 2;
      if i > 0 {
        BitSplit(hi, lo / 2, k - 1, i - 1);
      }
    }
  }

  /** `draw_icon`: the pixels set for a 10 by 16 icon drawn at `x`, `y`, turned a quarter. */
  method DrawIcon(icon: seq<byte>, x: int, y: int) returns (pixels: set<(int, int)>)
    requires |icon| >= 20
    ensures forall row, column :: 0 <= row < 10 && 0 <= column < 16 ==>
      ((x + row, y + (15 - column)) in pixels <==> IconBit(icon, row, column))
    ensures forall p :: p in pixels ==> x <= p.0 < x + 10 && y <= p.1 < y + 16
  {
    pixels := {};
    for row := 0 to 10
      invariant forall r, c :: 0 <= r < 10 && 0 <= c < 16 ==>
        ((x + r, y + (15 - c)) in pixels <==> r < row && IconBit(icon, r, c))
      invariant forall p :: p in pixels ==> x <= p.0 < x + row && y <= p.1 < y + 16
    {
      pixels := DrawIconRow(icon, x, y, row, pixels);
    }
  }

  /** The inner loop of `draw_icon`: the sixteen pixels of one icon row, added to those drawn so far. */
  method DrawIconRow(icon: seq<byte>, x: int, y: int, row: nat, before: set<(int, int)>) returns (pixels: set<(int, int)>)
    requires |icon| >= 20 && row < 10
    ensures forall c :: 0 <= c < 16 ==>
      ((x + row, y + (15 - c)) in pixels <==> (x + row, y + (15 - c)) in before || IconBit(icon, row, c))
    ensures forall p :: p in pixels ==> p in before || (p.0 == x + row && y <= p.1 < y + 16)
    ensures forall p :: p in before ==> p in pixels
  {
    pixels := before;
    for column := 0 to 16
      invariant forall c :: 0 <= c < 16 ==>
        ((x + row, y + (15 - c)) in pixels <==> (x + row, y + (15 - c)) in before || (c < column && IconBit(icon, row, c)))
      invariant forall p :: p in pixels ==> p in before || (p.0 == x + row && y <= p.1 < y + 16)
      invariant before <= pixels
    {
      var byteIndex := row * 2 + column / 8;
      var bitIndex := 7 - column % 8;
      ghost var drawn := pixels;
      if BitAnd(icon[byteIndex], Pow2(bitIndex)) != 0 {
        pixels := pixels + {(x + row, y + (15 - column))};
      }
      assert pixels == if IconBit(icon, row, column) then drawn + {(x + row, y + (15 - column))} else drawn;
    }
  }
}
