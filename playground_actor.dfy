/**
 * The Circuit Playground actor of the desk service: it reads the sensor's
 * line stream, turns each `ra1<value>` line into a `ReadingUpdated`
 * message to itself, and posts a soil-capacitance metric to Datadog at
 * most once a minute.
 *
 * Instants are UTC nanoseconds (`chrono::Utc::now()` is a parameter). The
 * POST is an oracle: `postOk` says whether the request was sent and
 * answered with a success status; both results are unwrapped, so a
 * failure panics.
 */
module PlaygroundActor {
  import opened Common
  import opened Serial

  const NANOS_PER_SECOND: int := 1_000_000_000
  const MINUTE: int := 60 * NANOS_PER_SECOND

  /** What the stream handler does with one item. */
  datatype StreamOutcome = NoReading | ReadingUpdated(value: nat) | StreamPanic

  predicate StartsWithReading(line: string)
  {
    |line| >= 3 && line[..3] == "ra1"
  }

  /**
   * The stream handler: `c` (the heartbeat) and every line not starting
   * with `ra1` do nothing; after `ra1` the rest of the line must be a u32
   * (otherwise the `unwrap` panics) and becomes one `ReadingUpdated`.
   */
  function HandleStream(item: StreamItem): (r: StreamOutcome)
    ensures !item.Line? ==> r == NoReading
    ensures item.Line? && !StartsWithReading(item.text) ==> r == NoReading
    ensures item.Line? && StartsWithReading(item.text) ==>
      match ParseU32Text(item.text[3..])
        case None => r == StreamPanic
        case Some(value) => r == ReadingUpdated(value)
  {
    match item
      case Line(line) =>
        if line == "c" then NoReading
        else if StartsWithReading(line) then
          match ParseU32Text(line[3..])
            case None => StreamPanic
            case Some(value) => ReadingUpdated(value)
        else NoReading
      case _ => NoReading
  }

  /** The line the firmware prints for a reading (`print('ra1' + str(value))`) yields that reading. */
  lemma ReadingLineRoundTrip(value: nat)
    requires value < U32_LIMIT
    ensures HandleStream(Line("ra1" + NatString(value))) == ReadingUpdated(value)
  {
    var line := "ra1" + NatString(value);
    assert line[..3] == "ra1" && line[3..] == NatString(value);
    NatStringParsesAsU32(value);
  }

  /** The heartbeat line yields nothing. */
  lemma HeartbeatIgnored()
    ensures HandleStream(Line("c")) == NoReading
  {
  }

  /** Whether a reading at `now` is skipped: one was submitted less than a minute before. */
  function Recent(lastSubmittedAt: Option<int>, now: int): (recent: bool)
    ensures lastSubmittedAt.None? ==> !recent
    ensures lastSubmittedAt.Some? ==> (recent <==> now < lastSubmittedAt.value + MINUTE)
  {
    lastSubmittedAt.Some? && now - lastSubmittedAt.value < MINUTE
  }

  /** The rate limit's boundary: a reading exactly one minute after the last submission is sent. */
  lemma OneMinuteBoundary(last: int)
    ensures !Recent(Some(last), last + MINUTE)
    ensures Recent(Some(last), last + MINUTE - 1)
  {
  }

  /** One metric posted: the instant it was taken and its Unix timestamp in seconds. */
  datatype Submission = Submission(at: int, timestamp: int, value: nat)

  /** `current_date.timestamp()`: whole seconds, rounded toward the past. */
  function Timestamp(at: int): (seconds: int)
    ensures seconds * NANOS_PER_SECOND <= at < (seconds + 1) * NANOS_PER_SECOND
  {
    at / NANOS_PER_SECOND
  }

  datatype ReadingOutcome = Skipped | Submitted | Panicked

  /**
   * The rate limit as an invariant of what was posted: consecutive
   * submissions are at least a minute apart, and the actor remembers the
   * instant of the last one.
   */
  predicate Spaced(lastSubmittedAt: Option<int>, posted: seq<Submission>)
  {
    (forall i :: 0 < i < |posted| ==> posted[i].at - posted[i - 1].at >= MINUTE) &&
    (if |posted| == 0 then lastSubmittedAt.None? else lastSubmittedAt == Some(posted[|posted| - 1].at))
  }

  /** Submitting at an instant the rate limit lets through keeps the submissions spaced. */
  lemma {:induction false} SubmitKeepsSpaced(lastSubmittedAt: Option<int>, posted: seq<Submission>, s: Submission)
    requires Spaced(lastSubmittedAt, posted) && !Recent(lastSubmittedAt, s.at)
    ensures Spaced(Some(s.at), posted + [s])
  {
    var p := posted + [s];
    forall i | 0 < i < |p|
      ensures p[i].at - p[i - 1].at >= MINUTE
    {
      if i == |p| - 1 {
        assert p[i - 1] == posted[|posted| - 1];
      } else {
        assert p[i] == posted[i] && p[i - 1] == posted[i - 1];
      }
    }
  }

  class CircuitPlayground {
    var lastSubmittedAt: Option<int>
    /** Every metric posted, in order. */
    var posted: seq<Submission>

    predicate Valid()
      reads this
    {
      Spaced(lastSubmittedAt, posted)
    }

    constructor()
      ensures lastSubmittedAt == None && posted == [] && Valid()
    {
      lastSubmittedAt := None;
      posted := [];
    }

    /**
     * `ReadingUpdated`: skip a reading less than a minute after the last
     * submission; otherwise post it, and only once the post succeeded
     * remember when.
     */
    method HandleReading(value: nat, now: int, postOk: bool) returns (outcome: ReadingOutcome)
      requires Valid()
      modifies this
      ensures Valid()
      ensures outcome.Skipped? <==> Recent(old(lastSubmittedAt), now)
      ensures outcome.Submitted? <==> !Recent(old(lastSubmittedAt), now) && postOk
      ensures outcome.Submitted? ==>
        posted == old(posted) + [Submission(now, Timestamp(now), value)] && lastSubmittedAt == Some(now)
      ensures !outcome.Submitted? ==> posted == old(posted) && lastSubmittedAt == old(lastSubmittedAt)
    {
      if lastSubmittedAt.Some? && now - lastSubmittedAt.value < MINUTE {
        return Skipped;
      }
      if !postOk {
        return Panicked;
      }
      SubmitKeepsSpaced(lastSubmittedAt, posted, Submission(now, Timestamp(now), value));
      posted := posted + [Submission(now, Timestamp(now), value)];
      lastSubmittedAt := Some(now);
      outcome := Submitted;
    }
  }
}
