/**
 * The Urban air-quality relay (`src/urban.rs`). The sensor posts readings
 * to the desk's `/submit` endpoint; each payload is queued, and once a
 * minute `Tick` turns the queue into Datadog gauge series, one per reading
 * name of the first queued payload and one point per queued payload, posts
 * them and clears the queue.
 *
 * The RFC 3339 timestamp parser and the HTTP post are parameters: the
 * parser gives Unix seconds or None, the post succeeds or not. Every
 * `unwrap` that fails is a panic of the actor, which keeps its queue; a
 * post that fails has still been sent.
 */
module Urban {
  import opened Common
  import opened Json

  datatype Point = Point(timestamp: int, value: real)

  datatype Series = Series(metric: string, points: seq<Point>)

  /** What a `Tick` did. */
  datatype TickOutcome = Idle | Posted(body: Json) | Panicked

  /** The field names of a JSON object, in order; nothing for other values. */
  function Keys(value: Json): (r: seq<string>)
    ensures value.JObject? ==> |r| == |value.fields|
    ensures !value.JObject? ==> r == []
    ensures value.JObject? ==> forall k :: 0 <= k < |r| ==> r[k] == value.fields[k].0
  {
    if value.JObject? then KeyList(value.fields) else []
  }

  function KeyList(fields: seq<(string, Json)>): (r: seq<string>)
    ensures |r| == |fields|
    ensures forall k :: 0 <= k < |r| ==> r[k] == fields[k].0
  {
    if fields == [] then [] else [fields[0].0] + KeyList(fields[1..])
  }

  /**
   * One queued payload's point for one reading name: its timestamp parsed
   * and converted to Unix seconds, and `readings[key]` as a float; None
   * where an `unwrap` panics.
   */
  function PointOf(payload: Json, key: string, parseTime: string -> Option<int>): (r: Option<Point>)
    ensures r.Some? <==>
      AsStr(Get(payload, "timestamp")).Some? &&
      parseTime(AsStr(Get(payload, "timestamp")).value).Some? &&
      AsF64(Get(Get(payload, "readings"), key)).Some?
  {
    match AsStr(Get(payload, "timestamp"))
      case None => None
      case Some(text) =>
        match parseTime(text)
          case None => None
          case Some(seconds) =>
            match AsF64(Get(Get(payload, "readings"), key))
              case None => None
              case Some(value) => Some(Point(seconds, value))
  }

  /** The points of one series: one per queued payload, in queue order; None if any of them panics. */
  function Points(queue: seq<Json>, key: string, parseTime: string -> Option<int>): (r: Option<seq<Point>>)
    ensures r.Some? <==> forall i :: 0 <= i < |queue| ==> PointOf(queue[i], key, parseTime).Some?
    ensures r.Some? ==> |r.value| == |queue|
    ensures r.Some? ==> forall i :: 0 <= i < |queue| ==> r.value[i] == PointOf(queue[i], key, parseTime).value
  {
    if queue == [] then Some([])
    else
      match PointOf(queue[0], key, parseTime)
        case None => None
        case Some(first) =>
          match Points(queue[1..], key, parseTime)
            case None => None
            case Some(rest) => Some([first] + rest)
  }

  /** The series of every reading name in `keys`, in that order; None if any point panics. */
  function SeriesOf(queue: seq<Json>, keys: seq<string>, parseTime: string -> Option<int>): (r: Option<seq<Series>>)
    ensures r.Some? <==> forall k :: 0 <= k < |keys| ==> Points(queue, keys[k], parseTime).Some?
    ensures r.Some? ==> |r.value| == |keys|
    ensures r.Some? ==> forall k :: 0 <= k < |keys| ==>
      r.value[k] == Series("urban." + keys[k], Points(queue, keys[k], parseTime).value)
  {
    if keys == [] then Some([])
    else
      match Points(queue, keys[0], parseTime)
        case None => None
        case Some(points) =>
          match SeriesOf(queue, keys[1..], parseTime)
            case None => None
            case Some(rest) => Some([Series("urban." + keys[0], points)] + rest)
  }

  /**
   * The series a `Tick` posts for a non-empty queue: the reading names
   * come from the first payload, whose `readings` must be an object.
   */
  function TickSeries(queue: seq<Json>, parseTime: string -> Option<int>): (r: Option<seq<Series>>)
    requires queue != []
    ensures r.Some? ==> Get(queue[0], "readings").JObject?
    ensures r.Some? ==> |r.value| == |Keys(Get(queue[0], "readings"))|
  {
    var readings := Get(queue[0], "readings");
    if !readings.JObject? then None else SeriesOf(queue, Keys(readings), parseTime)
  }

  /** A point as Datadog wants it; its timestamp and value read back. */
  function PointJson(p: Point): (r: Json)
    ensures Get(r, "timestamp") == JNumber(p.timestamp)
    ensures AsF64(Get(r, "value")) == Some(p.value)
  {
    var r := JObject([("timestamp", JNumber(p.timestamp)), ("value", JFloat(p.value))]);
    LookupFirst(r.fields, "timestamp", 0);
    LookupFirst(r.fields, "value", 1);
    r
  }

  /** A gauge series (type 3) for the host `deskpi`; its metric and its points, in order, read back. */
  function SeriesJson(s: Series): (r: Json)
    ensures AsStr(Get(r, "metric")) == Some(s.metric) && Get(r, "type") == JNumber(3)
    ensures |Members(Get(r, "points"))| == |s.points|
    ensures forall i :: 0 <= i < |s.points| ==> Members(Get(r, "points"))[i] == PointJson(s.points[i])
  {
    var r := JObject([
      ("metric", JString(s.metric)),
      ("type", JNumber(3)),
      ("points", JArray(seq(|s.points|, i requires 0 <= i < |s.points| => PointJson(s.points[i])))),
      ("resources", JArray([JObject([("name", JString("deskpi")), ("type", JString("host"))])]))
    ]);
    LookupFirst(r.fields, "metric", 0);
    LookupFirst(r.fields, "type", 1);
    LookupFirst(r.fields, "points", 2);
    r
  }

  /** The body of the post: `{"series": [...]}`, the series in order. */
  function Body(series: seq<Series>): (r: Json)
    ensures |Members(Get(r, "series"))| == |series|
    ensures forall i :: 0 <= i < |series| ==> Members(Get(r, "series"))[i] == SeriesJson(series[i])
  {
    var r := JObject([("series", JArray(seq(|series|, i requires 0 <= i < |series| => SeriesJson(series[i]))))]);
    LookupFirst(r.fields, "series", 0);
    r
  }

  class UrbanActor {
    /** `readings_queue`. */
    var readingsQueue: seq<Json>
    /** Every body posted to the series endpoint, in order. */
    var posted: seq<Json>

    /** `on_start`: nothing queued yet. */
    constructor()
      ensures readingsQueue == [] && posted == []
    {
      readingsQueue := [];
      posted := [];
    }

    /** `UrbanReadings`: the payload joins the end of the queue. */
    method HandleReadings(payload: Json)
      modifies this`readingsQueue
      ensures readingsQueue == old(readingsQueue) + [payload]
    {
      readingsQueue := readingsQueue + [payload];
    }

    /**
     * `Tick`: nothing when the queue is empty; otherwise the series of the
     * queue posted and, only if the post succeeds, the queue cleared.
     */
    method HandleTick(parseTime: string -> Option<int>, postSucceeds: bool) returns (outcome: TickOutcome)
      modifies this`readingsQueue, this`posted
      ensures old(readingsQueue) == [] ==> outcome == Idle && readingsQueue == [] && posted == old(posted)
      ensures old(readingsQueue) != [] && TickSeries(old(readingsQueue), parseTime).None? ==>
        outcome == Panicked && posted == old(posted)
      ensures old(readingsQueue) != [] && TickSeries(old(readingsQueue), parseTime).Some? ==>
        posted == old(posted) + [Body(TickSeries(old(readingsQueue), parseTime).value)] &&
        outcome == (if postSucceeds then Posted(posted[|posted| - 1]) else Panicked)
      ensures outcome.Posted? ==> readingsQueue == []
      ensures !outcome.Posted? ==> readingsQueue == old(readingsQueue)
    {
      if readingsQueue == [] {
        return Idle;
      }
      var series := TickSeries(readingsQueue, parseTime);
      if series.None? {
        return Panicked;
      }
      var body := Body(series.value);
      posted := posted + [body];
      if !postSucceeds {
        return Panicked;
      }
      readingsQueue := [];
      outcome := Posted(body);
    }
  }

  /**
   * There is one series per reading name of the first payload, named
   * `urban.<name>`, and each has one point per queued payload, in order.
   */
  lemma SeriesFollowQueue(queue: seq<Json>, parseTime: string -> Option<int>, k: nat, i: nat)
    requires queue != [] && TickSeries(queue, parseTime).Some?
    requires k < |TickSeries(queue, parseTime).value| && i < |queue|
    ensures var s := TickSeries(queue, parseTime).value[k];
      var key := Get(queue[0], "readings").fields[k].0;
      s.metric == "urban." + key && |s.points| == |queue| &&
      Some(s.points[i]) == PointOf(queue[i], key, parseTime)
  {
  }

  /** A payload whose `readings` lacks a name the first payload has makes the `Tick` panic. */
  lemma MissingReadingPanics(queue: seq<Json>, parseTime: string -> Option<int>, k: nat, i: nat)
    requires queue != [] && Get(queue[0], "readings").JObject?
    requires k < |Get(queue[0], "readings").fields| && i < |queue|
    requires Get(Get(queue[i], "readings"), Get(queue[0], "readings").fields[k].0) == JNull
    ensures TickSeries(queue, parseTime).None?
  {
    var keys := Keys(Get(queue[0], "readings"));
    assert PointOf(queue[i], keys[k], parseTime).None?;
    assert Points(queue, keys[k], parseTime).None?;
  }

  /** Queued payloads reach a post in arrival order, and a successful post leaves nothing queued. */
  method EnqueueThenTick(actor: UrbanActor, first: Json, second: Json, parseTime: string -> Option<int>)
    returns (outcome: TickOutcome)
    requires actor.readingsQueue == []
    modifies actor
    ensures TickSeries([first, second], parseTime).Some? ==>
      outcome == Posted(Body(TickSeries([first, second], parseTime).value)) && actor.readingsQueue == []
  {
    actor.HandleReadings(first);
    actor.HandleReadings(second);
    assert actor.readingsQueue == [first, second];
    outcome := actor.HandleTick(parseTime, true);
  }
}
