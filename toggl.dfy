/**
 * The Toggl actor of the desk service. It keeps the last time entry it
 * saw and turns changes of the current entry into broker events; its
 * other handlers start, stop, continue and re-time entries.
 *
 * HTTP is an oracle: the k-th request the actor issues gets `http(k)`,
 * None for any failure (transport, status or body). Broker publishing is
 * an oracle too: the k-th publish succeeds when `publishOk(k)`. Timestamps
 * are seconds; the RFC 3339 parse of an entry's `start` field is the
 * parameter `startOf` (None when the field is missing or malformed).
 */
module Toggl {
  import opened Common
  import opened Json
  import opened Broker

  datatype Request =
    | GetCurrent
    | GetEntries
    | PostEntry(description: string)
    | PatchStop(id: int)
    | PutStart(id: int, start: int)

  type Http = nat -> Option<Json>

  datatype TogglError = RequestError | NotFound

  datatype Reply = Success(value: Json) | Failure(error: TogglError) | Panic

  /** chrono's `num_minutes`: whole minutes, truncated toward zero. */
  function NumMinutes(seconds: int): (m: int)
    ensures seconds >= 0 ==> 0 <= m && 60 * m <= seconds < 60 * m + 60
    ensures seconds < 0 ==> m <= 0 && 60 * m - 60 < seconds <= 60 * m
  {
    if seconds >= 0 then seconds / 60 else -((-seconds) / 60)
  }

  lemma NumMinutesOdd(seconds: int)
    ensures NumMinutes(-seconds) == -NumMinutes(seconds)
  {
  }

  /** What a change of current entry must publish; None when an unwrap panics first. */
  datatype Plan = Publish(events: seq<BrokerMessage>) | PanicAfter(events: seq<BrokerMessage>)

  /**
   * The publish decision table of `GetCurrentTimeEntry`, comparing the
   * entry held (`previous`) with the one just fetched (`fetched`).
   */
  function ChangeEvents(previous: Option<Json>, fetched: Json, now: int, startOf: Json -> Option<int>): (p: Plan)
    ensures previous.None? && fetched.JNull? ==> p == Publish([])
    ensures previous.None? && !fetched.JNull? && AsStr(Get(fetched, "description")).Some? && startOf(fetched).Some? ==>
      p == Publish([TimeEntryStarted(AsStr(Get(fetched, "description")).value),
                    TimeEntryTimeUpdated(NumMinutes(now - startOf(fetched).value))])
    ensures previous.Some? && fetched.JNull? ==> p == Publish([TimeEntryStopped])
    ensures previous.Some? && !fetched.JNull? && startOf(previous.value).Some? && startOf(fetched).Some? ==>
      p == Publish([TimeEntryTimeUpdated(NumMinutes(startOf(previous.value).value - startOf(fetched).value))])
    ensures p.PanicAfter? ==> |p.events| <= 1
  {
    if previous.None? then
      if fetched.JNull? then Publish([])
      else
        var description := AsStr(Get(fetched, "description"));
        if description.None? then PanicAfter([])
        else if startOf(fetched).None? then PanicAfter([TimeEntryStarted(description.value)])
        else Publish([TimeEntryStarted(description.value), TimeEntryTimeUpdated(NumMinutes(now - startOf(fetched).value))])
    else if fetched.JNull? then Publish([TimeEntryStopped])
    else if startOf(previous.value).None? || startOf(fetched).None? then PanicAfter([])
    else Publish([TimeEntryTimeUpdated(NumMinutes(startOf(previous.value).value - startOf(fetched).value))])
  }

  /** The entry to keep after a fetch: nothing for null, else the fetched value. */
  function Kept(fetched: Json): (r: Option<Json>)
    ensures r.None? <==> fetched.JNull?
    ensures r.Some? ==> r.value == fetched
  {
    if fetched.JNull? then None else Some(fetched)
  }

  /** Two fetches of the same entry in a row publish the same re-timing, and no start or stop. */
  lemma SteadyEntryOnlyRetimes(entry: Json, now: int, startOf: Json -> Option<int>)
    requires !entry.JNull? && startOf(entry).Some?
    ensures ChangeEvents(Kept(entry), entry, now, startOf) == Publish([TimeEntryTimeUpdated(0)])
  {
  }

  predicate AllOk(publishOk: nat -> bool, from: nat, count: nat)
  {
    forall k :: from <= k < from + count ==> publishOk(k)
  }

  class TogglActor {
    var currentTimeEntry: Option<Json>
    var requests: seq<Request>
    var published: seq<BrokerMessage>

    /** `on_start`: no entry known yet. */
    constructor()
      ensures currentTimeEntry == None && requests == [] && published == []
    {
      currentTimeEntry := None;
      requests := [];
      published := [];
    }

    /** Issue one request and return the oracle's answer for it. */
    method Send(request: Request, http: Http) returns (response: Option<Json>)
      modifies this
      ensures requests == old(requests) + [request]
      ensures response == http(|old(requests)|)
      ensures currentTimeEntry == old(currentTimeEntry) && published == old(published)
    {
      response := http(|requests|);
      requests := requests + [request];
    }

    /** `broker_ref.tell(Publish { .. })`; false when the tell fails. */
    method Publish(message: BrokerMessage, publishOk: nat -> bool) returns (ok: bool)
      modifies this
      ensures ok == publishOk(|old(published)|)
      ensures ok ==> published == old(published) + [message]
      ensures !ok ==> published == old(published)
      ensures currentTimeEntry == old(currentTimeEntry) && requests == old(requests)
    {
      ok := publishOk(|published|);
      if ok {
        published := published + [message];
      }
    }

    /**
     * `GetCurrentTimeEntry`: fetch the current entry, publish the events of
     * `ChangeEvents`, and keep the fetched entry only when every publish
     * went through; any failure returns early with the entry unchanged.
     */
    method GetCurrentTimeEntry(now: int, startOf: Json -> Option<int>, http: Http, publishOk: nat -> bool)
      returns (reply: Reply)
      modifies this
      ensures requests == old(requests) + [GetCurrent]
      ensures http(|old(requests)|).None? ==>
        reply == Failure(RequestError) && currentTimeEntry == old(currentTimeEntry) && published == old(published)
      ensures http(|old(requests)|).Some? ==>
        var plan := ChangeEvents(old(currentTimeEntry), http(|old(requests)|).value, now, startOf);
        (plan.PanicAfter? && AllOk(publishOk, |old(published)|, |plan.events|) ==> reply.Panic?) &&
        (plan.Publish? && AllOk(publishOk, |old(published)|, |plan.events|) ==>
          reply == Success(http(|old(requests)|).value) &&
          published == old(published) + plan.events &&
          currentTimeEntry == Kept(http(|old(requests)|).value)) &&
        (!AllOk(publishOk, |old(published)|, |plan.events|) ==>
          reply == Failure(RequestError) && currentTimeEntry == old(currentTimeEntry) &&
          |old(published)| <= |published| < |old(published)| + |plan.events| &&
          published == old(published) + plan.events[..|published| - |old(published)|])
    {
      var response := Send(GetCurrent, http);
      if response.None? {
        return Failure(RequestError);
      }
      reply := PublishChanges(response.value, now, startOf, publishOk);
    }

    /** The part of `GetCurrentTimeEntry` after a successful fetch: publish the changes, keep the entry. */
    method PublishChanges(fetched: Json, now: int, startOf: Json -> Option<int>, publishOk: nat -> bool)
      returns (reply: Reply)
      modifies this
      ensures requests == old(requests)
      ensures var plan := ChangeEvents(old(currentTimeEntry), fetched, now, startOf);
        (plan.PanicAfter? && AllOk(publishOk, |old(published)|, |plan.events|) ==> reply.Panic?) &&
        (plan.Publish? && AllOk(publishOk, |old(published)|, |plan.events|) ==>
          reply == Success(fetched) && published == old(published) + plan.events &&
          currentTimeEntry == Kept(fetched)) &&
        (!AllOk(publishOk, |old(published)|, |plan.events|) ==>
          reply == Failure(RequestError) && currentTimeEntry == old(currentTimeEntry) &&
          |old(published)| <= |published| < |old(published)| + |plan.events| &&
          published == old(published) + plan.events[..|published| - |old(published)|])
    {
      ghost var plan := ChangeEvents(currentTimeEntry, fetched, now, startOf);
      ghost var before := published;
      if currentTimeEntry.None? {
        if !fetched.JNull? {
          var description := AsStr(Get(fetched, "description"));
          if description.None? {
            return Panic;
          }
          var ok := Publish(TimeEntryStarted(description.value), publishOk);
          if !ok {
            return Failure(RequestError);
          }
          var newStart := startOf(fetched);
          if newStart.None? {
            return Panic;
          }
          ok := Publish(TimeEntryTimeUpdated(NumMinutes(now - newStart.value)), publishOk);
          if !ok {
            assert plan.events[..1] == [TimeEntryStarted(description.value)];
            return Failure(RequestError);
          }
        }
      } else {
        if fetched.JNull? {
          var ok := Publish(TimeEntryStopped, publishOk);
          if !ok {
            return Failure(RequestError);
          }
        } else {
          var currentStart := startOf(currentTimeEntry.value);
          var newStart := startOf(fetched);
          if currentStart.None? || newStart.None? {
            return Panic;
          }
          var ok := Publish(TimeEntryTimeUpdated(NumMinutes(currentStart.value - newStart.value)), publishOk);
          if !ok {
            return Failure(RequestError);
          }
        }
      }
      currentTimeEntry := Kept(fetched);
      reply := Success(fetched);
    }

    /**
     * `StartTimeEntry`: POST the new entry, keep the created entry, then
     * publish `TimeEntryStarted` with the description as given.
     */
    method StartTimeEntry(description: string, http: Http, publishOk: nat -> bool) returns (reply: Reply)
      modifies this
      ensures requests == old(requests) + [PostEntry(description)]
      ensures http(|old(requests)|).None? ==>
        reply == Failure(RequestError) && currentTimeEntry == old(currentTimeEntry) && published == old(published)
      ensures http(|old(requests)|).Some? ==>
        currentTimeEntry == Some(http(|old(requests)|).value) &&
        (publishOk(|old(published)|) ==> reply == Success(JNull) && published == old(published) + [TimeEntryStarted(description)]) &&
        (!publishOk(|old(published)|) ==> reply == Failure(RequestError) && published == old(published))
    {
      var created := Send(PostEntry(description), http);
      if created.None? {
        return Failure(RequestError);
      }
      currentTimeEntry := Some(created.value);
      var ok := Publish(TimeEntryStarted(description), publishOk);
      reply := if ok then Success(JNull) else Failure(RequestError);
    }

    /**
     * `StopTimeEntry`: with no current entry upstream, forget the entry and
     * succeed without a PATCH or a publish; otherwise PATCH the stop,
     * forget the entry and publish `TimeEntryStopped`.
     */
    method StopTimeEntry(http: Http, publishOk: nat -> bool) returns (reply: Reply)
      modifies this
      ensures |requests| >= |old(requests)| + 1 && requests[..|old(requests)| + 1] == old(requests) + [GetCurrent]
      ensures http(|old(requests)|).None? ==>
        reply == Failure(RequestError) && requests == old(requests) + [GetCurrent] &&
        currentTimeEntry == old(currentTimeEntry) && published == old(published)
      ensures http(|old(requests)|) == Some(JNull) ==>
        reply == Success(JNull) && requests == old(requests) + [GetCurrent] &&
        currentTimeEntry == None && published == old(published)
      ensures var fetched := http(|old(requests)|);
        fetched.Some? && !fetched.value.JNull? && AsI64(Get(fetched.value, "id")).None? ==> reply.Panic?
      ensures var fetched := http(|old(requests)|);
        fetched.Some? && !fetched.value.JNull? && AsI64(Get(fetched.value, "id")).Some? ==>
          var id := AsI64(Get(fetched.value, "id")).value;
          requests == old(requests) + [GetCurrent, PatchStop(id)] &&
          (http(|old(requests)| + 1).None? ==>
             reply == Failure(RequestError) && currentTimeEntry == old(currentTimeEntry) && published == old(published)) &&
          (http(|old(requests)| + 1).Some? ==>
             currentTimeEntry == None &&
             (publishOk(|old(published)|) <==> reply == Success(JNull)) &&
             (publishOk(|old(published)|) ==> published == old(published) + [TimeEntryStopped]) &&
             (!publishOk(|old(published)|) ==> reply == Failure(RequestError) && published == old(published)))
    {
      var fetched := Send(GetCurrent, http);
      if fetched.None? {
        return Failure(RequestError);
      }
      if fetched.value.JNull? {
        currentTimeEntry := None;
        return Success(JNull);
      }
      var id := AsI64(Get(fetched.value, "id"));
      if id.None? {
        return Panic;
      }
      var patched := Send(PatchStop(id.value), http);
      if patched.None? {
        return Failure(RequestError);
      }
      currentTimeEntry := None;
      var ok := Publish(TimeEntryStopped, publishOk);
      reply := if ok then Success(JNull) else Failure(RequestError);
    }

    /**
     * `ContinueTimeEntry`: restart the most recent entry under its
     * description. A response that is not a non-empty array, or whose
     * first entry has no string description, panics.
     */
    method ContinueTimeEntry(http: Http, publishOk: nat -> bool) returns (reply: Reply)
      modifies this
      ensures |requests| >= |old(requests)| + 1 && requests[..|old(requests)| + 1] == old(requests) + [GetEntries]
      ensures http(|old(requests)|).None? ==>
        reply == Failure(RequestError) && currentTimeEntry == old(currentTimeEntry) && published == old(published)
      ensures var entries := http(|old(requests)|);
        (entries.Some? &&
         (AsArray(entries.value).None? || |AsArray(entries.value).value| == 0 ||
          AsStr(Get(AsArray(entries.value).value[0], "description")).None?))
        ==> reply.Panic?
      ensures var entries := http(|old(requests)|);
        entries.Some? && AsArray(entries.value).Some? && |AsArray(entries.value).value| > 0 &&
        AsStr(Get(AsArray(entries.value).value[0], "description")).Some? ==>
          var description := AsStr(Get(AsArray(entries.value).value[0], "description")).value;
          requests == old(requests) + [GetEntries, PostEntry(description)] &&
          (http(|old(requests)| + 1).None? ==>
             reply == Failure(RequestError) && currentTimeEntry == old(currentTimeEntry) && published == old(published)) &&
          (http(|old(requests)| + 1).Some? ==>
             currentTimeEntry == http(|old(requests)| + 1) &&
             (publishOk(|old(published)|) ==>
                reply == Success(JNull) && published == old(published) + [TimeEntryStarted(description)]) &&
             (!publishOk(|old(published)|) ==> reply == Failure(RequestError) && published == old(published)))
    {
      var entries := Send(GetEntries, http);
      if entries.None? {
        return Failure(RequestError);
      }
      var list := AsArray(entries.value);
      if list.None? || |list.value| == 0 {
        return Panic;
      }
      var description := AsStr(Get(list.value[0], "description"));
      if description.None? {
        return Panic;
      }
      var created := Send(PostEntry(description.value), http);
      if created.None? {
        return Failure(RequestError);
      }
      currentTimeEntry := Some(created.value);
      var ok := Publish(TimeEntryStarted(description.value), publishOk);
      reply := if ok then Success(JNull) else Failure(RequestError);
    }

    /**
     * `AdjustTime`: move the current entry's start `minutes` earlier. With
     * no current entry upstream it answers `NotFound` before any PUT.
     */
    method AdjustTime(minutes: int, startOf: Json -> Option<int>, http: Http, publishOk: nat -> bool)
      returns (reply: Reply)
      modifies this
      ensures |requests| >= |old(requests)| + 1 && requests[..|old(requests)| + 1] == old(requests) + [GetCurrent]
      ensures http(|old(requests)|).None? ==>
        reply == Failure(RequestError) && currentTimeEntry == old(currentTimeEntry) && published == old(published)
      ensures http(|old(requests)|) == Some(JNull) ==>
        reply == Failure(NotFound) && requests == old(requests) + [GetCurrent] &&
        currentTimeEntry == old(currentTimeEntry) && published == old(published)
      ensures var fetched := http(|old(requests)|);
        (fetched.Some? && !fetched.value.JNull? &&
         (startOf(fetched.value).None? || AsI64(Get(fetched.value, "id")).None?))
        ==> reply.Panic?
      ensures var fetched := http(|old(requests)|);
        fetched.Some? && !fetched.value.JNull? && startOf(fetched.value).Some? && AsI64(Get(fetched.value, "id")).Some? ==>
          var id := AsI64(Get(fetched.value, "id")).value;
          requests == old(requests) + [GetCurrent, PutStart(id, startOf(fetched.value).value - 60 * minutes)] &&
          (http(|old(requests)| + 1).None? ==>
             reply == Failure(RequestError) && currentTimeEntry == old(currentTimeEntry) && published == old(published)) &&
          (http(|old(requests)| + 1).Some? ==>
             currentTimeEntry == http(|old(requests)| + 1) &&
             (publishOk(|old(published)|) ==>
                reply == Success(JNull) && published == old(published) + [TimeEntryTimeUpdated(minutes)]) &&
             (!publishOk(|old(published)|) ==> reply == Failure(RequestError) && published == old(published)))
    {
      var fetched := Send(GetCurrent, http);
      if fetched.None? {
        return Failure(RequestError);
      }
      if fetched.value.JNull? {
        return Failure(NotFound);
      }
      var currentStart := startOf(fetched.value);
      if currentStart.None? {
        return Panic;
      }
      var updatedStart := currentStart.value - 60 * minutes;
      var id := AsI64(Get(fetched.value, "id"));
      if id.None? {
        return Panic;
      }
      var updated := Send(PutStart(id.value, updatedStart), http);
      if updated.None? {
        return Failure(RequestError);
      }
      currentTimeEntry := Some(updated.value);
      var ok := Publish(TimeEntryTimeUpdated(minutes), publishOk);
      reply := if ok then Success(JNull) else Failure(RequestError);
    }

    /** `GetTimeEntries`: the raw list, with no state change. */
    method GetTimeEntries(http: Http) returns (reply: Reply)
      modifies this
      ensures requests == old(requests) + [GetEntries]
      ensures http(|old(requests)|).Some? ==> reply == Success(http(|old(requests)|).value)
      ensures http(|old(requests)|).None? ==> reply == Failure(RequestError)
      ensures currentTimeEntry == old(currentTimeEntry) && published == old(published)
    {
      var entries := Send(GetEntries, http);
      reply := if entries.Some? then Success(entries.value) else Failure(RequestError);
    }
  }
}
