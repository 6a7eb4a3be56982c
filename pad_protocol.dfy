/**
 * What the macro pad and its hosts say to each other beyond the raw line
 * format: the one-letter shorthand lines for the joystick and the
 * potentiometer, the JSON replies, and the calls a host makes on its API
 * client while serving a command.
 */
module PadProtocol {
  import opened Common
  import opened Json

  /** A call on the host's API client; Toggl requests are given by meaning, not by URL. */
  datatype ApiCall =
    | ListEntries
    | CurrentEntry
    | CreateEntry(description: string)
    | StopEntry(id: int)
    | MoveStart(id: int, start: int)
    | WakeOnLan
    | SwitchBose(devices: seq<string>)

  const SUCCESS: Json := KindOnly("success")
  const ERROR: Json := KindOnly("error")

  /** `{"kind": "timeEntry", "timeEntry": {"description": description}}`. */
  function TimeEntryMessage(description: string): (r: Json)
    ensures r.JObject? && |r.fields| == 2 && r.fields[0] == ("kind", JString("timeEntry"))
    ensures r.fields[1].0 == "timeEntry" && r.fields[1].1.JObject? && r.fields[1].1.fields == [("description", JString(description))]
  {
    JObject([("kind", JString("timeEntry")), ("timeEntry", JObject([("description", JString(description))]))])
  }

  /** The last message of every served command. */
  predicate IsFinalReply(message: Json)
  {
    message == SUCCESS || message == ERROR
  }

  lemma TimeEntryIsNotFinal(description: string)
    ensures !IsFinalReply(TimeEntryMessage(description))
  {
    assert TimeEntryMessage(description).fields[0].1 == JString("timeEntry");
  }

  /** `entry["description"].as_str()`. */
  function Description(entry: Json): Option<string>
  {
    AsStr(Get(entry, "description"))
  }

  /**
   * One `timeEntry` message per listed entry, in order; None when an entry
   * has no string `description` (its `as_str().unwrap()` panics).
   */
  function EntryReplies(entries: seq<Json>): (r: Option<seq<Json>>)
    ensures r.Some? ==> |r.value| == |entries|
  {
    if |entries| == 0 then Some([])
    else
      var description := Description(entries[|entries| - 1]);
      var rest := EntryReplies(entries[..|entries| - 1]);
      if description.None? || rest.None? then None
      else Some(rest.value + [TimeEntryMessage(description.value)])
  }

  /**
   * The replies exist exactly when every entry has a string description,
   * and then there is one `timeEntry` message per entry, in order.
   */
  lemma {:induction false} EntryRepliesMeaning(entries: seq<Json>)
    ensures EntryReplies(entries).Some? <==> forall k :: 0 <= k < |entries| ==> Description(entries[k]).Some?
    ensures EntryReplies(entries).Some? ==> forall k :: 0 <= k < |entries| ==>
      EntryReplies(entries).value[k] == TimeEntryMessage(Description(entries[k]).value)
  {
    if |entries| > 0 {
      var front := entries[..|entries| - 1];
      EntryRepliesMeaning(front);
      assert forall k :: 0 <= k < |entries| - 1 ==> entries[k] == front[k];
    }
  }

  /** One more entry with a description adds its message to the replies of the ones before it. */
  lemma EntryRepliesStep(entries: seq<Json>, i: nat)
    requires i < |entries| && EntryReplies(entries[..i]).Some? && Description(entries[i]).Some?
    ensures EntryReplies(entries[..i + 1]) ==
      Some(EntryReplies(entries[..i]).value + [TimeEntryMessage(Description(entries[i]).value)])
  {
    assert entries[..i + 1][..i] == entries[..i];
    assert entries[..i + 1][i] == entries[i];
  }

  /** A panic on some prefix of the entries is a panic on all of them. */
  lemma EntryRepliesPrefix(entries: seq<Json>, j: nat)
    requires j <= |entries| && EntryReplies(entries[..j]).None?
    ensures EntryReplies(entries).None?
  {
    EntryRepliesMeaning(entries[..j]);
    EntryRepliesMeaning(entries);
    var k :| 0 <= k < j && Description(entries[..j][k]).None?;
    assert entries[..j][k] == entries[k];
  }

  /** Every reply to a listing is a `timeEntry` message. */
  lemma EntryRepliesAreTimeEntries(entries: seq<Json>)
    ensures EntryReplies(entries).Some? ==> forall k :: 0 <= k < |EntryReplies(entries).value| ==>
      KindOf(EntryReplies(entries).value[k]) == Some("timeEntry")
  {
    EntryRepliesMeaning(entries);
  }

  lemma TimeEntryKind(description: string)
    ensures KindOf(TimeEntryMessage(description)) == Some("timeEntry")
  {
  }

  /**
   * What serving one command does besides reading it: the replies queued
   * for the pad, the API calls made, the messages handed to the e-ink
   * session, and whether the once-a-minute poll of the current entry is
   * forced to run again (`last_update = None`).
   */
  datatype Effect = Effect(replies: seq<Json>, calls: seq<ApiCall>, forDisplay: seq<Json>, resetsPoll: bool)

  /**
   * The reply discipline of every command: some `timeEntry` messages,
   * then exactly one final `success` or `error`.
   */
  predicate Disciplined(e: Effect)
  {
    DisciplinedReplies(e.replies)
  }

  predicate DisciplinedReplies(replies: seq<Json>)
  {
    |replies| >= 1 && IsFinalReply(replies[|replies| - 1]) &&
    forall k :: 0 <= k < |replies| - 1 ==> KindOf(replies[k]) == Some("timeEntry")
  }

  // ---------------------------------------------------------------------
  // Shorthand lines
  // ---------------------------------------------------------------------

  const LETTER_P: byte := 112
  const LETTER_X: byte := 120
  const LETTER_Y: byte := 121
  const LETTER_H: byte := 104

  /** `h\n`: the heartbeat. */
  const HEARTBEAT: seq<byte> := [LETTER_H, NEWLINE]

  /** `'p' + str(value) + '\n'` and its `x`/`y` siblings. */
  function Shorthand(letter: byte, value: int): (line: seq<byte>)
    ensures |line| >= 3 && line[0] == letter && line[|line| - 1] == NEWLINE
    ensures line[1..|line| - 1] == IntText(value)
  {
    [letter] + IntText(value) + [NEWLINE]
  }
}
