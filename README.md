# desk — a verified model of the desk controller core

The desk system is a Raspberry Pi program with a set of small USB and
Bluetooth peripherals around it. The program is written in Rust as a set of
actors plus a shared library. The peripherals run CircuitPython or
MicroPython firmware: a MacroPad, an older pad firmware, a Circuit
Playground, a Think Ink e-paper display, a Puck display and a Unicorn LED
matrix. The peripherals talk to the desk over line-delimited JSON. The
desk forwards the work to Toggl time tracking, a weather service, a
Datadog metrics endpoint and an RGB LED matrix.

This project models that core as Dafny modules, one per component:

- `Common`: bytes, Option/Result, decimal text, bit helpers.
- `Json`: the JSON values exchanged on every link.
- `Serial`: the line transport. It probes ports for a greeting, queues
  output, drains the queue at most 256 bytes per write and reassembles
  input lines.
- `Broker`: the messages the Toggl actor publishes on the broker's `toggl` topic.
- `Backlight`: the backlight reference count.
- `KeyInput`: joystick and key input with edge detection.
- `Urban`: the air-quality relay, whose readings are batched into `urban.<name>`
  series posted to Datadog.
- `Dither` and `Weather`: the e-ink image packing and the weather summary.
- `Puck`: the Puck display message.
- `Eink`, `ThinkInkSession` and `ThinkInkActor`: the Think Ink session, its
  daily refresh and its actor. A Think Ink session that loses its port
  keeps its output queue, and the queued lines go out after the next
  handshake; the MacroPad sessions clear both queues when they open a port.
- `Toggl`: the time-tracking actor.
- `PadProtocol`, `PadFirmware`, `MacroPadFirmware` and `LegacyFirmware`: the
  pad firmwares, each with its handler state machine.
- `LibMacroPad`, `DeskMacroPad` and `MacroPadActor`: the desk-side MacroPad
  sessions and their actor.
- `DeskCircuitPlayground`, `PlaygroundActor` and `PlaygroundFirmware`: the
  Circuit Playground reading stream, from the board to the Datadog
  soil-capacitance metric.
- `Matrix`: the LED matrix frame encoding. It covers the gamma table, the
  row lookup and the pixel addresses.
- `Unicorn`: the Unicorn clock and countdown faces and its animation queue.

Components that update their state in place are classes. Their methods
are proved against specification functions. Pure encoders and decoders are
functions, with lemmas for their round trips and invariants. The outside
world is always a parameter or an oracle: serial ports, HTTP, Bluetooth,
clocks, the raylib window and the hardware pins.

## Model

| member | source | states |
|---|---|---|
| Common.FirstNewline | deskpi/lib/src/macropad.rs:239 | the index found is that of the first newline of the buffer, and there is none exactly when no complete line is buffered |
| Common.NatText | macropad/code.py:111-113 | Python's `str` of a natural number is a non-empty run of decimal digits with no leading zero |
| Common.IntText | macropad/code.py:116-118 | Python's `str` of an integer starts with a minus sign exactly when the integer is negative |
| Common.NatTextValue | macropad/code.py:111-113 | the digits `str` writes for a natural number read back as that number |
| Common.ParseU32 | deskpi/lib/src/macropad.rs:255-258 | `parse::<u32>()` accepts an optional `+` and at least one digit and nothing else, and only values below 2^32; it fails on empty text |
| Common.ParseI32 | deskpi/lib/src/macropad.rs:263-274 | `parse::<i32>()` yields only values in [-2^31, 2^31 - 1] and fails on empty text |
| Common.AsciiBytes | src/circuit_playground.rs:83 | a text has a byte form exactly when every character is ASCII, and then it is the characters' codes in order |
| Common.ParseU32Text | src/circuit_playground.rs:83 | parsing a Rust string as u32 succeeds only on ASCII text, with the byte parser's result and a value below 2^32 |
| Common.NatString | circuit-playground/code.py:23 | the characters of Python's `str(n)` are the digit bytes of `n` |
| Common.NatStringParsesAsU32 | circuit-playground/code.py:23 | the text the board writes for a u32 reading is parsed back by the host as that reading |
| Common.NatTextParsesAsU32 | macropad/code.py:111-113 | what `str` writes for a value below 2^32 Rust's `parse::<u32>()` reads back unchanged |
| Common.IntTextParsesAsI32 | macropad/code.py:116-123 | what `str` writes for an i32 Rust's `parse::<i32>()` reads back unchanged |
| Common.NegativeTextParses | macropad/code.py:116-118 | a minus sign followed by the digits of `-i` parses back as the negative `i` |
| Common.AsciiIsUtf8 | deskpi/lib/src/macropad.rs:242 | any ASCII byte string is well-formed UTF-8, so `from_utf8` accepts it |
| Common.ContinuationByteInvalid | deskpi/lib/src/macropad.rs:242-247 | a line whose first byte is in 0x80-0xC1, which cannot start a UTF-8 sequence, is rejected by `from_utf8` |
| Common.RedrawsOncePerDate | lib/src/puck.rs:111-115 | once an image is drawn for a date, the next redraw happens exactly when the `%m-%d` text changes or key two is pressed |
| Common.NameLessIrreflexive | lib/src/macropad.rs:40 | no name sorts before itself |
| Common.NameLessTotal | lib/src/macropad.rs:40 | of two different names one always sorts first |
| Common.NameLessTransitive | lib/src/macropad.rs:40 | string order is transitive |
| Common.NotLessTransitive | lib/src/macropad.rs:40-42 | "not before" is transitive, so the last of a sorted list is not before any name in it |
| Common.AndSingleBit | lib/src/input.rs:98-102 | masking with the single bit `2^i` leaves that bit's value and nothing else |
| Json.Get | src/urban.rs:136 | indexing an object by a key gives that key's value, and null when the key is absent or the value is not an object |
| Json.Lookup | src/urban.rs:148 | a field lookup yields the value of a field with that key, and null when there is none |
| Json.LookupFirst | deskpi/lib/src/macropad.rs:294 | the lookup returns the value of the first field with the key |
| Json.AsStr | src/urban.rs:148 | `as_str` gives the text exactly of string values |
| Json.AsI64 | src/macropad.rs:210 | `as_i64` gives the number exactly of integral values that fit in 64 signed bits |
| Json.AsF64 | src/urban.rs:156 | `as_f64` gives a value for every number, integral or not, and nothing for other values |
| Json.Members | deskpi/lib/src/macropad.rs:318 | `members()` iterates the items of an array and nothing otherwise |
| Json.AsArray | src/toggl.rs:218 | `as_array` gives the items exactly of array values |
| Json.KindOnlyHasKind | deskpi/lib/src/macropad.rs:294 | a `{"kind": k}` message is read back with kind `k` |
| Backlight.BacklightActor.constructor | src/backlight.rs:25-47 | a new actor holds no handles, has told itself nothing, and starts the PWM at duty 0 |
| Backlight.BacklightActor.HandleRequest | src/backlight.rs:53-63 | the count grows by one; `SetEnabled(true)` is told exactly when the count was 0; the told switches keep alternating and the backlight is told on exactly while someone holds it |
| Backlight.BacklightActor.HandleRelease | src/backlight.rs:69-79 | at count 0 the `usize` subtraction panics and nothing changes; otherwise the count drops by one and `SetEnabled(false)` is told exactly when it reaches 0; the on/off invariant is kept |
| Backlight.BacklightActor.HandleSetEnabled | src/backlight.rs:85-104 | the display's DPMS state follows the flag and the PWM duty is 0.5 when enabled, 0 otherwise |
| Backlight.BacklightActor.Run | src/backlight.rs:50-80 | handling a mailbox in order leaves the count equal to Requests minus Releases; the first panic, if any, is a Release at count 0, i.e. exactly where the messages stop being balanced |
| Backlight.BalancedExtends | src/backlight.rs:66-79 | a balanced prefix stays balanced after a message that does not take the count below zero |
| Backlight.DeliveredSwitchesFollowHolders | src/backlight.rs:58-60 | once the last told switch is delivered, the display is on exactly while the count is positive |
| Backlight.RequestThenRelease | src/backlight.rs:58-78 | a Request and its Release on an idle backlight tell it on and then off, and leave the count at 0 |
| Backlight.Holders | src/backlight.rs:58-76 | the count after a run of messages is never further from zero than the number of messages |
| Backlight.HoldersCountsMessages | src/backlight.rs:58-76 | the count is the number of Requests less the number of Releases, whatever their order |
| Backlight.Delta | src/backlight.rs:62-74 | a Request adds one holder, a Release removes one, and a switch changes nothing |
| KeyInput.Down | lib/src/input.rs:169-182 | a key's held state is defined for the nine supported keys and is None (the panic) for any other |
| KeyInput.ShimSample | lib/src/input.rs:91-102 | the A, B, X and Y keys are held exactly when their pins read low |
| KeyInput.ShimIsActiveLow | lib/src/input.rs:97-102 | keys one to five are held exactly when bits 4 down to 0 of the shim byte are clear |
| KeyInput.Input.constructor | lib/src/input.rs:42-84 | both the current and the previous sample start with nothing held |
| KeyInput.Input.Update | lib/src/input.rs:86-117 | the previous sample becomes the old current one and the current one is the new reading |
| KeyInput.Input.UpdateFromHardware | lib/src/input.rs:86-103 | on the Pi the new current sample is the decoded shim byte and button pins, and the previous sample is the old current one |
| KeyInput.Input.IsKeyPressed | lib/src/input.rs:119-142 | a supported key is pressed exactly when it is held now and was not held in the previous sample; an unsupported key panics |
| KeyInput.Input.IsKeyReleased | lib/src/input.rs:144-167 | a supported key is released exactly when it is not held now and was held before; an unsupported key panics |
| KeyInput.Input.IsKeyDown | lib/src/input.rs:169-182 | a key is down exactly when the current sample holds it |
| KeyInput.PressedExcludesReleased | lib/src/input.rs:119-182 | no key is both pressed and released; a pressed key is down and a released key is up |
| KeyInput.FreshInputIsQuiet | lib/src/input.rs:42-84 | before any update no supported key is pressed, released or down |
| KeyInput.HoldPressesOnce | lib/src/input.rs:86-142 | a key held across two updates is reported pressed after the first and not after the second |
| Urban.Keys | src/urban.rs:136-139 | the reading names are the field names of an object, in order, and there are none for any other value |
| Urban.KeyList | src/urban.rs:136-139 | one name per field, the k-th being the k-th field's key |
| Urban.PointOf | src/urban.rs:146-158 | a payload yields a point exactly when its `timestamp` is a string the RFC 3339 parser accepts and its reading for the name is a number; otherwise an `unwrap` panics |
| Urban.Points | src/urban.rs:143-159 | a series has a point exactly when every queued payload yields one, and then one point per payload, in queue order |
| Urban.SeriesOf | src/urban.rs:141-168 | there is one series per reading name, in order, named `urban.<name>` and holding that name's points, unless some point panics |
| Urban.TickSeries | src/urban.rs:136-168 | the tick builds series only when the first payload's `readings` is an object, and then one per field of it |
| Urban.UrbanActor.constructor | src/urban.rs:71-75 | the actor starts with an empty readings queue and nothing posted |
| Urban.UrbanActor.HandleReadings | src/urban.rs:97-119 | a submitted payload joins the end of the queue |
| Urban.UrbanActor.HandleTick | src/urban.rs:127-182 | an empty queue does nothing; a panicking series leaves everything as it was; otherwise the `{"series": ...}` body is posted, and the queue is cleared only if the post succeeds |
| Urban.SeriesFollowQueue | src/urban.rs:141-168 | series k is named after the k-th reading of the first payload and its i-th point is the i-th payload's reading |
| Urban.MissingReadingPanics | src/urban.rs:156 | a queued payload that lacks a reading the first payload has makes the whole tick panic |
| Urban.EnqueueThenTick | src/urban.rs:118-181 | two queued payloads reach the post in arrival order and a successful post leaves the queue empty |
| Urban.PointJson | src/urban.rs:154-157 | a point reads back its timestamp and, as an f64, its value |
| Urban.SeriesJson | src/urban.rs:161-166 | a series reads back its metric name, type 3 and its points, one JSON point per point, in order |
| Urban.Body | src/urban.rs:172 | the posted body's `series` array holds one JSON series per series, in order |
| Dither.DitheredPixel | lib/src/thinkink.rs:285 | a dithered pixel's level is bits 3..2 of its first byte, a value from 0 to 3 |
| Dither.LevelBit | lib/src/puck.rs:163-170 | each bit plane of a 2-bit level is 0 or 1 |
| Dither.LevelFromBits | lib/src/puck.rs:163-170 | a level is recovered from its two bit planes, high bit doubled plus low bit |
| Weather.Follow | src/apps/thinkink_image/weather_forecast.rs:73-124 | the open/close step the loop takes at one hour equals the `Step` specification for that kind |
| Weather.Visit | src/apps/thinkink_image/weather_forecast.rs:58-124 | one loop pass panics exactly when the hour's time does not read, or it is from today and its temperature does not; otherwise hot and cold each take their step |
| Weather.DetectSpells | src/apps/thinkink_image/weather_forecast.rs:46-125 | the loop panics exactly when some entry panics; otherwise each kind's spells are the `Scan` of the whole forecast and track it: in order, disjoint, each opened at the first hour that could open it and closed at the first that could close it |
| Weather.StepKeepsTrack | src/apps/thinkink_image/weather_forecast.rs:67-124 | one hour's step keeps the record tracking every hour seen so far |
| Weather.ScanStep | src/apps/thinkink_image/weather_forecast.rs:58 | tracking after i - 1 hours gives tracking after i hours |
| Weather.ScanTracks | src/apps/thinkink_image/weather_forecast.rs:58-125 | after any number of hours the record tracks them |
| Weather.CloseRecords | src/apps/thinkink_image/weather_forecast.rs:78-96 | closing the spell under way at hour i records it as (start, i) and the record still tracks the hours |
| Weather.RecordSustained | src/apps/thinkink_image/weather_forecast.rs:78-80 | no hour strictly inside a recorded spell could have closed it |
| Weather.RecordEarliest | src/apps/thinkink_image/weather_forecast.rs:73-76 | a recorded spell starts at the first hour after the previous spell that could open one |
| Weather.StayOpen | src/apps/thinkink_image/weather_forecast.rs:78-80 | an hour that cannot close the spell under way leaves it under way |
| Weather.NoneOpens | src/apps/thinkink_image/weather_forecast.rs:73-76 | with no spell under way, an hour that cannot open one leaves none under way |
| Weather.SkipKeepsTrack | src/apps/thinkink_image/weather_forecast.rs:67-69 | an hour before the start of today changes neither record |
| Weather.LastHourCloses | src/apps/thinkink_image/weather_forecast.rs:79 | when the last hour is looked at, it closes whatever spell is under way |
| Weather.NothingLeftOpen | src/apps/thinkink_image/weather_forecast.rs:67-125 | in a chronological forecast that does not panic, no spell is left open at the end |
| Weather.BeforeToday | src/apps/thinkink_image/weather_forecast.rs:67-69 | if the last entry of a chronological forecast is before today, so is every entry |
| Weather.Step | src/apps/thinkink_image/weather_forecast.rs:67-124 | one hour's step only ever appends a spell, at most one; an appended spell ends at this hour, which closes it and leaves none under way; a spell under way afterwards was already under way or opens at this hour with none before; an hour before today changes nothing |
| Weather.Scan | src/apps/thinkink_image/weather_forecast.rs:58-125 | after i hours at most i spells are recorded, and a spell under way started at an hour already looked at |
| Puck.Sizes | lib/src/puck.rs:9-13 | the image is 296 x 128 pixels, two bytes per dithered pixel, and the packed image is one eighth of that, split into two planes of 4736 bytes that cover every pixel once |
| Puck.PlaneBit | lib/src/puck.rs:164-165 | the bit a packed byte holds for one of its eight pixels is 0 or 1 |
| Puck.GatherStep | lib/src/puck.rs:163-165 | one inner step with the loop's own index `i * 16 + j * 2` ORs bit 1 of the pixel's grey level into the first-plane byte and bit 0 into the second-plane byte, at bit 7 - j |
| Puck.SpreadBits | lib/src/puck.rs:164-165 | eight single bits shifted to positions 7 down to 0 and ORed together can each be read back from their position |
| Puck.GatheredBits | lib/src/puck.rs:162-167 | after the eight inner steps, bit 7 - j of the byte is the chosen bit of pixel 8i + j |
| Puck.ConvertToPuckImage | lib/src/puck.rs:152-176 | the packed image has 9472 bytes; byte i of the first half carries bit 1 and byte i of the second half bit 0 of the grey levels of pixels 8i .. 8i + 7, most significant bit first |
| Puck.GatherByte | lib/src/puck.rs:158-167 | the inner loop leaves `low_byte` and `high_byte` holding the two bits of the eight pixels of output byte i |
| Puck.PackedPlane | lib/src/puck.rs:169-170 | storing the gathered bytes at i and at i + 4736 gives the two planes the packer promises |
| Puck.PlanesRoundTrip | lib/src/puck.rs:152-176 | every pixel's two-bit grey level is twice its first-plane bit plus its second-plane bit: nothing of the dithered image is lost |
| Puck.ByteFromPlaneBits | lib/src/puck.rs:164-165 | two bytes that agree on all eight pixel bits are equal |
| Puck.PlanesDetermineImage | lib/src/puck.rs:152-176 | two packed images that both meet the plane promise for the same pixels are equal, so the packing is a function of the image |
| Puck.PlaneDeterminesBytes | lib/src/puck.rs:169-170 | one plane is fixed byte for byte by the pixels it encodes |
| Puck.PuckScreen.constructor | lib/src/puck.rs:91-94 | a new puck has seen no date, drawn nothing and counted no frame time |
| Puck.PuckScreen.Update | lib/src/puck.rs:98-108 | the date text is refreshed on the first frame and whenever more than 60 seconds of frame time have accumulated, the counter grows by this frame's time and is never reset, and the last drawn date is untouched |
| Puck.PuckScreen.Draw | lib/src/puck.rs:110-130 | the image is redrawn exactly when no date was drawn yet, the date changed or key two was pressed; a redraw remembers the date and sends the packed bit planes of the dithered image; before the first update it panics on the missing date |
| Puck.Plane | lib/src/puck.rs:162-170 | a plane meets the packer's promise exactly when its byte i is the byte the inner loop gathers from pixels 8i .. 8i + 7 |
| Puck.Planes | lib/src/puck.rs:152-176 | the packed image meets the promise exactly when byte i holds the gathered bit-1 byte and byte 4736 + i the gathered bit-0 byte |
| Toggl.NumMinutes | src/toggl.rs:377 | whole minutes of a duration, truncated toward zero: for a non-negative duration the largest count of full minutes in it, for a negative one the mirror image |
| Toggl.NumMinutesOdd | src/toggl.rs:410 | negating a duration negates its minute count |
| Toggl.ChangeEvents | src/toggl.rs:351-416 | the events a fetch publishes: none when nothing was or is running, `TimeEntryStarted` with the description and the minutes since its start when an entry appears, `TimeEntryStopped` when the running entry disappears, and `TimeEntryTimeUpdated` with the start shift when an entry is still running; a missing description or start panics after at most one event |
| Toggl.Kept | src/toggl.rs:419-423 | the entry kept after a fetch is nothing exactly when the fetch returned null, and the fetched entry otherwise |
| Toggl.SteadyEntryOnlyRetimes | src/toggl.rs:393-416 | fetching the entry already held publishes only a re-timing by zero minutes, never a start or a stop |
| Toggl.TogglActor.constructor | src/toggl.rs:54-63 | the actor starts with no entry, no request issued and nothing published |
| Toggl.TogglActor.Send | src/toggl.rs:429-444 | a request is appended to the requests issued and gets the answer of the HTTP oracle for its position; nothing else changes |
| Toggl.TogglActor.Publish | src/toggl.rs:130-140 | a publish to the broker is recorded exactly when the tell succeeds; nothing else changes |
| Toggl.TogglActor.GetCurrentTimeEntry | src/toggl.rs:277-427 | one GET of the current entry; on a failed request nothing changes; otherwise the events of `ChangeEvents` are published in order, the fetched entry is kept only when every publish went through, and a failed publish leaves a prefix of the events published and the entry unchanged |
| Toggl.TogglActor.PublishChanges | src/toggl.rs:292-425 | the same publish table and state change for a fetch that succeeded, with no further request |
| Toggl.TogglActor.StartTimeEntry | src/toggl.rs:94-143 | one POST with the description; on success the created entry is kept and `TimeEntryStarted` with the description as given is published; a failed request changes nothing |
| Toggl.TogglActor.StopTimeEntry | src/toggl.rs:147-194 | a GET of the current entry, then nothing more and the entry forgotten when none runs; otherwise a PATCH of that entry's id, the entry forgotten and `TimeEntryStopped` published; an entry without an integer id panics |
| Toggl.TogglActor.ContinueTimeEntry | src/toggl.rs:198-262 | a GET of the entries, then a POST under the description of the most recent one, which is kept and announced with `TimeEntryStarted`; a response that is not a non-empty array or lacks the description panics |
| Toggl.TogglActor.AdjustTime | src/toggl.rs:215-332 | a GET of the current entry, `NotFound` when none runs, otherwise a PUT of its start moved `minutes` earlier, the updated entry kept and `TimeEntryTimeUpdated(minutes)` published; a missing start or id panics |
| Toggl.TogglActor.GetTimeEntries | src/toggl.rs:69-92 | one GET of the entries, answered with the raw response or a request error, and no state change |
| Eink.Field | src/apps/thinkink_image.rs:116 | the two bits a packed byte holds for one of its four pixels are a level from 0 to 3 |
| Eink.SpreadFields | src/apps/thinkink_image.rs:116 | four two-bit levels shifted to bits 7-6, 5-4, 3-2 and 1-0 and ORed together can each be read back from their field |
| Eink.PackedFields | src/apps/thinkink_image.rs:111-119 | after the four inner steps, field j of byte i is the grey level of pixel 4i + j |
| Eink.PackStep | src/apps/thinkink_image.rs:114-116 | one inner step with the loop's own index `i * 8 + j * 2` ORs the pixel's level into bits `(3 - j) * 2` and up |
| Eink.QuarterBound | src/apps/thinkink_image.rs:101 | a buffer of `width * height / 4` bytes covers no more pixels than the image has |
| Eink.PackDitheredImage | src/apps/thinkink_image.rs:101-120 | the packed buffer has `width * height / 4` bytes and byte i holds the levels of pixels 4i .. 4i + 3, the first pixel in the top bits |
| Eink.ByteFromFields | src/apps/thinkink_image.rs:116 | two bytes that agree on all four fields are equal |
| Eink.UnpackRoundTrip | src/apps/thinkink_image.rs:110-120 | reading field k mod 4 of byte k / 4 gives back bits 3-2 of pixel k's first raw byte |
| Eink.PackingIsUnique | src/apps/thinkink_image.rs:110-120 | two buffers of the same length that both pack the same pixels are equal |
| Eink.Chunks | src/thinkink.rs:239 | the 256-byte chunks of a buffer are non-empty, all full except possibly the last, and there are as many as 256-byte blocks rounded up |
| Eink.ChunksConcatenate | src/thinkink.rs:239 | the chunks concatenated in order are the buffer itself |
| Eink.ChunkAt | src/thinkink.rs:239-242 | chunk k is the slice of the buffer starting at byte offset 256 k, the offset its message announces |
| Eink.DisplayDataFields | src/thinkink.rs:240-244 | a `displayData` message has that kind, carries the encoded chunk in `data` and its offset in `offset` |
| Eink.ImageMessages | src/thinkink.rs:239-249 | an image goes out as one `displayData` per chunk, chunk k at offset 256 k, followed by one `refreshDisplay` |
| Eink.RefreshSentOnce | src/thinkink.rs:248 | `refreshDisplay` is the last message of an image and appears nowhere else in it |
| Eink.ImageMessagesRoundTrip | src/thinkink.rs:239-249 | a receiver that Base64-decodes the `data` of every `displayData` in order recovers exactly the packed image |
| Eink.PayloadsOfChunks | src/thinkink.rs:239-246 | the decoded payloads of the messages from chunk `from` on are the chunks from `from` on |
| Eink.DisplayData | src/thinkink.rs:240-244 | a `displayData` message is an object of three fields led by its kind, and is never the refresh message |
| Eink.LightMessage | src/thinkink.rs:203-207 | the `light` message reads back its kind, its target value and its speed |
| Eink.AdjustAnimationTime | src/thinkink.rs:180-183 | the message reads back kind `adjustAnimationTime` and the minutes |
| ThinkInkActor.HandleStream | src/thinkink.rs:130-156 | a line other than the heartbeat `t` must parse as JSON and panics otherwise; the heartbeat, serial errors, start and finish do nothing |
| ThinkInkActor.BrokerReply | src/thinkink.rs:161-189 | a started entry sends `startAnimation`, a stopped one `stopAnimation`, a re-timed one `adjustAnimationTime` with its minutes |
| ThinkInkActor.BrokerReplyInjective | src/thinkink.rs:161-189 | distinct events give distinct display messages, and the minutes of a re-timing can be read back |
| ThinkInkActor.ThinkInk.constructor | src/thinkink.rs:71-123 | the date last drawn starts as what `date.txt` held, if it could be read, and nothing has been sent |
| ThinkInkActor.ThinkInk.SendMessage | src/thinkink.rs:259-262 | a message is sent exactly when the transmitter accepts it; a refused send panics and sends nothing |
| ThinkInkActor.ThinkInk.HandleBroker | src/thinkink.rs:158-191 | each broker event's one display message is sent exactly when the transmitter accepts it, and a refusal panics with nothing sent; the date is left alone |
| ThinkInkActor.ThinkInk.UpdateLight | src/thinkink.rs:193-211 | a light update sends exactly one `light` message with the target value and speed, and does so exactly when the transmitter accepts it; a refusal panics with nothing sent |
| ThinkInkActor.ThinkInk.UpdateImage | src/thinkink.rs:213-256 | nothing is sent when today's date was already drawn; otherwise a failed render panics, and a completed run sends the image's chunks and the refresh and only then records today's date; a fresh run completes exactly when the transmitter accepts every one of its sends; a panic leaves the date as it was and what was sent a proper prefix of the run's messages |
| ThinkInkActor.ThinkInk.SendNext | src/thinkink.rs:239-249 | one more message of the image run is sent exactly when the transmitter accepts it, growing the sent prefix of the run by one; a refusal sends nothing |
| ThinkInkSession.ThinkInk.constructor | lib/src/thinkink.rs:29-52 | a new session holds no port, queues nothing, has no refresh time and no current date, and takes the date last drawn from `date.txt` |
| ThinkInkSession.ThinkInk.OpenSerial | lib/src/thinkink.rs:54-91 | a held port is kept; otherwise the first port with Adafruit's vendor id, product id 0x80F1 and the greeting `t\n` is opened, or none; the queue is kept |
| ThinkInkSession.ThinkInk.UpdateBuffers | lib/src/thinkink.rs:117-156 | the queue loses exactly what the port accepted in writes of at most 256 bytes; a failed byte count or a write error other than a time-out drops the port and keeps the rest of the queue |
| ThinkInkSession.ThinkInk.SendMessage | lib/src/thinkink.rs:158-162 | the serialised message and a newline join the end of the output queue |
| ThinkInkSession.ThinkInk.Update | lib/src/thinkink.rs:93-115 | the queue is drained first; on the first call and whenever more than 60 seconds have passed, one `light` message with speed 100 is queued, the refresh time set and today's date taken; otherwise neither changes |
| ThinkInkSession.ThinkInk.SendDitheredImage | lib/src/thinkink.rs:271-302 | the dithered image is packed four pixels to a byte and the queue grows by its `displayData` chunks and one `refreshDisplay`, in order |
| ThinkInkSession.ThinkInk.SendImageMessages | lib/src/thinkink.rs:293-301 | the queue grows by the framed messages of the image run, in order |
| ThinkInkSession.ThinkInk.SendNext | lib/src/thinkink.rs:294-298 | one more message of the run extends the queued transcript by that message |
| ThinkInkSession.ThinkInk.Draw | lib/src/thinkink.rs:164-186 | the image is redrawn exactly when no date was drawn yet, the date changed or key two was pressed; a redraw remembers the date and queues the packed image's messages; otherwise nothing is queued; with no current date it panics |
| Serial.FirstAccepted | deskpi/lib/src/macropad.rs:50-82 | the port the probe keeps is the first that has the device's USB ids, opens and greets with exactly the expected two bytes; every earlier port fails one of these, and with no such port none is kept |
| Serial.ProbeGreeting | deskpi/lib/src/macropad.rs:61-82 | the probe loop skips ports that fail to open, fail the first read or greet wrongly, and stops at the first port `FirstAccepted` names |
| Serial.FirstAcceptedIsFirst | deskpi/lib/src/macropad.rs:61-82 | a port that greets correctly with none before it doing so is the one the probe keeps |
| Serial.LastGreatest | lib/src/macropad.rs:32-46 | sorting the matching ports by name and taking the last picks a matching port with the greatest name, the last in listing order among equal names, and none exactly when no port matches |
| Serial.Take256 | deskpi/lib/src/macropad.rs:215 | the chunk offered to a write is the front of the queue, 256 bytes or the whole queue when shorter |
| Serial.Flush | deskpi/lib/src/macropad.rs:214-231 | the write loop splits the queue into what the device accepted and what stays queued; it ends with the queue empty, or at a write that did not succeed, and drops the port exactly when that write failed with anything but a time-out |
| Serial.WroteWithinChunk | deskpi/lib/src/macropad.rs:217-219 | a successful write accepts at least one and at most the offered bytes |
| Serial.DrainFront | deskpi/lib/src/macropad.rs:219 | draining the accepted bytes from the front keeps the rest of the queue in order |
| Serial.WriteLoop | deskpi/lib/src/macropad.rs:214-231 | the loop does not run when the port is already marked disconnected or 256 or more bytes are pending; otherwise the queue left and the disconnection are those of `Flush` |
| Serial.Drained | deskpi/lib/src/macropad.rs:184-236 | the queue after an update is a suffix of the queue before it: only bytes the device accepted leave it |
| Serial.StillConnected | deskpi/lib/src/macropad.rs:184-236 | the port stays held only if one was held and the pending-byte count could be read, and then exactly when no write failed with anything but a time-out |
| Serial.SplitLines | deskpi/lib/src/macropad.rs:238-241 | the input queue is its complete newline-terminated lines, in arrival order, followed by a rest with no newline that stays queued |
| Serial.SplitFirstLine | deskpi/lib/src/macropad.rs:239-240 | the first line taken is the queue up to and including its first newline, and the others are the lines of what follows |
| Serial.SplitStep | deskpi/lib/src/macropad.rs:240 | draining through the first newline and splitting the remainder reassembles the queue |
| Serial.ConcatCons | deskpi/lib/src/macropad.rs:240 | putting a line in front of others puts its bytes in front of theirs |
| Serial.AllLinesCons | deskpi/lib/src/macropad.rs:239-240 | a complete line in front of complete lines gives complete lines |
| Serial.FirstNewlineAt | deskpi/lib/src/macropad.rs:239 | `position` of the newline finds a newline with none before it |
| Serial.SplitLinesUnique | deskpi/lib/src/macropad.rs:238-241 | any split of the queue into complete lines and a rest with no newline is the one the loop makes |
| Serial.ConcatAppend | deskpi/lib/src/macropad.rs:499-503 | appending a line appends its bytes |
| Serial.FramedAppendsOneLine | deskpi/lib/src/macropad.rs:499-503 | appending a serialised message without a newline, then a newline, to a queue of whole lines adds exactly that message as one more line |
| Serial.TranscriptSnoc | deskpi/lib/src/macropad.rs:499-503 | sending one more message appends its framed bytes to the transcript |
| Serial.TranscriptAppend | deskpi/lib/src/macropad.rs:499-503 | the transcript of messages plus one is the old transcript plus that message framed |
| Serial.FramedAll | deskpi/lib/src/macropad.rs:499-503 | the lines a run of messages produces are one framed line per message, in order |
| Serial.TranscriptLines | deskpi/lib/src/macropad.rs:499-503 | with a serialiser that writes no raw newline, the receiver's line splitter recovers the old whole lines and then exactly one line per message sent, in order, with nothing left over |
| Serial.TranscriptStep | deskpi/lib/src/macropad.rs:499-503 | the line-per-message property extends from a run of messages to the run plus one |
| Serial.FramedAllSnoc | deskpi/lib/src/macropad.rs:499-503 | the framed lines of a run are those of its front plus the last one framed |
| PadProtocol.TimeEntryIsNotFinal | deskpi/lib/src/macropad.rs:318-325 | a `timeEntry` message is neither `success` nor `error`, so it never ends a reply |
| PadProtocol.EntryReplies | deskpi/lib/src/macropad.rs:318-325 | a listing gives one message per entry when it does not panic |
| PadProtocol.EntryRepliesMeaning | deskpi/lib/src/macropad.rs:318-325 | the replies exist exactly when every entry has a string description, and then message k is the `timeEntry` message of entry k's description |
| PadProtocol.EntryRepliesStep | deskpi/lib/src/macropad.rs:318-325 | one more entry with a description adds its message after those of the entries before it |
| PadProtocol.EntryRepliesPrefix | deskpi/lib/src/macropad.rs:321-323 | an entry without a description panics the whole listing, whatever comes after it |
| PadProtocol.EntryRepliesAreTimeEntries | deskpi/lib/src/macropad.rs:318-325 | every reply to a listing has kind `timeEntry` |
| PadProtocol.TimeEntryKind | deskpi/lib/src/macropad.rs:319-320 | a `timeEntry` message has kind `timeEntry` |
| PadProtocol.Shorthand | macropad/code.py:111-118 | a shorthand line is its letter, the decimal text of the value and a newline |
| PadProtocol.TimeEntryMessage | deskpi/lib/src/macropad.rs:319-324 | a `timeEntry` message is an object of its kind and a `timeEntry` object holding only the description |
| PadFirmware.TakeKeyEvent | macropad/code.py:162-179 | the event returned is the front of the key event buffer, or the hardware's next event when the buffer is empty |
| PadFirmware.TakeKeepsEvents | macropad/code.py:162-179 | no key event is lost or made up: what was buffered plus what the hardware handed over is what stays buffered plus the event consumed, a peeked event going back into the buffer |
| PadFirmware.PeekThenTake | macropad/code.py:162-179 | peeking and then taking returns the same event twice, whatever the hardware reports in between, and the buffer never holds more than one event |
| PadFirmware.LineBreak | macropad/code.py:134 | `find('\n')` gives the first newline's index, or nothing exactly when the text has no newline |
| PadFirmware.LineBreakAt | macropad/code.py:134 | a newline with none before it is the one `find` returns |
| PadFirmware.Receive | macropad/code.py:129-150 | the chunk read joins the buffer; without a newline nothing is consumed and no message returned; otherwise the text up to the first newline is consumed and its parse is the message, even when the parse fails |
| PadFirmware.ReassembleKeepsText | macropad/code.py:129-150 | over a run of reads the received text is exactly the lines consumed, each with its newline, followed by what is still buffered, and no consumed line holds a newline |
| PadFirmware.ReassembleJoins | macropad/code.py:131-139 | the consumed lines joined with their newlines, then the buffer left, are the text received, in order |
| PadFirmware.ReassembleLinesClean | macropad/code.py:134-138 | no consumed line holds a newline |
| PadFirmware.PrefixLine | macropad/code.py:138-139 | cutting a line and its newline from the front of the buffer keeps the rest in order |
| PadFirmware.ReceiveFirstLine | macropad/code.py:129-150 | a line already buffered is what the next read consumes, whatever the chunk |
| PadFirmware.AwaitFindsBufferedReply | macropad/code.py:392-408 | a reply already buffered when the wait begins is returned by its first poll |
| PadFirmware.AwaitTimesOut | macropad/code.py:392-408 | when no newline arrives before the deadline the wait returns nothing and keeps everything it read |
| PadFirmware.Index | macropad/code.py:964 | `value[key]` exists exactly when the value is a dict with that key, and is then its value |
| PadFirmware.ReplyVerdict | macropad/code.py:935-936 | a handler succeeds exactly when the reply's `kind` is `success`, and raises exactly when a truthy reply has no `kind` |
| PadFirmware.HostRepliesUnderstood | macropad/code.py:935-936 | the host's `success` reads as success, its `error` and a timeout as failure, without an exception |
| PadFirmware.Wrap | macropad/code.py:573 | Python's `%` by a positive length lands in the list |
| PadFirmware.MultipleAtLeast | macropad/code.py:573 | a positive multiple of a positive length is at least the length |
| PadFirmware.RemainderUnique | macropad/code.py:573 | the remainder is the one value in range that differs from the index by a multiple of the length |
| PadFirmware.WrapTurns | macropad/code.py:573 | whole turns of the encoder do not change the option selected |
| PadFirmware.TurnBack | macropad/code.py:573 | turning the selection some steps and back returns to the option it started from, and a whole turn of the list changes nothing |
| PadFirmware.ClampMinutes | macropad/code.py:754-756 | the adjustment stays within 45 minutes either way and is left alone when already within |
| PadFirmware.ClampIsNearest | macropad/code.py:754-756 | the clamped adjustment is the allowed one nearest to the one asked for |
| PadFirmware.InsertKeepsOrder | macropad/code.py:977-978 | adding a description to a sorted list of distinct ones keeps it sorted and distinct and adds exactly that description |
| PadFirmware.SortedDistinctIsSortedSet | macropad/code.py:977-978 | `sorted(set(entries))` holds each entry once, in ascending order, and nothing else |
| PadFirmware.SortedUnique | macropad/code.py:977-978 | two strictly sorted lists with the same names are equal, so the options do not depend on the order the set is walked |
| PadFirmware.OptionsOfEntries | macropad/code.py:977-981 | the options are never empty, are sorted and distinct, and are exactly the descriptions, or the single empty option when there were none |
| PadFirmware.MergeKeepsConsistent | macropad/code.py:1028-1029 | merging a handler's result into the state keeps an option selected and the adjustment in bounds, and keeps every key the result leaves out |
| PadFirmware.InitialStateConsistent | macropad/code.py:1019-1024 | the main loop starts in a consistent state: loading entries, with the single empty option selected |
| PadFirmware.CollectOne | macropad/code.py:954-970 | one pass of the loading loop consumes what `get_message` consumes; a `timeEntry` adds its description and goes on, any other truthy message or the deadline stops, and entries already read are kept unless the pass raises |
| PadFirmware.Collect | macropad/code.py:954-970 | the loading loop only ever adds descriptions, unless it raises |
| PadFirmware.CollectSteps | macropad/code.py:954-970 | the loop takes one pass and then goes on from where that pass left it |
| PadFirmware.ReceiveWholeLine | macropad/code.py:129-150 | a whole line arriving on an empty buffer is read at once and leaves the buffer empty |
| PadFirmware.TimeEntryContinues | macropad/code.py:963-965 | a `timeEntry` message with a string description, read before the deadline, adds the description and the loop goes on |
| PadFirmware.EntryMessageRead | macropad/code.py:963-965 | the desk's `timeEntry` line for a description adds exactly that description |
| PadFirmware.SuccessEndsCollect | macropad/code.py:966-967 | the `success` after the entries ends the loop and keeps them |
| PadFirmware.RepliesAfterFirst | macropad/code.py:954-970 | once the first entry line is read, the remaining lines are the answer for the other descriptions |
| PadFirmware.CollectReadsEntryReplies | macropad/code.py:954-970 | the desk's answer to `getTimeEntries`, a `timeEntry` line per description and then `success`, loads exactly those descriptions, in order |
| PadFirmware.EntriesResult | macropad/code.py:972-990 | after loading, a `success` reply leads to the option list with the first option selected, any other reply or a timeout back to the command screen, and a reply without `kind` raises |
| PadFirmware.Strings | macropad/code.py:816-822 | a list of device names becomes a JSON array of the same strings, in order |
| PadFirmware.Merge | macropad/code.py:1026-1029 | `dict(state, **result)`: every key the handler returns wins, and every other key keeps the state's value |
| PadFirmware.Options | macropad/code.py:977-981 | the options are never empty and number at most one more than the descriptions: the single blank option when none came, otherwise the sorted distinct descriptions |
| PadFirmware.SortedDistinct | macropad/code.py:977-978 | `sorted(set(entries))` has no more items than the entries, and is empty exactly when they are |
| PadFirmware.Insert | macropad/code.py:977-978 | inserting a description leaves it in the list and adds at most one item |
| PadFirmware.Reassemble | macropad/code.py:129-150 | a run of `get_message` calls consumes at most one line per call |
| PadFirmware.Await | macropad/code.py:392-408 | a message that arrives is the parse of a whole line without its newline, and there is no message without a line |
| PadFirmware.PageOffset | macropad/code.py:594-595 | the list never scrolls down, and scrolls not at all exactly for the first page of four options |
| PadFirmware.AdjustTarget | macropad/code.py:765-769 | key 2 sends the adjustment with the current minutes, key 1 cancels to `command`, and no other key leaves; `adjust_time` in code.py (lines 385-389) leaves the same way |
| PadFirmware.Request | macropad/code.py:790-931 | every request is a JSON object led by its string `kind`; `startTimeEntry` carries one more field, and `adjustTime` is exactly the kind and the minutes |
| MacroPadFirmware.Chunks | macropad/code.py:131 | the text the port returned on each pass, one chunk per pass, in order |
| MacroPadFirmware.AxisValue | macropad/code.py:210-229 | a joystick reading is centred at 32768 and anything strictly within 4000 of the centre reads 0 |
| MacroPadFirmware.PotentiometerLineReachesHost | macropad/code.py:111-113 | the slider line the pad writes is a complete line that the desk host reads back as the same slider value |
| MacroPadFirmware.AxisLinesReachHost | macropad/code.py:116-123 | each joystick line is a complete line that the desk host reads back as the dead-zoned axis value it was written from |
| MacroPadFirmware.HeartbeatReachesHost | macropad/code.py:106-109 | the heartbeat `h\n` is a complete line that the desk host recognises and skips |
| MacroPadFirmware.NextSelection | macropad/code.py:565-579 | the next selection is always an index of the options: the encoder steps plus key 8 one back and key 11 one forward, wrapped; with shift held key 8 jumps to the first option and key 11 to the last |
| MacroPadFirmware.DownThenUp | macropad/code.py:565-573 | key 11 then key 8, without shift or encoder movement, comes back to the same option |
| MacroPadFirmware.SelectedRowVisible | macropad/code.py:594-595 | the selected option's row is on screen: one of the four rows of its 64-pixel page |
| MacroPadFirmware.CommandTarget | macropad/code.py:607-665 | a pressed command key leads to its handler, key 2 to `send_start` or with shift to `send_continue`; the navigation keys 8, 9 and 11 lead nowhere, and no key leads to the adjustment send, sleep or the option list |
| MacroPadFirmware.MoveLine | macropad/code.py:557-564 | a reading's shorthand line is written exactly when it moved |
| MacroPadFirmware.NextMinutes | macropad/code.py:738-756 | one pass of the adjustment moves the minutes by the keys and the encoder and keeps them within 45 either way |
| MacroPadFirmware.UpThenDown | macropad/code.py:738-752 | away from the bounds, key 8 then key 11 with the same shift comes back to the same minutes |
| MacroPadFirmware.DeskUnderstandsRequests | macropad/code.py:771-945 | the desk's macro pad actor reads each time-tracking request the pad writes as the ask it meant, with the selected description and the adjusted minutes unchanged |
| MacroPadFirmware.StartRequestUnderstood | macropad/code.py:790-801 | the start request carries the selected option as the description the desk reads |
| MacroPadFirmware.AdjustRequestUnderstood | macropad/code.py:929-931 | the adjustment request carries the minutes the desk reads |
| MacroPadFirmware.MacroPad.constructor | macropad/code.py:125-253 | the program starts with an empty message buffer, no key held or queued, the stored positions from the first readings (the joystick's as `32768 - raw`, without the dead zone) and one heartbeat written |
| MacroPadFirmware.MacroPad.GetMessage | macropad/code.py:129-150 | reading a message updates the buffer and returns what `Receive` says |
| MacroPadFirmware.MacroPad.GetKeyEvent | macropad/code.py:162-179 | the event and the buffer left are those of `TakeKeyEvent`; an event sets its key's state and resets the activity timer, and no event changes neither |
| MacroPadFirmware.MacroPad.GetEncoderDiff | macropad/code.py:182-195 | the difference from the stored position is returned, any movement is activity, and a peek leaves the stored position alone |
| MacroPadFirmware.MacroPad.GetPotentiometerDiff | macropad/code.py:197-208 | the slider's difference is returned, only a move of more than 10 is activity, and a peek leaves the stored value alone |
| MacroPadFirmware.MacroPad.GetXAxisDiff | macropad/code.py:219-235 | the dead-zoned x difference is returned, any movement is activity, and a peek leaves the stored value alone |
| MacroPadFirmware.MacroPad.GetYAxisDiff | macropad/code.py:237-253 | the same for the y axis |
| MacroPadFirmware.MacroPad.SendHeartbeat | macropad/code.py:106-109 | the port gets `h\n` |
| MacroPadFirmware.MacroPad.SendShorthand | macropad/code.py:111-123 | the port gets the letter, the value's decimal text and a newline |
| MacroPadFirmware.MacroPad.SendMessage | macropad/code.py:100-104 | the port gets the serialised message and a newline |
| MacroPadFirmware.MacroPad.WaitForReply | macropad/code.py:392-408 | the wait returns the first message that arrives, or nothing at the deadline, and leaves the buffer as `Await` says |
| MacroPadFirmware.MacroPad.SleepPass | macropad/code.py:428-449 | one pass of the sleep loop writes a heartbeat and only peeks, so the stored positions stay; it wakes on a key event, an encoder step, a slider move of more than 5 or a joystick move |
| MacroPadFirmware.MacroPad.SleepHandler | macropad/code.py:416-487 | `sleep` writes one heartbeat per pass until the first pass that wakes, returns to `command` with the waking event still queued and the activity timer reset, and keeps the stored positions |
| MacroPadFirmware.MacroPad.ReadInputs | macropad/code.py:549-555 | the consuming reads of a `command` pass take the key event and store the encoder, slider and joystick positions |
| MacroPadFirmware.MacroPad.ReportMoves | macropad/code.py:557-564 | the slider and joystick lines are written for what moved, with the newly stored values |
| MacroPadFirmware.MacroPad.SenseMoves | macropad/code.py:549-564 | the reads of a pass store the new positions and write exactly the lines of `PassMoves` for the old ones |
| MacroPadFirmware.MacroPad.SendMove | macropad/code.py:557-564 | one reading's line is written only when it moved |
| MacroPadFirmware.MacroPad.CommandPass | macropad/code.py:542-665 | the selection, the result and the key queue, key state, positions and activity time it leaves are exactly `CommandStep` of the state it started from: after more than 3 idle seconds `command` returns to sleep with the selection, reading and writing nothing; otherwise it drains one message, reads every input, writes the move lines, selects per `NextSelection` and leaves exactly when a command key was pressed |
| MacroPadFirmware.MacroPad.AwakeCommandPass | macropad/code.py:549-665 | a waking pass of `command` stores the readings, writes the move lines, moves the selection and leaves for the pressed key's handler with the new selection; together this is `CommandStep` of the reader state it started from |
| MacroPadFirmware.MacroPad.CommandHandler | macropad/code.py:519-665 | `command`'s result is exactly `CommandRun` of its passes from the reader state it started with (the first idle or command-key pass decides it), so the selection stays an index of the options and the result fits the state; it never raises |
| MacroPadFirmware.MacroPad.AdjustPass | macropad/code.py:738-769 | one pass of the adjustment reads a key and the encoder, moves and clamps the minutes, and leaves per `AdjustTarget` |
| MacroPadFirmware.MacroPad.AdjustTimeHandler | macropad/code.py:667-769 | `adjust_time`'s result is exactly `AdjustRun` of its passes from 0 minutes and the reader state it started with; it returns either the adjustment send with minutes within 45 either way or a cancel to `command`, and never raises |
| MacroPadFirmware.KeysAfter | macropad/code.py:162-180 | a key event records whether its key is down and leaves every other key's state as it was |
| MacroPadFirmware.CommandStep | macropad/code.py:542-665 | one pass of `command` keeps the selection an index of the options; an idle pass returns to `sleep` with the selection and leaves the reader state alone; any return carries the new selection and no options or minutes |
| MacroPadFirmware.CommandRun | macropad/code.py:519-665 | the fold of `command` over its passes never raises, runs on when there are no passes, and any result it returns selects an index of the options and is not the adjustment send |
| MacroPadFirmware.AdjustRun | macropad/code.py:667-769 | the fold of `adjust_time` over its passes never raises, and returns only the adjustment send with minutes within 45 either way or the cancel to `command` |
| MacroPadFirmware.AdjustRunWaitsForKey | macropad/code.py:738-769 | with no event queued, `adjust_time` keeps running exactly when no pass reads a press of key 1 or key 2 |
| MacroPadFirmware.MacroPad.SendRequest | macropad/code.py:771-945 | a sending handler writes its request, waits for the reply, raises exactly when a truthy reply has no `kind` and otherwise returns to `command` with the activity timer reset to the last pass's time |
| MacroPadFirmware.MacroPad.CollectPass | macropad/code.py:954-970 | one pass of the loading loop is `CollectOne` on the buffer |
| MacroPadFirmware.MacroPad.GetTimeEntriesHandler | macropad/code.py:947-990 | `get_time_entries` writes the request, reads until the loop of `Collect` ends and returns what `EntriesResult` says, raising exactly when it does; when it returns, the activity timer is reset to the last pass's time |
| MacroPadFirmware.MacroPad.RunHandler | macropad/code.py:1026-1029 | one turn of the main loop merges the handler's result over the state and keeps it consistent; a handler that raises or is still running leaves the state |
| MacroPadFirmware.MacroPad.Dispatch | macropad/code.py:1002-1017 | the handler named by the state runs, and what it returns fits the state |
| MacroPadFirmware.MacroPad.DispatchInteractive | macropad/code.py:1002-1017 | the same for the command screen, the adjustment and the sending handlers |
| MacroPadFirmware.MacroPad.Run | macropad/code.py:1019-1029 | from its initial state the main loop keeps the state consistent, with an option always selected, for as many turns as it runs |
| MacroPadFirmware.PassMoves | macropad/code.py:557-564 | a pass writes no line exactly when the slider and both joystick axes are where they were stored |
| MacroPadFirmware.Wakes | macropad/code.py:436-450 | a sleep pass wakes on any queued or new key event, an encoder step, a slider move of more than 5, or any joystick move |
| LegacyFirmware.Chunks | code.py:42 | one read per pass: the k-th chunk handed to the line reader is the k-th pass's port text |
| LegacyFirmware.CommandTarget | code.py:281-303 | a pressed key 0, 1, 2 or 3 leaves `command` for `get_time_entries`, `send_stop`, `send_start` or `adjust_time`; any other event, or none, stays |
| LegacyFirmware.SelectedRowVisible | code.py:262-279 | with 15-pixel rows and the list shifted up by 60 pixels per page of four, the selected row lies on screen, between the first and the fourth row |
| LegacyFirmware.EntriesResultAsWritten | code.py:474-492 | as written: a successful answer becomes `draw_options` with the sorted distinct descriptions and option 0 selected, with no blank option; it agrees with the corrected result whenever some entry came, and fails exactly where the corrected result fails |
| LegacyFirmware.NextSelectionAsWritten | code.py:262 | `(selected + diff) % len(options)` raises exactly when there are no options, and otherwise lands inside the list |
| LegacyFirmware.EmptyAnswerCrashesAsWritten | code.py:483-492 | a desk with no time entries answering `success` alone leaves an empty option list selected at 0, which breaks the options invariant, and the next pass of `command` divides by zero |
| LegacyFirmware.EmptyAnswerOffersBlank | macropad/code.py:977-981 | with the blank option added, the same answer leaves one blank option selected, the options invariant holds, and `command` can go on |
| LegacyFirmware.LegacyPad.constructor | code.py:36-87 | the pad starts with empty message and key buffers, the encoder's current reading, the start time as last activity and nothing written |
| LegacyFirmware.LegacyPad.GetMessage | code.py:39-60 | the buffer becomes what the line reader leaves, and the message is the parsed first complete line, or none |
| LegacyFirmware.LegacyPad.GetKeyEvent | code.py:71-85 | the event is the buffered front or the hardware's next event, a peeked event stays buffered, and only an event resets the activity timer |
| LegacyFirmware.LegacyPad.GetEncoderDiff | code.py:89-100 | the diff is the reading minus the last one kept, the kept reading moves only when not peeking, and a non-zero diff resets the activity timer |
| LegacyFirmware.LegacyPad.SendMessage | code.py:30-34 | the port receives the message's JSON text followed by one newline |
| LegacyFirmware.LegacyPad.WaitForReply | code.py:154-169 | the reply is the first message the buffered and arriving text completes before the deadline, or none, and the buffer keeps the rest |
| LegacyFirmware.LegacyPad.SleepHandler | code.py:177-204 | `sleep` returns to `command` exactly when some pass peeks a key event or an encoder step; on return the waking event is still queued (the peek puts it back) and the activity timer holds the waking pass's time; otherwise it is still waiting with the key buffer and the timer untouched |
| LegacyFirmware.LegacyPad.CommandPass | code.py:251-303 | a pass of `command` sleeps after three idle seconds keeping the selection; otherwise it reads a message, a key and the encoder, raises exactly when the option list is empty (the modulo by zero), and with options moves the selection around the list and leaves for the key's target; together this is `CommandStep` of the reader state it started from |
| LegacyFirmware.LegacyPad.CommandHandler | code.py:236-303 | `command`'s result is exactly `CommandRun` of its passes from the reader state it started with; from a reachable state it raises only on an empty option list, and then on its first awake pass; otherwise what it returns merges into a reachable state, and with no options the only return is to `sleep` |
| LegacyFirmware.LegacyPad.AdjustTimeHandler | code.py:305-389 | the result and the final minutes are exactly `AdjustRun` of the passes from 0 minutes and the reader state it started with; the adjustment stays within 45 minutes either way, and `adjust_time` returns only the adjustment to send or `command` |
| LegacyFirmware.CommandStep | code.py:251-303 | one pass of `command` keeps the selection in the list; it raises exactly when the list is empty and the pass is not idle; an idle pass returns to `sleep` with the selection; any return carries the new selection and no options or minutes |
| LegacyFirmware.CommandRun | code.py:236-303 | the fold of `command` over its passes raises only with no options, returns a selection inside a non-empty list, and with no options returns only to `sleep` with the old selection |
| LegacyFirmware.AdjustRun | code.py:305-389 | the fold of `adjust_time` keeps the minutes within 45 either way and returns only the adjustment with those minutes or the cancel to `command`; with no passes nothing changes |
| LegacyFirmware.AdjustRunWaitsForKey | code.py:305-389 | with no event queued, `adjust_time` keeps running exactly when no pass reads a press of key 1 or key 2 |
| LegacyFirmware.LegacyPad.SendRequest | code.py:391-452 | `send_start`, `send_stop` and `send_adjust_time` write their request line, wait for the reply, raise exactly when the reply has no kind, and otherwise return to `command` with the activity timer reset to the last poll's time |
| LegacyFirmware.LegacyPad.CollectPass | code.py:460-479 | one pass of the collecting loop is one step of the entry collector on the text that arrived, and the buffer keeps what the reader left |
| LegacyFirmware.LegacyPad.GetTimeEntriesHandler | code.py:454-492 | `get_time_entries` writes its request, collects the replies, raises exactly where the result as written is undefined, and otherwise returns the sorted distinct descriptions with option 0 selected, with no blank option when none came; when it returns, the activity timer is reset to the last poll's time |
| LegacyFirmware.LegacyPad.RunHandler | code.py:503-524 | a handler name outside `state_handlers` raises, and a returned dict is merged into the state, which stays reachable |
| LegacyFirmware.LegacyPad.Dispatch | code.py:503-524 | the state's name picks its handler, an unknown name raises, `command` with an empty list raises once awake, and a returned dict merges into a reachable state |
| LegacyFirmware.LegacyPad.DispatchRest | code.py:503-524 | the handlers after `command` are dispatched the same way |
| LegacyFirmware.LegacyPad.Run | code.py:514-524 | starting from `get_time_entries` with one blank option, every turn of the main loop keeps the state reachable: consistent, or holding the empty option list an answer without entries leaves |
| LegacyFirmware.Wakes | code.py:187-190 | a sleep pass wakes on any queued or new key event or an encoder step |
| LibMacroPad.TimeEntriesEffect | lib/src/macropad.rs:131-146 | listing entries answers one `timeEntry` per listed entry, in order, then `success`, after one list request; a listed entry without a string description panics |
| LibMacroPad.StartEffect | lib/src/macropad.rs:148-163 | starting creates one entry with the message's description and answers `success`; a message without a description panics |
| LibMacroPad.StopEffect | lib/src/macropad.rs:165-180 | stopping asks for the current entry, stops it by its id when there is one, answers `success` either way, and panics on a current entry without an integer id |
| LibMacroPad.AdjustEffect | lib/src/macropad.rs:182-207 | adjusting moves the current entry's start the message's minutes earlier when there is one, answers `success` either way, and panics when the start, the minutes or the id is missing |
| LibMacroPad.CommandEffect | lib/src/macropad.rs:117-129 | only the four command kinds are served, any other kind or a missing kind panics, and every served command ends its replies with `success` |
| LibMacroPad.LineStep | lib/src/macropad.rs:108-114 | a line is served only when it is valid UTF-8 holding valid JSON, and a served line always adds to the output |
| LibMacroPad.EveryLineAnswered | lib/src/macropad.rs:108-114 | over a run of lines none of which panics, the output grows by at least one line per input line |
| LibMacroPad.RunLinesCons | lib/src/macropad.rs:109-113 | running lines serves the first line and then the rest from the state it leaves, stopping at the first panic |
| LibMacroPad.MacroPad.constructor | lib/src/macropad.rs:15-22 | the session starts without a port, with both queues empty and no API calls made |
| LibMacroPad.MacroPad.OpenSerial | lib/src/macropad.rs:24-51 | a held port is kept; otherwise the matching port with the greatest name is opened with both queues emptied, nothing matching leaves no port, and a failed open panics |
| LibMacroPad.MacroPad.UpdateBuffers | lib/src/macropad.rs:58-106 | with a port, a read appends what was read, a time-out changes nothing, any other error drops the port, and while fewer than 256 bytes wait the output queue loses exactly what each 256-byte write took |
| LibMacroPad.MacroPad.ProcessInput | lib/src/macropad.rs:108-115 | every complete line in the input queue is served in order, the partial line stays, and the loop panics exactly where the line run does |
| LibMacroPad.MacroPad.ProcessLine | lib/src/macropad.rs:110-113 | one line is cut, decoded, parsed and served, with the session changed exactly as the line step says |
| LibMacroPad.MacroPad.ProcessMessage | lib/src/macropad.rs:117-129 | a message changes the session exactly as its command's effect says, and panics exactly where the effect is undefined |
| LibMacroPad.MacroPad.SendMessage | lib/src/macropad.rs:218-222 | the output queue grows by the message's JSON text and one newline, and nothing else changes |
| LibMacroPad.MacroPad.SendSuccess | lib/src/macropad.rs:214-216 | the output queue grows by the `success` line alone |
| LibMacroPad.MacroPad.Request | lib/src/macropad.rs:209-212 | each API request is recorded in order and answered with the API's response to that call |
| LibMacroPad.MacroPad.SendTimeEntries | lib/src/macropad.rs:131-146 | the session changes exactly as the listing effect says, panicking where it is undefined |
| LibMacroPad.MacroPad.StartTimeEntry | lib/src/macropad.rs:148-163 | the session changes exactly as the start effect says, panicking where it is undefined |
| LibMacroPad.MacroPad.StopTimeEntry | lib/src/macropad.rs:165-180 | the session changes exactly as the stop effect says, panicking where it is undefined |
| LibMacroPad.MacroPad.AdjustTime | lib/src/macropad.rs:182-207 | the session changes exactly as the adjust effect says, panicking where it is undefined |
| LibMacroPad.CurrentData | lib/src/macropad.rs:166 | the current entry is the response's `data` field when it has one, and null otherwise |
| LibMacroPad.Apply | lib/src/macropad.rs:214-222 | the replies are appended as their transcript and the calls after the earlier ones; any reply lengthens the output |
| LibMacroPad.RunLines | lib/src/macropad.rs:108-114 | a run of lines that does not panic only ever appends to the output and the API calls |
| LibMacroPad.TranscriptLonger | lib/src/macropad.rs:218-222 | a non-empty list of replies always writes something to the port |
| DeskMacroPad.Classify | deskpi/lib/src/macropad.rs:239-287 | a complete line is dropped when it is not UTF-8 or not JSON, skipped when it is the heartbeat, read as a u32 (`p`) or i32 (`x`, `y`) between letter and newline, panicking on a bad number, and otherwise a JSON command; shorthand lines never reach the JSON parser |
| DeskMacroPad.PotentiometerRoundTrip | deskpi/lib/src/macropad.rs:255-261 | the pad's `p` line for any u32 value is a line, and the host reads back exactly that value |
| DeskMacroPad.AxisRoundTrip | deskpi/lib/src/macropad.rs:263-277 | the pad's `x` and `y` lines for any i32 value are lines, and the host reads back exactly that value |
| DeskMacroPad.ShorthandIsAsciiLine | macropad/code.py:111-123 | a shorthand line is ASCII with its only newline at the end, so it is valid UTF-8 and one line |
| DeskMacroPad.TimeEntriesEffect | deskpi/lib/src/macropad.rs:308-328 | on a Toggl error only `error` is sent; otherwise one `timeEntry` per listed entry in order and then `success`, a missing description panicking |
| DeskMacroPad.ContinueEffect | deskpi/lib/src/macropad.rs:330-364 | a failed or empty list answers `error`; otherwise the most recent entry's description is restarted, the poll is reset, and the reply is `success` exactly when the creation succeeded |
| DeskMacroPad.StartEffect | deskpi/lib/src/macropad.rs:366-392 | the entry is created with the message's description unchanged, the poll is reset, and on success the e-ink display is told to start its animation and `success` is sent, otherwise `error` |
| DeskMacroPad.StopEffect | deskpi/lib/src/macropad.rs:394-426 | a failed lookup answers `error`, no current entry answers `success` with nothing stopped, and otherwise the entry is stopped by id, the display told to stop its animation on success |
| DeskMacroPad.AdjustEffect | deskpi/lib/src/macropad.rs:428-462 | a failed lookup or no current entry answers `error`; otherwise the start moves the message's minutes earlier, and missing start, minutes or id panics |
| DeskMacroPad.AdjustMoves | deskpi/lib/src/macropad.rs:440-461 | with the current entry, its start, its id and the minutes all read, the adjustment is exactly one move of the start by 60 seconds per minute, answered by the move's success |
| DeskMacroPad.MacAddresses | deskpi/lib/src/macropad.rs:471-475 | the device list is accepted exactly when every device is a string the MAC parser accepts, and the addresses keep their order |
| DeskMacroPad.SwitchEffect | deskpi/lib/src/macropad.rs:469-481 | exactly two valid MAC addresses go to the API client and `success` is sent; any other count or an invalid address panics |
| DeskMacroPad.CommandEffect | deskpi/lib/src/macropad.rs:291-306 | only the seven command kinds are served, a missing or unknown kind panics, and every served command ends with one `success` or `error` |
| DeskMacroPad.LineStep | deskpi/lib/src/macropad.rs:239-287 | a line that is not a command leaves the output, the API calls and the display queue unchanged |
| DeskMacroPad.RunLinesCons | deskpi/lib/src/macropad.rs:239-288 | running lines serves the first line and then the rest from the state it leaves, stopping at the first panic |
| DeskMacroPad.ServeAppendsReplyLines | deskpi/lib/src/macropad.rs:499-503 | serving a command appends its replies to the output as whole lines, one per reply, the last being `success` or `error` |
| DeskMacroPad.MacroPad.constructor | deskpi/lib/src/macropad.rs:26-43 | the session starts without a port, with empty queues, no axis values, no API calls and no poll time |
| DeskMacroPad.MacroPad.OpenSerial | deskpi/lib/src/macropad.rs:45-84 | a held port is kept; otherwise the first matching port whose first read is exactly `h\n` is kept with both queues emptied, and with none the queues are untouched |
| DeskMacroPad.MacroPad.UpdateBuffers | deskpi/lib/src/macropad.rs:184-236 | a read appends exactly the bytes read, a time-out changes nothing, any other read, count or write error drops the port, writes take at most 256 front bytes, and dropping the port keeps both queues |
| DeskMacroPad.MacroPad.SendMessage | deskpi/lib/src/macropad.rs:499-503 | the output queue grows by the message's JSON text and one newline, and nothing else changes |
| DeskMacroPad.MacroPad.Request | deskpi/lib/src/macropad.rs:483-489 | each API request is recorded in order and answered with the API's response to that call, or its error |
| DeskMacroPad.MacroPad.ProcessInput | deskpi/lib/src/macropad.rs:238-289 | every complete line is served in arrival order, the partial line stays, and the loop panics exactly where the line run does |
| DeskMacroPad.MacroPad.ProcessLine | deskpi/lib/src/macropad.rs:239-288 | one cut line changes the session exactly as its line step says |
| DeskMacroPad.MacroPad.ProcessMessage | deskpi/lib/src/macropad.rs:291-306 | a message changes the session exactly as its command's effect says, and panics exactly where the effect is undefined |
| DeskMacroPad.MacroPad.SendReplies | deskpi/lib/src/macropad.rs:491-503 | the replies are queued in order, one line each, and nothing else changes |
| DeskMacroPad.MacroPad.SendTimeEntries | deskpi/lib/src/macropad.rs:308-328 | the session changes exactly as the listing effect says, panicking where it is undefined |
| DeskMacroPad.MacroPad.SendEntries | deskpi/lib/src/macropad.rs:318-325 | the loop over entries queues one `timeEntry` per entry in order, and completes exactly when every entry has a string description |
| DeskMacroPad.MacroPad.ContinueTimeEntry | deskpi/lib/src/macropad.rs:330-364 | the session changes exactly as the continue effect says, panicking where it is undefined |
| DeskMacroPad.MacroPad.StartTimeEntry | deskpi/lib/src/macropad.rs:366-392 | the session changes exactly as the start effect says, panicking where it is undefined |
| DeskMacroPad.MacroPad.StopTimeEntry | deskpi/lib/src/macropad.rs:394-426 | the session changes exactly as the stop effect says, panicking where it is undefined |
| DeskMacroPad.MacroPad.AdjustTime | deskpi/lib/src/macropad.rs:428-462 | the session changes exactly as the adjust effect says, panicking where it is undefined |
| DeskMacroPad.MacroPad.SendWakeOnLan | deskpi/lib/src/macropad.rs:464-467 | the wake-on-LAN call is made and `success` is sent |
| DeskMacroPad.MacroPad.SwitchBoseDevices | deskpi/lib/src/macropad.rs:469-481 | the session changes exactly as the switch effect says, panicking where it is undefined |
| DeskMacroPad.Serve | deskpi/lib/src/macropad.rs:291-306 | a message is served exactly when its command's effect is defined, only for the command kinds, and serving always lengthens the output and keeps the earlier API calls |
| DeskMacroPad.Apply | deskpi/lib/src/macropad.rs:491-503 | the replies are appended to the output as their transcript, the effect's calls and display messages after the earlier ones, the axis values are untouched, and the poll is reset when the effect says so |
| DeskMacroPad.RunLines | deskpi/lib/src/macropad.rs:238-289 | a run of lines that does not panic only ever appends to the output, the API calls and the display queue |
| MacroPadActor.CommandAsk | src/macropad.rs:137-216 | each known kind makes its one ask of the Toggl actor, forwarding the description and the minutes unchanged; a missing or unknown kind, or a missing description or minutes, panics before asking |
| MacroPadActor.CommandPlan | src/macropad.rs:137-173 | a command makes one ask and sends exactly one final `success` or `error`: `error` alone when the ask fails, and for `getTimeEntries` one `timeEntry` per array element first, the array and every description unwrapped |
| MacroPadActor.AllSentExtends | src/macropad.rs:228-231 | one more transmission that goes out extends a run of transmissions that all went out |
| MacroPadActor.SendStopsAt | src/macropad.rs:162-170 | an entry without a description, or a transmission that fails, means the entry list is never sent in full |
| MacroPadActor.Macropad.constructor | src/macropad.rs:69-99 | the actor starts having sent nothing and asked nothing |
| MacroPadActor.Macropad.HandleStream | src/macropad.rs:107-133 | the `h` line, framing errors and stream start and end send and ask nothing; another line must be JSON or the handler panics, and is served exactly as the command's plan says, sent messages only growing |
| MacroPadActor.Macropad.ProcessCommand | src/macropad.rs:137-153 | the messages sent and the asks made are exactly the command's plan, completed exactly when every message of it goes out |
| MacroPadActor.Macropad.ServeTimeEntries | src/macropad.rs:137-173 | `getTimeEntries` is served exactly as its plan says |
| MacroPadActor.Macropad.ServeForwarded | src/macropad.rs:137-216 | the other kinds are served exactly as their plan says: one forwarded ask, then one verdict |
| MacroPadActor.Macropad.Forward | src/macropad.rs:175-216 | a forwarding handler makes its one ask, sends nothing, and returns Ok exactly when the ask succeeds |
| MacroPadActor.Macropad.SendTimeEntries | src/macropad.rs:155-173 | a failed ask is `Err` with nothing sent; a non-array answer panics; otherwise one `timeEntry` per element is sent in order, Ok exactly when all of them go out |
| MacroPadActor.Macropad.SendEntries | src/macropad.rs:162-170 | the loop sends one `timeEntry` per entry in order, and finishes exactly when every entry has a description and every transmission goes out |
| MacroPadActor.Macropad.SendEntry | src/macropad.rs:163-169 | one entry's description is sent as a `timeEntry` message, exactly when it has one and the transmission goes out |
| MacroPadActor.Macropad.SendMessage | src/macropad.rs:228-231 | the message is sent exactly when the transmission succeeds, and the unwrapped failure panics with nothing sent |
| DeskCircuitPlayground.Classify | deskpi/lib/src/circuit_playground.rs:136-181 | a complete line is dropped exactly when it is not UTF-8, skipped exactly when it is the `c\n` greeting, a reading or a panic exactly when it starts with `ra1` (the u32 between prefix and newline decides which), and silently consumed otherwise |
| DeskCircuitPlayground.ReadingRoundTrip | circuit-playground/code.py:21-24 | the sensor's `ra1<value>` line for any u32 value is one line that the host reads back as exactly that value |
| DeskCircuitPlayground.LineStep | deskpi/lib/src/circuit_playground.rs:151-179 | a line panics exactly when its reading does not parse; a reading sends one metric with the value and time only when none was sent before or the last was more than 60 seconds ago; anything else changes nothing |
| DeskCircuitPlayground.LineStepSpaced | deskpi/lib/src/circuit_playground.rs:158-176 | one line keeps the metrics sent more than a minute apart, with the last one's time recorded |
| DeskCircuitPlayground.RunLinesSpaced | deskpi/lib/src/circuit_playground.rs:136-181 | a whole batch of lines keeps the metrics sent more than a minute apart |
| DeskCircuitPlayground.AtMostOneMetricPerBatch | deskpi/lib/src/circuit_playground.rs:136-181 | against one clock value a batch of lines sends at most one metric, at that time, and none once a metric was sent at that time |
| DeskCircuitPlayground.RunLinesCons | deskpi/lib/src/circuit_playground.rs:136-181 | running lines serves the first line and then the rest from the state it leaves, stopping at the first panic |
| DeskCircuitPlayground.EmptyQueueNeverWrites | deskpi/lib/src/circuit_playground.rs:81-133 | with nothing queued for the sensor nothing is written, and the port stays exactly when it was held and the waiting-bytes query succeeds |
| DeskCircuitPlayground.CircuitPlayground.constructor | deskpi/lib/src/circuit_playground.rs:18-33 | the session starts without a port, with empty queues and no metric sent |
| DeskCircuitPlayground.CircuitPlayground.OpenSerial | deskpi/lib/src/circuit_playground.rs:35-74 | a held port is kept; otherwise the first matching port whose first read is exactly `c\n` is kept with the queues emptied |
| DeskCircuitPlayground.CircuitPlayground.UpdateBuffers | deskpi/lib/src/circuit_playground.rs:81-133 | a read appends what was read, a time-out changes nothing, and the port stays exactly when the read and the waiting-bytes query do not fail |
| DeskCircuitPlayground.CircuitPlayground.ProcessInput | deskpi/lib/src/circuit_playground.rs:135-182 | every complete line is consumed in order, the partial line stays, the metrics change exactly as the line run says, and the loop panics exactly where it does |
| DeskCircuitPlayground.CircuitPlayground.ProcessLine | deskpi/lib/src/circuit_playground.rs:137-180 | one cut line changes the metrics exactly as its line step says, keeping them spaced |
| DeskCircuitPlayground.Due | deskpi/lib/src/circuit_playground.rs:158-159 | a metric is due when none was sent yet, and otherwise exactly when more than 60 seconds have passed since the last one |
| DeskCircuitPlayground.RunLines | deskpi/lib/src/circuit_playground.rs:136-181 | a batch of lines that does not panic only appends metrics, each stamped with the batch's clock reading and timestamp |
| PlaygroundActor.HandleStream | src/circuit_playground.rs:71-102 | framing errors, stream start and end, the `c` heartbeat and lines not starting with `ra1` yield nothing; after `ra1` the rest must be a u32, which becomes one reading, and anything else panics |
| PlaygroundActor.ReadingLineRoundTrip | src/circuit_playground.rs:82-89 | the sensor's `ra1<value>` line for any u32 value yields exactly that reading |
| PlaygroundActor.HeartbeatIgnored | src/circuit_playground.rs:78-80 | the heartbeat line yields nothing |
| PlaygroundActor.OneMinuteBoundary | src/circuit_playground.rs:121-125 | a reading exactly one minute after the last submission is posted, and one a nanosecond earlier is skipped |
| PlaygroundActor.Timestamp | src/circuit_playground.rs:133 | the metric's timestamp is the whole number of seconds at or before the instant |
| PlaygroundActor.SubmitKeepsSpaced | src/circuit_playground.rs:119-148 | posting a reading the rate limit lets through keeps consecutive submissions at least a minute apart, with the last one's instant remembered |
| PlaygroundActor.CircuitPlayground.constructor | src/circuit_playground.rs:21-63 | the actor starts with no submission made |
| PlaygroundActor.CircuitPlayground.HandleReading | src/circuit_playground.rs:112-149 | a reading less than a minute after the last submission is skipped; otherwise it is posted with its value and timestamp and the instant remembered exactly when the post succeeds, a failed post panicking with nothing changed |
| PlaygroundActor.Recent | src/circuit_playground.rs:120-125 | a reading is too recent exactly when a submission was made less than a minute before it; with none made, nothing is too recent |
| PlaygroundFirmware.UpdateReadsBack | circuit-playground/code.py:16-24 | what one update writes splits into exactly two lines on the host: the `c\n` greeting, which is skipped, and the `ra1` line, which reads back as the raw touch value |
| PlaygroundFirmware.ToggleOnRisingEdge | circuit-playground/code.py:34-37 | with a button that reads the same throughout a pass, the display toggles exactly on a rising edge |
| PlaygroundFirmware.Playground.constructor | circuit-playground/code.py:29-31 | the board starts with the display off, the button released, no time counted and nothing written |
| PlaygroundFirmware.Playground.Step | circuit-playground/code.py:34-61 | one pass toggles the display on a press not seen on the last pass, remembers the button, and on every hundredth 10 ms sleep resets the count and writes the heartbeat and then the readings line, writing nothing otherwise |
| PlaygroundFirmware.ReadingLine | circuit-playground/code.py:21-24 | the reading line is one line, and for any u32 value the desk reads back the raw value |
| PlaygroundFirmware.UpdateBytes | circuit-playground/code.py:16-24 | the bytes of one update are the greeting line followed by the reading line, two whole lines |
| PlaygroundFirmware.Toggled | circuit-playground/code.py:34-36 | the display flips exactly when the first read differs from the last pass's and the second read is pressed; a released button never flips it |
| Matrix.GammaRow | lib/src/matrix.rs:203-215 | each of the sixteen rows of the gamma table has sixteen entries |
| Matrix.GammaRowSorted | lib/src/matrix.rs:203-215 | each row of the gamma table is sorted and starts no lower than the row before it ends |
| Matrix.GammaLowRowSorted | lib/src/matrix.rs:203-209 | the same for rows 0 to 7 |
| Matrix.GammaHighRowSorted | lib/src/matrix.rs:209-215 | the same for rows 8 to 15 |
| Matrix.GammaRow0Sorted | lib/src/matrix.rs:203-215 | row 0 of the gamma table is sorted |
| Matrix.GammaRow1Sorted | lib/src/matrix.rs:203-215 | row 1 of the gamma table is sorted and starts no lower than row 0 ends |
| Matrix.GammaRow2Sorted | lib/src/matrix.rs:203-215 | row 2 of the gamma table is sorted and starts no lower than row 1 ends |
| Matrix.GammaRow3Sorted | lib/src/matrix.rs:203-215 | row 3 of the gamma table is sorted and starts no lower than row 2 ends |
| Matrix.GammaRow4Sorted | lib/src/matrix.rs:203-215 | row 4 of the gamma table is sorted and starts no lower than row 3 ends |
| Matrix.GammaRow5Sorted | lib/src/matrix.rs:203-215 | row 5 of the gamma table is sorted and starts no lower than row 4 ends |
| Matrix.GammaRow6Sorted | lib/src/matrix.rs:203-215 | row 6 of the gamma table is sorted and starts no lower than row 5 ends |
| Matrix.GammaRow7Sorted | lib/src/matrix.rs:203-215 | row 7 of the gamma table is sorted and starts no lower than row 6 ends |
| Matrix.GammaRow8Sorted | lib/src/matrix.rs:203-215 | row 8 of the gamma table is sorted and starts no lower than row 7 ends |
| Matrix.GammaRow9Sorted | lib/src/matrix.rs:203-215 | row 9 of the gamma table is sorted and starts no lower than row 8 ends |
| Matrix.GammaRow10Sorted | lib/src/matrix.rs:203-215 | row 10 of the gamma table is sorted and starts no lower than row 9 ends |
| Matrix.GammaRow11Sorted | lib/src/matrix.rs:203-215 | row 11 of the gamma table is sorted and starts no lower than row 10 ends |
| Matrix.GammaRow12Sorted | lib/src/matrix.rs:203-215 | row 12 of the gamma table is sorted and starts no lower than row 11 ends |
| Matrix.GammaRow13Sorted | lib/src/matrix.rs:203-215 | row 13 of the gamma table is sorted and starts no lower than row 12 ends |
| Matrix.GammaRow14Sorted | lib/src/matrix.rs:203-215 | row 14 of the gamma table is sorted and starts no lower than row 13 ends |
| Matrix.GammaRow15Sorted | lib/src/matrix.rs:203-215 | row 15 of the gamma table is sorted and starts no lower than row 14 ends |
| Matrix.GammaRowsSorted | lib/src/matrix.rs:203-215 | the first n rows of the gamma table together never decrease, ending with row n - 1's last entry |
| Matrix.GammaShape | lib/src/matrix.rs:203-215 | the gamma table has 256 entries, never decreases, and maps 0 to 0 and 255 to 255 |
| Matrix.GammaInByteRange | lib/src/matrix.rs:203-215 | every gamma table entry is a byte value |
| Matrix.Gamma | lib/src/matrix.rs:203-215 | the gamma lookup is a byte and keeps black black |
| Matrix.GammaIsTable | lib/src/matrix.rs:203-215 | the lookup reads the table entry, and a brighter input never gives a darker output |
| Matrix.RowLookupIsPermutation | lib/src/matrix.rs:217 | the row lookup sends the nine logical rows to the nine controller rows, each exactly once |
| Matrix.PixelAddresses | lib/src/matrix.rs:219-236 | a pixel's red, green and blue addresses are the three different addresses of one cell, all below 351, ordered green, red, blue on odd columns and column 12 and blue, green, red elsewhere |
| Matrix.Address | lib/src/matrix.rs:219-236 | every LED of the matrix has a register address below 351 |
| Matrix.LedAt | lib/src/matrix.rs:219-236 | every address below 351 names an LED of the matrix |
| Matrix.LedAtAddress | lib/src/matrix.rs:219-236 | decoding an LED's address gives the LED back |
| Matrix.AddressInCell | lib/src/matrix.rs:222-235 | an LED's address is its cell's first address plus its channel's offset |
| Matrix.AddressLedAt | lib/src/matrix.rs:219-236 | every address below 351 is the address of the LED decoded from it, so the wiring covers every register |
| Matrix.AddressesDistinct | lib/src/matrix.rs:219-236 | distinct LEDs have distinct addresses, so no register is written twice for two LEDs |
| Matrix.Intensity | lib/src/matrix.rs:180-182 | a channel scaled by alpha is never brighter than the channel, is 0 at alpha 0 and unchanged at alpha 255 |
| Matrix.SourceIndex | lib/src/matrix.rs:176-179 | the image index of a logical pixel is inside the image and reads the pixel turned by 180 degrees |
| Matrix.Registers | lib/src/matrix.rs:171-187 | the register image is 352 bytes, a zero start register followed by one byte per LED address |
| Matrix.RegistersAtLed | lib/src/matrix.rs:171-187 | each LED's register holds the gamma-corrected, alpha-scaled channel of its flipped pixel, and a transparent pixel leaves its LEDs dark |
| Matrix.WithPixel | lib/src/matrix.rs:180-182 | writing one pixel's LEDs keeps the buffer's length and start register |
| Matrix.FillPixel | lib/src/matrix.rs:175-183 | writing the three LEDs of pixel (x, y) extends the part of the buffer already holding its wanted bytes by that pixel |
| Matrix.FillPixelAt | lib/src/matrix.rs:175-183 | after a pixel is written each LED holds its wanted byte if it belongs to that pixel or was already written, so a later pixel never overwrites an earlier one |
| Matrix.FillColumn | lib/src/matrix.rs:175-184 | a finished column hands over to the next one |
| Matrix.FilledByte | lib/src/matrix.rs:175-185 | once every column is done, every byte after the start register is the wanted one |
| Matrix.AddressHasLed | lib/src/matrix.rs:219-236 | some LED of the matrix is wired to each address below 351 |
| Matrix.FillDone | lib/src/matrix.rs:171-185 | once every column is done, the buffer is exactly the register image |
| Matrix.PixelRegisters | lib/src/matrix.rs:176-182 | the three register bytes of pixel (x, y) are its flipped pixel's red, green and blue, scaled by alpha and gamma-corrected |
| Matrix.WritePixel | lib/src/matrix.rs:176-182 | the loop body writes pixel (x, y)'s three LEDs so that the buffer holds the register image up to and including that pixel |
| Matrix.EncodeFrame | lib/src/matrix.rs:171-201 | the buffer filled pixel by pixel is cut into a first page of bytes 0 to 180 and a second page of a zero start register followed by bytes 181 to 351 |
| Matrix.ZeroedTail | lib/src/matrix.rs:195-200 | zeroing byte 180 and cutting there gives a zero followed by the bytes after it |
| Matrix.PagesCarryEveryRegister | lib/src/matrix.rs:189-200 | the pages are 181 and 172 bytes, each starting with a zero start register, and every LED address reaches the controller, below 180 in the first page and from 180 in the second |
| Matrix.Scaling | lib/src/matrix.rs:22-23 | the scaling buffer is 181 bytes with a zero start register |
| Matrix.DriverBatches | lib/src/matrix.rs:104-112 | an update turns the driver on exactly when the matrix is enabled and the driver off, off exactly when it is disabled and the driver on, and does nothing else |
| Matrix.Matrix.constructor | lib/src/matrix.rs:15-66 | the matrix starts disabled, not updated, with the driver off and only the reset sequence queued |
| Matrix.Matrix.SetEnabled | lib/src/matrix.rs:138-141 | the wish is recorded and the next update is forced, with no bus traffic |
| Matrix.Matrix.Update | lib/src/matrix.rs:70-118 | an update happens when the matrix was updated or is enabled: the driver is switched to match and the frame's two pages are queued after it; otherwise nothing is queued; the flag is cleared either way |
| Matrix.InitBatch | lib/src/matrix.rs:27-56 | the reset batch addresses the matrix, unlocks every page select, resets the chip, sets the scaling of both pages, and ends with the driver disabled |
| Matrix.TurnOnBatch | lib/src/matrix.rs:143-150 | switching on addresses the matrix, unlocks its page select, writes no pixels and ends by enabling the driver |
| Matrix.TurnOffBatch | lib/src/matrix.rs:152-169 | switching off clears both pages with zeros only, unlocks each page select, and ends by disabling the driver |
| Matrix.PixelBatches | lib/src/matrix.rs:189-201 | a frame is two batches: page 0 gets the first part after the matrix is addressed, page 1 the second, each page select unlocked |
| Matrix.Cell | lib/src/matrix.rs:222-227 | the cell number decodes back to the column and the controller row: ten cells per row for the first ten columns, and three per row from cell 90 on for the last three |
| Matrix.LedByte | lib/src/matrix.rs:180-182 | an LED stays dark when its pixel is transparent or its channel is 0 |
| Unicorn.LessIsStrictOrder | unicorn/src/main.py:66-69 | the animation order is irreflexive, asymmetric and transitive |
| Unicorn.LessTotal | unicorn/src/main.py:66-69 | any two items with different counters are ordered one way or the other |
| Unicorn.EqualPrioritiesAreFifo | unicorn/src/main.py:66-69 | between items of equal priority the one queued first comes first |
| Unicorn.MinIndex | unicorn/src/main.py:114 | the item `heappop` takes is in the queue and no queued item comes before it |
| Unicorn.Remove | unicorn/src/main.py:114 | taking an item out leaves the others, in order |
| Unicorn.NumberedRemove | unicorn/src/main.py:114 | taking an item out keeps the queued counters distinct and below the class counter |
| Unicorn.PopTakesTheLeast | unicorn/src/main.py:114 | the popped item comes before every other queued item, the rest stay queued and come after it, and nothing is lost or made up |
| Unicorn.MinimumComesFirst | unicorn/src/main.py:114 | the popped item comes strictly before every other queued item |
| Unicorn.RemoveSplits | unicorn/src/main.py:114 | the queue is the popped item plus what remains |
| Unicorn.Animations.constructor | unicorn/src/main.py:58-75 | the display starts with an empty queue, counter 0, no priority, no runner and no interrupt |
| Unicorn.Animations.Enqueue | unicorn/src/main.py:77-95 | queuing numbers the item with the next counter and appends it, raises the interrupt exactly when a runner plays something less urgent, and starts a runner at this priority when none is running |
| Unicorn.Animations.Pop | unicorn/src/main.py:114-117 | the runner takes the least item of the queue, losing nothing else, and records its priority |
| Unicorn.Animations.Finish | unicorn/src/main.py:128-132 | when the runner ends the priority is cleared and the running and interrupt flags are lowered |
| Unicorn.Animations.PlayNext | unicorn/src/main.py:112-127 | one turn plays the least queued item: `Stop` clears the queue, an interrupt is swallowed, any other exception ends the runner, and without arrivals everything left comes after the played item |
| Unicorn.Animations.RunAnimations | unicorn/src/main.py:106-133 | the runner plays until the queue is empty, `Stop` clears it or an animation raises; it then ends with no priority and no interrupt, nothing plays after `Stop`, and without new arrivals the animations play in priority order, first come first served within a priority |
| Unicorn.AscendingExtends | unicorn/src/main.py:112-127 | a played sequence in order stays in order when the least remaining item is played next |
| Unicorn.SamePriorityPlaysInOrder | unicorn/src/main.py:66-69 | of two animations queued at the same priority on an idle display, the one queued first plays first |
| Unicorn.UrgentRequestInterrupts | unicorn/src/main.py:85-87 | a request interrupts what is playing exactly when its priority number is lower |
| Unicorn.ClockFields | unicorn/src/main.py:304-306 | hours are below 12, minutes and seconds below 60 |
| Unicorn.ClockFieldsTellTime | unicorn/src/main.py:304-306 | the three fields together give the time within the twelve-hour period |
| Unicorn.DigitChar | unicorn/src/main.py:309 | a digit prints as its one character |
| Unicorn.Format02 | unicorn/src/main.py:309 | `{:02}` gives at least two characters |
| Unicorn.Format02ReadsBack | unicorn/src/main.py:309 | `{:02}` of a number below 100 is two digits that read back as the number |
| Unicorn.FieldsText | unicorn/src/main.py:309 | the text is the two fields with a colon between them |
| Unicorn.ClockText | unicorn/src/main.py:308-309 | the clock text is five characters with the colon in the middle |
| Unicorn.ClockTextReadsBack | unicorn/src/main.py:304-309 | the clock text's two fields read back as the hours and minutes |
| Unicorn.CountdownSeconds | unicorn/src/main.py:393 | the countdown is the time left clamped to between 0 and 3599 seconds |
| Unicorn.Mod60 | unicorn/src/main.py:419-420 | the remainder of a time by 60 seconds lies in [0, 60) |
| Unicorn.CountdownFields | unicorn/src/main.py:418-420 | the countdown's minutes and seconds are both below 60 |
| Unicorn.CountdownTellsTime | unicorn/src/main.py:418-420 | below an hour, the minutes and seconds together give the whole seconds left |
| Unicorn.CountdownText | unicorn/src/main.py:418-423 | the countdown text is five characters with the colon in the middle |
| Unicorn.TilesAppend | unicorn/src/main.py:328-350 | closing a run of one kind that starts where the last one ended, with a different kind, extends the tiling |
| Unicorn.Segment | unicorn/src/main.py:328-350 | the old and new clock texts are cut into runs that tile the whole text, each run all fixed or all moving, neighbouring runs of different kinds |
| Unicorn.TilingIsUnique | unicorn/src/main.py:328-350 | there is only one such tiling, so the runs found are the maximal ones |
| Unicorn.EndsWithinSpan | unicorn/src/main.py:328-350 | each run is non-empty and ends within the text |
| Unicorn.NextSwitches | unicorn/src/main.py:328-350 | a run ends at the end of the text or where the kind changes |
| Unicorn.TilesCover | unicorn/src/main.py:328-350 | every character position lies in a run of its own kind |
| Unicorn.IconRowsAreBigEndian | unicorn/src/main.py:726-729 | the pixel at a row and column is bit 15 - column of the row's two bytes read high byte first |
| Unicorn.BitSplit | unicorn/src/main.py:726-729 | a bit of a two-part number is the bit of the low part or of the high part |
| Unicorn.DrawIcon | unicorn/src/main.py:722-730 | exactly the set icon bits are drawn, row r and column c at (x + r, y + 15 - c), and nothing outside the 10 by 16 box |
| Unicorn.DrawIconRow | unicorn/src/main.py:724-730 | one icon row adds exactly its set bits in its own column of the display, keeping what was drawn before |
| Unicorn.Less | unicorn/src/main.py:67-70 | a lower priority comes first, a higher one never does, and equal priorities go by the older counter |
| Unicorn.KindAt | unicorn/src/main.py:334 | a character moves exactly when the two clock faces differ there |
| Unicorn.IconBit | unicorn/src/main.py:726-729 | the pixel at a row and column is bit 7 - column mod 8 of the row's byte column / 8 |

## Left out

- GPIO, I2C and PWM access, `xset`, and the desktop raylib window are not modelled. Their reads are parameters and their `unwrap`s are dropped.
- Serial ports, HTTP, Bluetooth, clocks and the raylib timer are oracles or parameters. What they return is not modelled.
- The write oracle must report progress (`Serial.Progressing`). A driver that accepted zero bytes would make the Rust write loop spin forever, and that case is excluded.
- Floating-point scaling is not modelled: the axis division by 1023 and 32768, the spline target and the Circuit Playground's float accumulator. Where a float result is only truncated, the model uses integer division (see `Matrix`).
- Rendering is not modelled: fonts, drawing, the rainbow effect, frame timing, NeoPixel and display refresh, and the MacroPad scroll animation.
- Serialising and parsing JSON text, Base64, date formatting, RFC 3339 parsing and MAC address parsing are oracle functions. Their output text is not modelled.
- Writing `date.txt` is not modelled. Only the date string kept in memory is.
- Puck: `current_date` is modelled only as the string it yields. `convert_puck_dithered_image` is not modelled.
- Urban: readings are reals, and the key order that serde produces is not modelled. Environment variables and the HTTP post are parameters, and `on_stop` is not modelled.
- Weather: spells are index pairs and times are minutes of the day. The fetch itself is not modelled.
- Backlight.BacklightActor.HandleRelease: a release at a count of zero is modelled as a panic (debug-build semantics). A release build would wrap the `usize` instead.
- LibMacroPad.StartEffect: a missing or malformed TOGGL_PROJECT_ID or TOGGL_WORKSPACE_ID would panic in `unwrap`. The model takes the identifiers as given.
- DeskMacroPad.StartEffect: the panics on a missing TOGGL environment variable are not modelled, for the same reason.
- DeskMacroPad.ContinueEffect: the panics on a missing TOGGL environment variable are not modelled.
- DeskMacroPad.StopEffect: the panic on a missing TOGGL_WORKSPACE_ID is not modelled.
- DeskMacroPad.AdjustEffect: the panic on a missing TOGGL_WORKSPACE_ID is not modelled.
- Toggl.TogglActor.AdjustTime, DeskMacroPad.AdjustEffect, DeskMacroPad.AdjustMoves, DeskMacroPad.MacroPad.AdjustTime, LibMacroPad.AdjustEffect and LibMacroPad.MacroPad.AdjustTime: the new start is `start - 60 * minutes` seconds for every integer, with no bound. chrono panics when `Duration::minutes(m)` leaves the duration range, or when subtracting it leaves the date range (src/toggl.rs:294, deskpi/lib/src/macropad.rs:442, lib/src/macropad.rs:190). That panic is not modelled. The pads only send minutes clamped to ±45 (macropad/code.py:702, 742-756), far inside both ranges.
- DeskMacroPad `update` is not modelled as a whole. Its 60-second poll for the current entry, its LED progress bar and its KEY_ONE wake-on-LAN are left out. Its buffer and input steps are modelled.
- The lib MacroPad `update` only calls `update_buffers` and then `process_input`, and is not a separate member.
- MacroPadActor.Macropad.constructor: opening the serial port in `on_start` is not modelled.
- The MacroPad firmware's distance-sensor wake, light difference and brightness fades are not modelled.
- The actor and thread plumbing is not modelled. The metrics thread becomes a list of metrics handed to the actor.
- API client device protocols (Bose, Puck transfer, the I2C bus) are modelled only as the batches queued for them.
- Unicorn: the async scheduler and `sleep_frame` are not modelled. The heap is a sequence with its minimum taken on dequeue, not `heapq`'s array layout. The SpaceX and inbox animations are left out.
- Unicorn.Segment: requires both clock strings to have the same non-empty length. The clock face always formats five characters, so this holds in the source.
- MicroPython's `time.time()` is taken to give whole seconds.
- PadFirmware.Receive, MacroPadFirmware.MacroPad.GetMessage and LegacyFirmware.LegacyPad.GetMessage: a chunk is text that has already been decoded, so the `UnicodeError` that `read(100).decode('utf-8')` raises when a read splits a multibyte character (macropad/code.py:132, code.py:42) is not modelled. The parse is an oracle, and it is taken to map a `null` line to None, as `json.loads` does. The wait loops (macropad/code.py:402-405, code.py:163-166) then treat that line as no message. An oracle that returned `Some(JNull)` there would not match the firmware.
- PadFirmware.CollectOne: a `timeEntry` whose description is not a string raises at once. The firmware appends any value there and could only fail later, when sorting or drawing; the desk always sends a string (`PadProtocol.TimeEntryMessage`).
- DeskCircuitPlayground.RunLines: one clock reading and one timestamp serve a whole batch of lines. The source reads the clock for each line (deskpi/lib/src/circuit_playground.rs:155-176), so a batch's metrics share one time in the model.

## Findings

| source | as written | input that shows it | evidently intended | confidence | as-written member | corrected member |
|---|---|---|---|---|---|---|
| code.py:483-485 | the options offered after `get_time_entries` are `sorted(set(entries))` with no blank option, and the command step later takes the selection modulo `len(options)` (code.py:262); `LegacyPad` runs this code as written, and its `command` raises there | the desk answers `success` with no `timeEntry` in any message, so the options are empty and the modulo divides by zero | add `''` when the entry list is empty, as macropad/code.py:977-981 does | not executed | LegacyFirmware.EmptyAnswerCrashesAsWritten | LegacyFirmware.EmptyAnswerOffersBlank |
