/**
 * The Think Ink e-paper image path: the dithered raw image is packed four
 * pixels to a byte, two bits each with the first pixel in the top bits, and
 * the packed buffer travels to the display as a run of `displayData`
 * messages of at most 256 bytes (Base64 in the `data` field, byte offset
 * in `offset`) followed by a single `refreshDisplay`.
 */
module Eink {
  import opened Common
  import opened Dither
  import opened Json

  /** Bits `(3 - j) * 2 + 1 .. (3 - j) * 2` of a packed byte: the j-th pixel in it. */
  function Field(b: bv8, j: nat): (r: bv8)
    requires j < 4
    ensures r <= 3
  {
    (b >> ((3 - j) * 2)) & 3
  }

  /** The value of `byte` after the first j steps of the inner loop for output byte i. */
  function Packed(raw: seq<bv8>, i: nat, j: nat): bv8
    requires j <= 4 && 8 * i + 8 <= |raw|
  {
    if j == 0 then 0
    else Packed(raw, i, j - 1) | (DitheredPixel(raw, 4 * i + j - 1) << ((3 - (j - 1)) * 2))
  }

  lemma SpreadFields(f0: bv8, f1: bv8, f2: bv8, f3: bv8)
    requires f0 <= 3 && f1 <= 3 && f2 <= 3 && f3 <= 3
    ensures var x := (f0 << 6) | (f1 << 4) | (f2 << 2) | f3;
      Field(x, 0) == f0 && Field(x, 1) == f1 && Field(x, 2) == f2 && Field(x, 3) == f3
  {
  }

  /** After the four steps, field j of byte i is the level of pixel 4i + j. */
  lemma PackedFields(raw: seq<bv8>, i: nat)
    requires 8 * i + 8 <= |raw|
    ensures forall j :: 0 <= j < 4 ==> Field(Packed(raw, i, 4), j) == DitheredPixel(raw, 4 * i + j)
  {
    var f0, f1 := DitheredPixel(raw, 4 * i), DitheredPixel(raw, 4 * i + 1);
    var f2, f3 := DitheredPixel(raw, 4 * i + 2), DitheredPixel(raw, 4 * i + 3);
    assert Packed(raw, i, 1) == f0 << 6;
    assert Packed(raw, i, 2) == (f0 << 6) | (f1 << 4);
    assert Packed(raw, i, 3) == (f0 << 6) | (f1 << 4) | (f2 << 2);
    assert Packed(raw, i, 4) == (f0 << 6) | (f1 << 4) | (f2 << 2) | f3;
    SpreadFields(f0, f1, f2, f3);
    forall j | 0 <= j < 4
      ensures Field(Packed(raw, i, 4), j) == DitheredPixel(raw, 4 * i + j)
    {
      if j == 0 {} else if j == 1 {} else if j == 2 {} else {}
    }
  }

  /** One step of the inner loop, with the loop's own indexing `image_data[i * 8 + j * 2]`. */
  lemma PackStep(raw: seq<bv8>, i: nat, j: nat, pixel: bv8)
    requires j < 4 && 8 * i + 8 <= |raw|
    requires pixel == (raw[i * 8 + j * 2] & 0xC) >> 2
    ensures Packed(raw, i, j + 1) == Packed(raw, i, j) | (pixel << (3 - j) * 2)
  {
    assert i * 8 + j * 2 == 2 * (4 * i + j);
  }

  /** What the packer promises: byte i holds pixels 4i .. 4i + 3, first pixel in the top bits. */
  ghost predicate PacksPixels(raw: seq<bv8>, data: seq<bv8>)
    requires 2 * (4 * |data|) <= |raw|
  {
    forall i, j :: 0 <= i < |data| && 0 <= j < 4 ==> Field(data[i], j) == DitheredPixel(raw, 4 * i + j)
  }

  lemma QuarterBound(pixelCount: nat)
    ensures 4 * (pixelCount / 4) <= pixelCount
  {
  }

  /**
   * The packing loop of `thinkink_image` and `send_dithered_image`: the raw
   * view is `width * height * 2` bytes and the result `width * height / 4`.
   */
  method PackDitheredImage(raw: seq<bv8>, width: nat, height: nat) returns (data: seq<bv8>)
    requires |raw| == width * height * 2
    ensures |data| == width * height / 4
    ensures PacksPixels(raw, data)
  {
    var pixelCount := width * height;
    QuarterBound(pixelCount);
    var buffer := new bv8[pixelCount / 4](_ => 0);
    for i := 0 to buffer.Length
      invariant forall k :: 0 <= k < i ==> buffer[k] == Packed(raw, k, 4)
    {
      var byte: bv8 := 0;
      ghost var filled := buffer[..];
      for j := 0 to 4
        invariant buffer[..] == filled
        invariant byte == Packed(raw, i, j)
      {
        var pixel := (raw[i * 8 + j * 2] & 0xC) >> 2;
        PackStep(raw, i, j, pixel);
        byte := byte | (pixel << (3 - j) * 2);
      }
      buffer[i] := byte;
    }
    data := buffer[..];
    forall i, j | 0 <= i < |data| && 0 <= j < 4
      ensures Field(data[i], j) == DitheredPixel(raw, 4 * i + j)
    {
      PackedFields(raw, i);
    }
  }

  lemma ByteFromFields(a: bv8, b: bv8)
    requires forall j :: 0 <= j < 4 ==> Field(a, j) == Field(b, j)
    ensures a == b
  {
    assert Field(a, 0) == Field(b, 0) && Field(a, 1) == Field(b, 1);
    assert Field(a, 2) == Field(b, 2) && Field(a, 3) == Field(b, 3);
  }

  /** Unpacking field k % 4 of byte k / 4 yields pixel k's level. */
  lemma UnpackRoundTrip(raw: seq<bv8>, data: seq<bv8>, k: nat)
    requires 2 * (4 * |data|) <= |raw| && PacksPixels(raw, data)
    requires k < 4 * |data|
    ensures Field(data[k / 4], k % 4) == (raw[2 * k] >> 2) & 3
  {
    assert 4 * (k / 4) + k % 4 == k;
  }

  /** The packed buffer is a function of the pixels: no bit is left unspecified. */
  lemma PackingIsUnique(raw: seq<bv8>, a: seq<bv8>, b: seq<bv8>)
    requires |a| == |b| && 2 * (4 * |a|) <= |raw|
    requires PacksPixels(raw, a) && PacksPixels(raw, b)
    ensures a == b
  {
    forall i | 0 <= i < |a|
      ensures a[i] == b[i]
    {
      ByteFromFields(a[i], b[i]);
    }
  }

  // ---------------------------------------------------------------------
  // displayData chunks
  // ---------------------------------------------------------------------

  const CHUNK_SIZE: nat := 256

  /** `data.chunks(256)`: consecutive slices, all full except possibly the last. */
  function Chunks(data: seq<bv8>): (r: seq<seq<bv8>>)
    ensures forall k :: 0 <= k < |r| ==> 0 < |r[k]| <= CHUNK_SIZE
    ensures forall k :: 0 <= k < |r| - 1 ==> |r[k]| == CHUNK_SIZE
    ensures |r| == (|data| + CHUNK_SIZE - 1) / CHUNK_SIZE
    decreases |data|
  {
    if |data| == 0 then []
    else if |data| <= CHUNK_SIZE then [data]
    else [data[..CHUNK_SIZE]] + Chunks(data[CHUNK_SIZE..])
  }

  function Flatten(chunks: seq<seq<bv8>>): seq<bv8>
  {
    if |chunks| == 0 then [] else chunks[0] + Flatten(chunks[1..])
  }

  /** The chunks, concatenated in order, are the packed buffer. */
  lemma {:induction false} ChunksConcatenate(data: seq<bv8>)
    ensures Flatten(Chunks(data)) == data
    decreases |data|
  {
    if |data| > CHUNK_SIZE {
      var rest := Chunks(data[CHUNK_SIZE..]);
      assert Chunks(data)[1..] == rest;
      ChunksConcatenate(data[CHUNK_SIZE..]);
      assert data == data[..CHUNK_SIZE] + data[CHUNK_SIZE..];
    }
  }

  /** Chunk k is the slice starting at byte offset 256 k. */
  lemma {:induction false} ChunkAt(data: seq<bv8>, k: nat)
    requires k < |Chunks(data)|
    ensures CHUNK_SIZE * k < |data|
    ensures Chunks(data)[k] == data[CHUNK_SIZE * k .. if CHUNK_SIZE * k + CHUNK_SIZE <= |data| then CHUNK_SIZE * k + CHUNK_SIZE else |data|]
    decreases k
  {
    if k > 0 {
      ChunkAt(data[CHUNK_SIZE..], k - 1);
      assert Chunks(data)[k] == Chunks(data[CHUNK_SIZE..])[k - 1];
    }
  }

  /** `{"kind": "displayData", "offset": offset, "data": encoded}`. */
  function DisplayData(offset: nat, encoded: string): (r: Json)
    ensures r.JObject? && |r.fields| == 3 && r.fields[0] == ("kind", JString("displayData"))
    ensures r != REFRESH_DISPLAY
  {
    JObject([("kind", JString("displayData")), ("offset", JNumber(offset)), ("data", JString(encoded))])
  }

  lemma DisplayDataFields(offset: nat, encoded: string)
    ensures KindOf(DisplayData(offset, encoded)) == Some("displayData")
    ensures AsStr(Get(DisplayData(offset, encoded), "data")) == Some(encoded)
    ensures AsI64(Get(DisplayData(offset, encoded), "offset")).Some? ==>
      AsI64(Get(DisplayData(offset, encoded), "offset")).value == offset
  {
    var fields := DisplayData(offset, encoded).fields;
    assert "kind" != "data" && "offset" != "data" && "kind" != "offset";
    LookupFirst(fields, "kind", 0);
    LookupFirst(fields, "offset", 1);
    LookupFirst(fields, "data", 2);
  }

  const REFRESH_DISPLAY: Json := KindOnly("refreshDisplay")

  /**
   * Every message the image path sends, in order, with Base64 encoding as
   * a parameter: one `displayData` per chunk, then `refreshDisplay`.
   */
  function ImageMessages(data: seq<bv8>, base64: seq<bv8> -> string): (r: seq<Json>)
    ensures |r| == |Chunks(data)| + 1
    ensures r[|r| - 1] == REFRESH_DISPLAY
    ensures forall k :: 0 <= k < |Chunks(data)| ==> r[k] == DisplayData(CHUNK_SIZE * k, base64(Chunks(data)[k]))
  {
    var chunks := Chunks(data);
    seq(|chunks|, k requires 0 <= k < |chunks| => DisplayData(CHUNK_SIZE * k, base64(chunks[k]))) + [REFRESH_DISPLAY]
  }

  /** Only the final message is `refreshDisplay`: it is sent exactly once. */
  lemma RefreshSentOnce(data: seq<bv8>, base64: seq<bv8> -> string, k: nat)
    requires k < |ImageMessages(data, base64)|
    ensures ImageMessages(data, base64)[k] == REFRESH_DISPLAY <==> k == |Chunks(data)|
  {
  }

  /** The `data` payloads decoded in order reassemble the packed buffer. */
  function DecodedPayloads(messages: seq<Json>, decode: string -> seq<bv8>): seq<seq<bv8>>
  {
    if |messages| == 0 then []
    else if messages[0].JObject? && KindOf(messages[0]) == Some("displayData") && AsStr(Get(messages[0], "data")).Some? then
      [decode(AsStr(Get(messages[0], "data")).value)] + DecodedPayloads(messages[1..], decode)
    else DecodedPayloads(messages[1..], decode)
  }

  /** A receiver that Base64-decodes every `displayData` recovers exactly the packed image. */
  lemma ImageMessagesRoundTrip(data: seq<bv8>, base64: seq<bv8> -> string, decode: string -> seq<bv8>)
    requires forall c :: decode(base64(c)) == c
    ensures Flatten(DecodedPayloads(ImageMessages(data, base64), decode)) == data
  {
    var chunks := Chunks(data);
    var msgs := ImageMessages(data, base64);
    PayloadsOfChunks(chunks, base64, decode, msgs, 0);
    assert msgs[|chunks|..] == [REFRESH_DISPLAY];
    assert chunks[0..] == chunks;
    ChunksConcatenate(data);
  }

  lemma {:induction false} PayloadsOfChunks(chunks: seq<seq<bv8>>, base64: seq<bv8> -> string,
                                            decode: string -> seq<bv8>, msgs: seq<Json>, from: nat)
    requires forall c :: decode(base64(c)) == c
    requires from <= |chunks| && |chunks| + 1 == |msgs|
    requires forall k :: 0 <= k < |chunks| ==> msgs[k] == DisplayData(CHUNK_SIZE * k, base64(chunks[k]))
    requires msgs[|chunks|] == REFRESH_DISPLAY
    ensures DecodedPayloads(msgs[from..], decode) == chunks[from..]
    decreases |chunks| - from
  {
    if from == |chunks| {
      KindOnlyHasKind("refreshDisplay");
      assert msgs[from..] == [REFRESH_DISPLAY];
      assert msgs[from..][1..] == [];
    } else {
      var m := msgs[from];
      DisplayDataFields(CHUNK_SIZE * from, base64(chunks[from]));
      assert decode(AsStr(Get(m, "data")).value) == chunks[from];
      assert msgs[from..][0] == m && msgs[from..][1..] == msgs[from + 1..];
      PayloadsOfChunks(chunks, base64, decode, msgs, from + 1);
      SuffixSplits(chunks, from);
    }
  }

  // ---------------------------------------------------------------------
  // Other display messages
  // ---------------------------------------------------------------------

  /** `{"kind": "light", "targetValue": target, "speed": speed}`. */
  function LightMessage(targetValue: nat, speed: nat): (r: Json)
    ensures KindOf(r) == Some("light")
    ensures Get(r, "targetValue") == JNumber(targetValue) && Get(r, "speed") == JNumber(speed)
  {
    var r := JObject([("kind", JString("light")), ("targetValue", JNumber(targetValue)), ("speed", JNumber(speed))]);
    LookupFirst(r.fields, "kind", 0);
    LookupFirst(r.fields, "targetValue", 1);
    LookupFirst(r.fields, "speed", 2);
    r
  }

  /** `{"kind": "adjustAnimationTime", "minutes": minutes}`. */
  function AdjustAnimationTime(minutes: int): (r: Json)
    ensures KindOf(r) == Some("adjustAnimationTime")
    ensures Get(r, "minutes") == JNumber(minutes)
  {
    var r := JObject([("kind", JString("adjustAnimationTime")), ("minutes", JNumber(minutes))]);
    LookupFirst(r.fields, "kind", 0);
    LookupFirst(r.fields, "minutes", 1);
    r
  }
}
