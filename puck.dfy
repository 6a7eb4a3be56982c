/**
 * The puck display: a 296 x 128 four-level image sent as two bit planes.
 * `convert_to_puck_image` walks the dithered raw image eight pixels at a
 * time and ORs bit 1 of each grey level into a byte of the first plane and
 * bit 0 into a byte of the second plane, most significant bit first.
 */
module Puck {
  import opened Common
  import opened Dither

  const IMAGE_WIDTH: nat := 296
  const IMAGE_HEIGHT: nat := 128
  const IMAGE_PIXEL_COUNT: nat := 37888
  const DITHERED_IMAGE_DATA_LENGTH: nat := 75776
  const PUCK_IMAGE_DATA_LENGTH: nat := 9472
  /** Bytes per plane: the loop bound `PUCK_IMAGE_DATA_LENGTH / 2`. */
  const PLANE_LENGTH: nat := 4736

  /** The constants are the source's own products and quotients. */
  lemma Sizes()
    ensures IMAGE_PIXEL_COUNT == IMAGE_WIDTH * IMAGE_HEIGHT
    ensures DITHERED_IMAGE_DATA_LENGTH == IMAGE_PIXEL_COUNT * 2
    ensures PUCK_IMAGE_DATA_LENGTH == DITHERED_IMAGE_DATA_LENGTH / 8
    ensures PLANE_LENGTH == PUCK_IMAGE_DATA_LENGTH / 2
    ensures PUCK_IMAGE_DATA_LENGTH == 2 * PLANE_LENGTH
    ensures 8 * PLANE_LENGTH == IMAGE_PIXEL_COUNT
  {
  }

  /** Bit `7 - j` of a packed byte: the bit that holds the j-th pixel of the byte. */
  function PlaneBit(b: bv8, j: nat): (r: bv8)
    requires j < 8
    ensures r <= 1
  {
    (b >> (7 - j)) & 1
  }

  /**
   * The value of `low_byte` (bit = 1) or `high_byte` (bit = 0) after the
   * first j steps of the inner loop for output byte i.
   */
  function Gathered(raw: seq<bv8>, i: nat, j: nat, bit: nat): bv8
    requires j <= 8 && bit < 2 && 16 * i + 16 <= |raw|
  {
    if j == 0 then 0
    else Gathered(raw, i, j - 1, bit) | (LevelBit(DitheredPixel(raw, 8 * i + j - 1), bit) << (7 - (j - 1)))
  }

  /** One step of the inner loop, with the loop's own indexing `raw[i * 16 + j * 2]`. */
  lemma GatherStep(raw: seq<bv8>, i: nat, j: nat, pixel: bv8)
    requires j < 8 && 16 * i + 16 <= |raw|
    requires pixel == (raw[i * 16 + j * 2] & 0xC) >> 2
    ensures Gathered(raw, i, j + 1, 1) == Gathered(raw, i, j, 1) | (((pixel & 2) >> 1) << (7 - j))
    ensures Gathered(raw, i, j + 1, 0) == Gathered(raw, i, j, 0) | ((pixel & 1) << (7 - j))
  {
    assert i * 16 + j * 2 == 2 * (8 * i + j);
  }

  lemma SpreadBits(b0: bv8, b1: bv8, b2: bv8, b3: bv8, b4: bv8, b5: bv8, b6: bv8, b7: bv8)
    requires b0 <= 1 && b1 <= 1 && b2 <= 1 && b3 <= 1 && b4 <= 1 && b5 <= 1 && b6 <= 1 && b7 <= 1
    ensures var x := (b0 << 7) | (b1 << 6) | (b2 << 5) | (b3 << 4) | (b4 << 3) | (b5 << 2) | (b6 << 1) | b7;
      PlaneBit(x, 0) == b0 && PlaneBit(x, 1) == b1 && PlaneBit(x, 2) == b2 && PlaneBit(x, 3) == b3 &&
      PlaneBit(x, 4) == b4 && PlaneBit(x, 5) == b5 && PlaneBit(x, 6) == b6 && PlaneBit(x, 7) == b7
  {
  }

  /** After the eight steps, bit 7 - j of the byte is the chosen bit of pixel 8i + j. */
  lemma GatheredBits(raw: seq<bv8>, i: nat, bit: nat)
    requires bit < 2 && 16 * i + 16 <= |raw|
    ensures forall j :: 0 <= j < 8 ==>
      PlaneBit(Gathered(raw, i, 8, bit), j) == LevelBit(DitheredPixel(raw, 8 * i + j), bit)
  {
    var b0, b1 := LevelBit(DitheredPixel(raw, 8 * i), bit), LevelBit(DitheredPixel(raw, 8 * i + 1), bit);
    var b2, b3 := LevelBit(DitheredPixel(raw, 8 * i + 2), bit), LevelBit(DitheredPixel(raw, 8 * i + 3), bit);
    var b4, b5 := LevelBit(DitheredPixel(raw, 8 * i + 4), bit), LevelBit(DitheredPixel(raw, 8 * i + 5), bit);
    var b6, b7 := LevelBit(DitheredPixel(raw, 8 * i + 6), bit), LevelBit(DitheredPixel(raw, 8 * i + 7), bit);
    assert Gathered(raw, i, 1, bit) == b0 << 7;
    assert Gathered(raw, i, 2, bit) == (b0 << 7) | (b1 << 6);
    assert Gathered(raw, i, 3, bit) == (b0 << 7) | (b1 << 6) | (b2 << 5);
    assert Gathered(raw, i, 4, bit) == (b0 << 7) | (b1 << 6) | (b2 << 5) | (b3 << 4);
    assert Gathered(raw, i, 5, bit) == (b0 << 7) | (b1 << 6) | (b2 << 5) | (b3 << 4) | (b4 << 3);
    assert Gathered(raw, i, 6, bit) == (b0 << 7) | (b1 << 6) | (b2 << 5) | (b3 << 4) | (b4 << 3) | (b5 << 2);
    assert Gathered(raw, i, 7, bit) == (b0 << 7) | (b1 << 6) | (b2 << 5) | (b3 << 4) | (b4 << 3) | (b5 << 2) | (b6 << 1);
    assert Gathered(raw, i, 8, bit) == (b0 << 7) | (b1 << 6) | (b2 << 5) | (b3 << 4) | (b4 << 3) | (b5 << 2) | (b6 << 1) | b7;
    SpreadBits(b0, b1, b2, b3, b4, b5, b6, b7);
    forall j | 0 <= j < 8
      ensures PlaneBit(Gathered(raw, i, 8, bit), j) == LevelBit(DitheredPixel(raw, 8 * i + j), bit)
    {
      if j == 0 {} else if j == 1 {} else if j == 2 {} else if j == 3 {}
      else if j == 4 {} else if j == 5 {} else if j == 6 {} else {}
    }
  }

  /**
   * What the packer promises for one plane: byte i carries the given bit of
   * pixels 8i .. 8i + 7, pixel 8i + j at bit 7 - j.
   */
  ghost function Plane(raw: seq<bv8>, plane: seq<bv8>, bit: nat): (holds: bool)
    requires |raw| == DITHERED_IMAGE_DATA_LENGTH && |plane| == PLANE_LENGTH && bit < 2
    ensures holds <==> forall i :: 0 <= i < PLANE_LENGTH ==> plane[i] == Gathered(raw, i, 8, bit)
  {
    var holds := forall i, j :: 0 <= i < PLANE_LENGTH && 0 <= j < 8 ==>
      PlaneBit(plane[i], j) == LevelBit(DitheredPixel(raw, 8 * i + j), bit);
    assert holds <==> forall i :: 0 <= i < PLANE_LENGTH ==> plane[i] == Gathered(raw, i, 8, bit) by {
      if holds {
        forall i | 0 <= i < PLANE_LENGTH
          ensures plane[i] == Gathered(raw, i, 8, bit)
        {
          GatheredBits(raw, i, bit);
          ByteFromPlaneBits(plane[i], Gathered(raw, i, 8, bit));
        }
      }
      if forall i :: 0 <= i < PLANE_LENGTH ==> plane[i] == Gathered(raw, i, 8, bit) {
        forall i, j | 0 <= i < PLANE_LENGTH && 0 <= j < 8
          ensures PlaneBit(plane[i], j) == LevelBit(DitheredPixel(raw, 8 * i + j), bit)
        {
          GatheredBits(raw, i, bit);
        }
      }
    }
    holds
  }

  /** The first plane holds bit 1 of every level, the second plane bit 0. */
  ghost function Planes(raw: seq<bv8>, data: seq<bv8>): (holds: bool)
    requires |raw| == DITHERED_IMAGE_DATA_LENGTH && |data| == PUCK_IMAGE_DATA_LENGTH
    ensures holds <==>
      (forall i :: 0 <= i < PLANE_LENGTH ==> data[i] == Gathered(raw, i, 8, 1)) &&
      (forall k :: PLANE_LENGTH <= k < PUCK_IMAGE_DATA_LENGTH ==> data[k] == Gathered(raw, k - PLANE_LENGTH, 8, 0))
  {
    var first, second := data[..PLANE_LENGTH], data[PLANE_LENGTH..];
    assert forall i :: 0 <= i < PLANE_LENGTH ==> first[i] == data[i];
    assert forall k :: PLANE_LENGTH <= k < PUCK_IMAGE_DATA_LENGTH ==> second[k - PLANE_LENGTH] == data[k];
    Plane(raw, first, 1) && Plane(raw, second, 0)
  }

  /** `convert_to_puck_image`. */
  method ConvertToPuckImage(raw: seq<bv8>) returns (data: seq<bv8>)
    requires |raw| == DITHERED_IMAGE_DATA_LENGTH
    ensures |data| == PUCK_IMAGE_DATA_LENGTH
    ensures Planes(raw, data)
  {
    var transfer := new bv8[PUCK_IMAGE_DATA_LENGTH](_ => 0);
    for i := 0 to PLANE_LENGTH
      invariant forall k :: 0 <= k < i ==> transfer[k] == Gathered(raw, k, 8, 1)
      invariant forall k :: 0 <= k < i ==> transfer[k + PLANE_LENGTH] == Gathered(raw, k, 8, 0)
    {
      var lowByte, highByte := GatherByte(raw, i);
      transfer[i] := lowByte;
      transfer[i + PLANE_LENGTH] := highByte;
    }
    data := transfer[..];
    PackedPlane(raw, data[..PLANE_LENGTH], 1);
    PackedPlane(raw, data[PLANE_LENGTH..], 0);
  }

  /** The inner loop: the eight pixels of output byte `i`, one bit per pixel in each plane. */
  method GatherByte(raw: seq<bv8>, i: nat) returns (lowByte: bv8, highByte: bv8)
    requires |raw| == DITHERED_IMAGE_DATA_LENGTH && i < PLANE_LENGTH
    ensures lowByte == Gathered(raw, i, 8, 1) && highByte == Gathered(raw, i, 8, 0)
  {
    lowByte, highByte := 0, 0;
    for j := 0 to 8
      invariant lowByte == Gathered(raw, i, j, 1) && highByte == Gathered(raw, i, j, 0)
    {
      var pixel := (raw[i * 16 + j * 2] & 0xC) >> 2;
      GatherStep(raw, i, j, pixel);
      lowByte := lowByte | (((pixel & 2) >> 1) << (7 - j));
      highByte := highByte | ((pixel & 1) << (7 - j));
    }
  }

  lemma PackedPlane(raw: seq<bv8>, plane: seq<bv8>, bit: nat)
    requires |raw| == DITHERED_IMAGE_DATA_LENGTH && |plane| == PLANE_LENGTH && bit < 2
    requires forall i :: 0 <= i < PLANE_LENGTH ==> plane[i] == Gathered(raw, i, 8, bit)
    ensures Plane(raw, plane, bit)
  {
    forall i, j | 0 <= i < PLANE_LENGTH && 0 <= j < 8
      ensures PlaneBit(plane[i], j) == LevelBit(DitheredPixel(raw, 8 * i + j), bit)
    {
      GatheredBits(raw, i, bit);
    }
  }

  /** Every pixel's grey level can be read back from the two planes. */
  lemma PlanesRoundTrip(raw: seq<bv8>, data: seq<bv8>, k: nat)
    requires |raw| == DITHERED_IMAGE_DATA_LENGTH && |data| == PUCK_IMAGE_DATA_LENGTH
    requires Planes(raw, data)
    requires k < IMAGE_PIXEL_COUNT
    ensures 2 * PlaneBit(data[k / 8], k % 8) + PlaneBit(data[PLANE_LENGTH + k / 8], k % 8) == DitheredPixel(raw, k)
  {
    var i, j := k / 8, k % 8;
    assert 8 * i + j == k;
    LevelFromBits(DitheredPixel(raw, k));
  }

  lemma ByteFromPlaneBits(a: bv8, b: bv8)
    requires forall j :: 0 <= j < 8 ==> PlaneBit(a, j) == PlaneBit(b, j)
    ensures a == b
  {
    assert PlaneBit(a, 0) == PlaneBit(b, 0) && PlaneBit(a, 1) == PlaneBit(b, 1);
    assert PlaneBit(a, 2) == PlaneBit(b, 2) && PlaneBit(a, 3) == PlaneBit(b, 3);
    assert PlaneBit(a, 4) == PlaneBit(b, 4) && PlaneBit(a, 5) == PlaneBit(b, 5);
    assert PlaneBit(a, 6) == PlaneBit(b, 6) && PlaneBit(a, 7) == PlaneBit(b, 7);
  }

  /** The planes fix every output bit: the packed image is a function of the pixels. */
  lemma PlanesDetermineImage(raw: seq<bv8>, a: seq<bv8>, b: seq<bv8>)
    requires |raw| == DITHERED_IMAGE_DATA_LENGTH
    requires |a| == PUCK_IMAGE_DATA_LENGTH && |b| == PUCK_IMAGE_DATA_LENGTH
    requires Planes(raw, a) && Planes(raw, b)
    ensures a == b
  {
    PlaneDeterminesBytes(raw, a[..PLANE_LENGTH], b[..PLANE_LENGTH], 1);
    PlaneDeterminesBytes(raw, a[PLANE_LENGTH..], b[PLANE_LENGTH..], 0);
    assert a == a[..PLANE_LENGTH] + a[PLANE_LENGTH..];
    assert b == b[..PLANE_LENGTH] + b[PLANE_LENGTH..];
  }

  lemma PlaneDeterminesBytes(raw: seq<bv8>, p: seq<bv8>, q: seq<bv8>, bit: nat)
    requires |raw| == DITHERED_IMAGE_DATA_LENGTH && |p| == PLANE_LENGTH && |q| == PLANE_LENGTH && bit < 2
    requires Plane(raw, p, bit) && Plane(raw, q, bit)
    ensures p == q
  {
    forall i | 0 <= i < PLANE_LENGTH
      ensures p[i] == q[i]
    {
      ByteFromPlaneBits(p[i], q[i]);
    }
  }

  datatype DrawOutcome =
    | Kept
      /** The image was regenerated and its packed form handed to the API client. */
    | Redrawn(puckImage: seq<bv8>)
      /** `unwrap()` of a date that `update` has not set yet. */
    | Panicked

  /** The date-tracking state of the `Puck` struct. */
  class PuckScreen {
    var currentDateString: Option<string>
    var lastDateString: Option<string>
    var frameTimeSinceLastCheck: Option<real>

    /** `init`: no date seen, nothing drawn. */
    constructor()
      ensures currentDateString == None && lastDateString == None
      ensures frameTimeSinceLastCheck == None
    {
      currentDateString := None;
      lastDateString := None;
      frameTimeSinceLastCheck := None;
    }

    /**
     * `update`: refresh the date text on the first frame and on every frame
     * once more than 60 seconds of frame time have accumulated (the counter
     * is never reset), then add this frame's time.
     */
    method Update(today: string, frameTime: real)
      modifies this
      ensures old(frameTimeSinceLastCheck).None? || old(frameTimeSinceLastCheck).value > 60.0 ==>
        currentDateString == Some(today)
      ensures old(frameTimeSinceLastCheck).Some? && old(frameTimeSinceLastCheck).value <= 60.0 ==>
        currentDateString == old(currentDateString)
      ensures frameTimeSinceLastCheck ==
        Some((if old(frameTimeSinceLastCheck).Some? then old(frameTimeSinceLastCheck).value else 0.0) + frameTime)
      ensures lastDateString == old(lastDateString)
    {
      if frameTimeSinceLastCheck.None? || frameTimeSinceLastCheck.value > 60.0 {
        currentDateString := Some(today);
      }
      var elapsed := if frameTimeSinceLastCheck.Some? then frameTimeSinceLastCheck.value else 0.0;
      frameTimeSinceLastCheck := Some(elapsed + frameTime);
    }

    /**
     * `draw` on the Pi: when the gate opens, remember the date and send the
     * packed bit planes of the freshly dithered image.
     */
    method Draw(keyTwoPressed: bool, dithered: seq<bv8>) returns (outcome: DrawOutcome)
      requires |dithered| == DITHERED_IMAGE_DATA_LENGTH
      modifies this
      ensures currentDateString == old(currentDateString) && frameTimeSinceLastCheck == old(frameTimeSinceLastCheck)
      ensures old(currentDateString).None? <==> outcome.Panicked?
      ensures old(currentDateString).Some? ==>
        (outcome.Redrawn? <==> Redraws(old(lastDateString), old(currentDateString).value, keyTwoPressed))
      ensures outcome.Redrawn? ==>
        lastDateString == currentDateString &&
        |outcome.puckImage| == PUCK_IMAGE_DATA_LENGTH && Planes(dithered, outcome.puckImage)
      ensures outcome.Kept? ==> lastDateString == old(lastDateString)
    {
      if currentDateString.None? {
        return Panicked;
      }
      if Redraws(lastDateString, currentDateString.value, keyTwoPressed) {
        lastDateString := currentDateString;
        var packed := ConvertToPuckImage(dithered);
        outcome := Redrawn(packed);
      } else {
        outcome := Kept;
      }
    }
  }
}
