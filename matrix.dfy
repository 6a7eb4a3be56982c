/**
 * The 13x9 RGB LED matrix driver: how a rendered frame becomes the
 * 352-byte register image sent to the LED controller over I2C, and the
 * flags that decide when the driver is switched on or off and when a
 * frame is sent.
 *
 * Each of the 117 pixels drives three LEDs. The wiring map turns a pixel
 * (x, y) and a channel into one of the 351 LED register addresses; the
 * frame is rotated by 180 degrees, scaled by alpha, corrected by a gamma
 * table and written in two pages.
 */
module Matrix {
  import opened Common

  const MATRIX_ADDRESS: int := 0x30
  const WIDTH: nat := 13
  const HEIGHT: nat := 9
  /** 117 pixels of three LEDs each. */
  const LED_COUNT: nat := 351
  /** One leading register byte, then one byte per LED. */
  const FRAME_SIZE: nat := 352

  // ---------------------------------------------------------------------
  // Gamma table
  // ---------------------------------------------------------------------

  predicate NonDecreasing(s: seq<int>)
  {
    forall i, j :: 0 <= i <= j < |s| ==> s[i] <= s[j]
  }

  /** Row r of `LED_GAMMA`: entries 16 * r to 16 * r + 15. */
  function GammaRow(r: nat): (row: seq<int>)
    requires r < 16
    ensures |row| == 16
  {
    match r
      case 0 => [0, 0, 0, 0, 0, 0, 0, 0, 0, 0, 0, 0, 0, 0, 0, 0]
      case 1 => [0, 0, 0, 0, 0, 0, 1, 1, 1, 1, 1, 1, 1, 2, 2, 2]
      case 2 => [2, 2, 2, 3, 3, 3, 3, 3, 4, 4, 4, 4, 5, 5, 5, 5]
      case 3 => [6, 6, 6, 7, 7, 7, 8, 8, 8, 9, 9, 9, 10, 10, 11, 11]
      case 4 => [11, 12, 12, 13, 13, 13, 14, 14, 15, 15, 16, 16, 17, 17, 18, 18]
      case 5 => [19, 19, 20, 21, 21, 22, 22, 23, 23, 24, 25, 25, 26, 27, 27, 28]
      case 6 => [29, 29, 30, 31, 31, 32, 33, 34, 34, 35, 36, 37, 37, 38, 39, 40]
      case 7 => [40, 41, 42, 43, 44, 45, 46, 46, 47, 48, 49, 50, 51, 52, 53, 54]
      case 8 => [55, 56, 57, 58, 59, 60, 61, 62, 63, 64, 65, 66, 67, 68, 69, 70]
      case 9 => [71, 72, 73, 74, 76, 77, 78, 79, 80, 81, 83, 84, 85, 86, 88, 89]
      case 10 => [90, 91, 93, 94, 95, 96, 98, 99, 100, 102, 103, 104, 106, 107, 109, 110]
      case 11 => [111, 113, 114, 116, 117, 119, 120, 121, 123, 124, 126, 128, 129, 131, 132, 134]
      case 12 => [135, 137, 138, 140, 142, 143, 145, 146, 148, 150, 151, 153, 155, 157, 158, 160]
      case 13 => [162, 163, 165, 167, 169, 170, 172, 174, 176, 178, 179, 181, 183, 185, 187, 189]
      case 14 => [191, 193, 194, 196, 198, 200, 202, 204, 206, 208, 210, 212, 214, 216, 218, 220]
      case _ => [222, 224, 227, 229, 231, 233, 235, 237, 239, 241, 244, 246, 248, 250, 252, 255]
  }

  /** A table given row by row: sixteen rows of sixteen entries. */
  ghost predicate SixteenBySixteen(row: nat --> seq<int>)
  {
    forall r :: r < 16 ==> row.requires(r) && |row(r)| == 16
  }

  /** The first n rows of such a table, in order. */
  function Rows(row: nat --> seq<int>, n: nat): (t: seq<int>)
    requires n <= 16 && SixteenBySixteen(row)
    ensures |t| == 16 * n
  {
    if n == 0 then [] else Rows(row, n - 1) + row(n - 1)
  }

  /** Entry i of the first n rows lies in row i / 16, at column i % 16. */
  lemma {:induction false} RowsAt(row: nat --> seq<int>, n: nat, i: nat)
    requires n <= 16 && SixteenBySixteen(row) && i < 16 * n
    ensures Rows(row, n)[i] == row(i / 16)[i % 16]
  {
    if i < 16 * (n - 1) {
      RowsAt(row, n - 1, i);
    } else {
      DivMod16(n - 1, i - 16 * (n - 1));
    }
  }

  lemma DivMod16(q: nat, r: nat)
    requires r < 16
    ensures (16 * q + r) / 16 == q && (16 * q + r) % 16 == r
  {
  }

  lemma GammaRowsShape()
    ensures SixteenBySixteen(GammaRow)
  {
  }

  /** The first n rows of `LED_GAMMA`. */
  function GammaRows(n: nat): (t: seq<int>)
    requires n <= 16
    ensures |t| == 16 * n
  {
    GammaRowsShape();
    Rows(GammaRow, n)
  }

  const LED_GAMMA: seq<int> := GammaRows(16)

  /** Entry i of the first n rows of `LED_GAMMA` lies in row i / 16, at column i % 16. */
  lemma GammaRowsAt(n: nat, i: nat)
    requires n <= 16 && i < 16 * n
    ensures GammaRows(n)[i] == GammaRow(i / 16)[i % 16]
  {
    GammaRowsShape();
    RowsAt(GammaRow, n, i);
  }

  /** Each row is sorted and starts no lower than the row before it ends. */
  lemma GammaRowSorted(r: nat)
    requires r < 16
    ensures forall k :: 0 <= k < 15 ==> GammaRow(r)[k] <= GammaRow(r)[k + 1]
    ensures r > 0 ==> GammaRow(r - 1)[15] <= GammaRow(r)[0]
  {
    if r < 8 {
      GammaLowRowSorted(r);
    } else {
      GammaHighRowSorted(r);
    }
  }

  /** `GammaRowSorted` for rows 0 to 7. */
  lemma GammaLowRowSorted(r: nat)
    requires 0 <= r < 8
    ensures forall k :: 0 <= k < 15 ==> GammaRow(r)[k] <= GammaRow(r)[k + 1]
    ensures r > 0 ==> GammaRow(r - 1)[15] <= GammaRow(r)[0]
  {
    match r
      case 0 => GammaRow0Sorted();
      case 1 => GammaRow1Sorted();
      case 2 => GammaRow2Sorted();
      case 3 => GammaRow3Sorted();
      case 4 => GammaRow4Sorted();
      case 5 => GammaRow5Sorted();
      case 6 => GammaRow6Sorted();
      case _ => GammaRow7Sorted();
  }

  /** `GammaRowSorted` for rows 8 to 15. */
  lemma GammaHighRowSorted(r: nat)
    requires 8 <= r < 16
    ensures forall k :: 0 <= k < 15 ==> GammaRow(r)[k] <= GammaRow(r)[k + 1]
    ensures r > 0 ==> GammaRow(r - 1)[15] <= GammaRow(r)[0]
  {
    match r
      case 8 => GammaRow8Sorted();
      case 9 => GammaRow9Sorted();
      case 10 => GammaRow10Sorted();
      case 11 => GammaRow11Sorted();
      case 12 => GammaRow12Sorted();
      case 13 => GammaRow13Sorted();
      case 14 => GammaRow14Sorted();
      case _ => GammaRow15Sorted();
  }

  lemma GammaRow0Sorted()
    ensures forall k :: 0 <= k < 15 ==> GammaRow(0)[k] <= GammaRow(0)[k + 1]
  {
  }

  lemma GammaRow1Sorted()
    ensures forall k :: 0 <= k < 15 ==> GammaRow(1)[k] <= GammaRow(1)[k + 1]
    ensures GammaRow(0)[15] <= GammaRow(1)[0]
  {
  }

  lemma GammaRow2Sorted()
    ensures forall k :: 0 <= k < 15 ==> GammaRow(2)[k] <= GammaRow(2)[k + 1]
    ensures GammaRow(1)[15] <= GammaRow(2)[0]
  {
  }

  lemma GammaRow3Sorted()
    ensures forall k :: 0 <= k < 15 ==> GammaRow(3)[k] <= GammaRow(3)[k + 1]
    ensures GammaRow(2)[15] <= GammaRow(3)[0]
  {
  }

  lemma GammaRow4Sorted()
    ensures forall k :: 0 <= k < 15 ==> GammaRow(4)[k] <= GammaRow(4)[k + 1]
    ensures GammaRow(3)[15] <= GammaRow(4)[0]
  {
  }

  lemma GammaRow5Sorted()
    ensures forall k :: 0 <= k < 15 ==> GammaRow(5)[k] <= GammaRow(5)[k + 1]
    ensures GammaRow(4)[15] <= GammaRow(5)[0]
  {
  }

  lemma GammaRow6Sorted()
    ensures forall k :: 0 <= k < 15 ==> GammaRow(6)[k] <= GammaRow(6)[k + 1]
    ensures GammaRow(5)[15] <= GammaRow(6)[0]
  {
  }

  lemma GammaRow7Sorted()
    ensures forall k :: 0 <= k < 15 ==> GammaRow(7)[k] <= GammaRow(7)[k + 1]
    ensures GammaRow(6)[15] <= GammaRow(7)[0]
  {
  }

  lemma GammaRow8Sorted()
    ensures forall k :: 0 <= k < 15 ==> GammaRow(8)[k] <= GammaRow(8)[k + 1]
    ensures GammaRow(7)[15] <= GammaRow(8)[0]
  {
  }

  lemma GammaRow9Sorted()
    ensures forall k :: 0 <= k < 15 ==> GammaRow(9)[k] <= GammaRow(9)[k + 1]
    ensures GammaRow(8)[15] <= GammaRow(9)[0]
  {
  }

  lemma GammaRow10Sorted()
    ensures forall k :: 0 <= k < 15 ==> GammaRow(10)[k] <= GammaRow(10)[k + 1]
    ensures GammaRow(9)[15] <= GammaRow(10)[0]
  {
  }

  lemma GammaRow11Sorted()
    ensures forall k :: 0 <= k < 15 ==> GammaRow(11)[k] <= GammaRow(11)[k + 1]
    ensures GammaRow(10)[15] <= GammaRow(11)[0]
  {
  }

  lemma GammaRow12Sorted()
    ensures forall k :: 0 <= k < 15 ==> GammaRow(12)[k] <= GammaRow(12)[k + 1]
    ensures GammaRow(11)[15] <= GammaRow(12)[0]
  {
  }

  lemma GammaRow13Sorted()
    ensures forall k :: 0 <= k < 15 ==> GammaRow(13)[k] <= GammaRow(13)[k + 1]
    ensures GammaRow(12)[15] <= GammaRow(13)[0]
  {
  }

  lemma GammaRow14Sorted()
    ensures forall k :: 0 <= k < 15 ==> GammaRow(14)[k] <= GammaRow(14)[k + 1]
    ensures GammaRow(13)[15] <= GammaRow(14)[0]
  {
  }

  lemma GammaRow15Sorted()
    ensures forall k :: 0 <= k < 15 ==> GammaRow(15)[k] <= GammaRow(15)[k + 1]
    ensures GammaRow(14)[15] <= GammaRow(15)[0]
  {
  }

  /** A sequence whose neighbours are in order never decreases. */
  lemma {:induction false} StepsNonDecreasing(s: seq<int>)
    requires forall k :: 0 <= k < |s| - 1 ==> s[k] <= s[k + 1]
    ensures NonDecreasing(s)
  {
    if |s| > 1 {
      StepsNonDecreasing(s[..|s| - 1]);
      forall i, j | 0 <= i <= j < |s| ensures s[i] <= s[j] {
        if j == |s| - 1 && i < j {
          assert s[..|s| - 1][i] <= s[..|s| - 1][j - 1];
        } else if j < |s| - 1 {
          assert s[..|s| - 1][i] <= s[..|s| - 1][j];
        }
      }
    }
  }

  lemma AppendNonDecreasing(a: seq<int>, b: seq<int>)
    requires |a| > 0 && |b| > 0 && NonDecreasing(a) && NonDecreasing(b) && a[|a| - 1] <= b[0]
    ensures NonDecreasing(a + b)
  {
    forall i, j | 0 <= i <= j < |a + b| ensures (a + b)[i] <= (a + b)[j] {
      if i < |a| <= j {
        assert a[i] <= a[|a| - 1];
        assert b[0] <= b[j - |a|];
      }
    }
  }

  /** The first n rows never decrease and end with the last entry of row n - 1. */
  lemma {:induction false} GammaRowsSorted(n: nat)
    requires 0 < n <= 16
    ensures NonDecreasing(GammaRows(n)) && GammaRows(n)[16 * n - 1] == GammaRow(n - 1)[15]
  {
    GammaRowSorted(n - 1);
    StepsNonDecreasing(GammaRow(n - 1));
    if n > 1 {
      GammaRowsSorted(n - 1);
      AppendNonDecreasing(GammaRows(n - 1), GammaRow(n - 1));
    } else {
      assert GammaRows(1) == GammaRow(0);
    }
  }

  /** `LED_GAMMA` has 256 entries, never decreases, and maps 0 to 0 and 255 to 255. */
  lemma GammaShape()
    ensures |LED_GAMMA| == 256 && NonDecreasing(LED_GAMMA)
    ensures LED_GAMMA[0] == 0 && LED_GAMMA[255] == 255
  {
    GammaRowsSorted(16);
    GammaRowsAt(16, 0);
  }

  /** Every table entry is a byte value. */
  lemma GammaInByteRange()
    ensures |LED_GAMMA| == 256
    ensures forall i :: 0 <= i < 256 ==> 0 <= LED_GAMMA[i] <= 255
  {
    GammaShape();
  }

  /** `LED_GAMMA[i]`, looked up by row, as a byte. */
  function Gamma(i: nat): (v: byte)
    requires i < 256
    ensures i == 0 ==> v == 0
  {
    GammaInByteRange();
    GammaRowsAt(16, i);
    GammaRow(i / 16)[i % 16]
  }

  /** The lookup reads the table: `Gamma(i)` is `LED_GAMMA[i]`, and it never decreases. */
  lemma GammaIsTable(i: nat, j: nat)
    requires i <= j < 256
    ensures Gamma(i) == LED_GAMMA[i] && Gamma(j) == LED_GAMMA[j]
    ensures Gamma(i) <= Gamma(j)
  {
    GammaRowsAt(16, i);
    GammaRowsAt(16, j);
    GammaShape();
  }

  // ---------------------------------------------------------------------
  // Wiring map
  // ---------------------------------------------------------------------

  /** Which controller row drives logical row y. */
  const ROW_LOOKUP: seq<nat> := [8, 5, 4, 3, 2, 1, 0, 7, 6]

  /** The logical row driven by each controller row. */
  const ROW_INVERSE: seq<nat> := [6, 5, 4, 3, 2, 1, 8, 7, 0]

  /** `ROW_LOOKUP` is a permutation of 0..8: every row appears exactly once. */
  lemma RowLookupIsPermutation()
    ensures |ROW_LOOKUP| == HEIGHT
    ensures forall y :: 0 <= y < HEIGHT ==> ROW_LOOKUP[y] < HEIGHT && ROW_INVERSE[ROW_LOOKUP[y]] == y
    ensures forall row :: 0 <= row < HEIGHT ==> ROW_INVERSE[row] < HEIGHT && ROW_LOOKUP[ROW_INVERSE[row]] == row
    ensures forall y, y' :: 0 <= y < y' < HEIGHT ==> ROW_LOOKUP[y] != ROW_LOOKUP[y']
  {
  }

  datatype Channel = Red | Green | Blue

  /** One LED: a channel of the pixel at column x, row y. */
  datatype Led = Led(x: nat, y: nat, channel: Channel)

  predicate OnMatrix(led: Led)
  {
    led.x < WIDTH && led.y < HEIGHT
  }

  /** The three-LED cell a pixel occupies: ten per row for x < 10, three per row after that. */
  function Cell(x: nat, row: nat): (u: nat)
    ensures x < 10 ==> u < 90 + 10 * row && u % 10 == x && u / 10 == row
    ensures 10 <= x < WIDTH ==> u >= 90 && (u - 90) % 3 == x - 10 && (u - 90) / 3 == row
  {
    if x < 10 then x + row * 10 else x + (80 + row * 3)
  }

  /** Odd columns and column 12 are wired green, red, blue; the others blue, green, red. */
  predicate GreenFirst(x: nat)
  {
    x % 2 == 1 || x == 12
  }

  function ChannelOffset(x: nat, channel: Channel): nat
  {
    if GreenFirst(x) then
      match channel case Red => 1 case Green => 0 case Blue => 2
    else
      match channel case Red => 2 case Green => 1 case Blue => 0
  }

  datatype Addresses = Addresses(r: nat, g: nat, b: nat)

  /**
   * `get_pixel_addresses(x, y)`: the register addresses of the red, green
   * and blue LEDs of pixel (x, y). They are the three addresses of one
   * cell, all different and all below 351.
   */
  function PixelAddresses(x: nat, y: nat): (a: Addresses)
    requires x < WIDTH && y < HEIGHT
    ensures var u := Cell(x, ROW_LOOKUP[y]);
      3 * u <= a.r < 3 * u + 3 && 3 * u <= a.g < 3 * u + 3 && 3 * u <= a.b < 3 * u + 3
    ensures a.r != a.g && a.g != a.b && a.r != a.b
    ensures a.r < LED_COUNT && a.g < LED_COUNT && a.b < LED_COUNT
    ensures GreenFirst(x) ==> a.g < a.r < a.b
    ensures !GreenFirst(x) ==> a.b < a.g < a.r
  {
    var row := ROW_LOOKUP[y];
    var offset := 3 * Cell(x, row);
    if GreenFirst(x) then Addresses(offset + 1, offset + 0, offset + 2)
    else Addresses(offset + 2, offset + 1, offset + 0)
  }

  /** The register address of one LED. */
  function Address(led: Led): (address: nat)
    requires OnMatrix(led)
    ensures address < LED_COUNT
  {
    var a := PixelAddresses(led.x, led.y);
    match led.channel case Red => a.r case Green => a.g case Blue => a.b
  }

  /** The LED wired to a register address: the inverse of `Address`. */
  function LedAt(address: nat): (led: Led)
    requires address < LED_COUNT
    ensures OnMatrix(led)
  {
    var u := address / 3;
    var x := if u < 90 then u % 10 else 10 + (u - 90) % 3;
    var row := if u < 90 then u / 10 else (u - 90) / 3;
    var offset := address % 3;
    var channel :=
      if GreenFirst(x) then (if offset == 1 then Red else if offset == 0 then Green else Blue)
      else (if offset == 2 then Red else if offset == 1 then Green else Blue);
    Led(x, ROW_INVERSE[row], channel)
  }

  lemma DivMod3(q: nat, r: nat)
    requires r < 3
    ensures (3 * q + r) / 3 == q && (3 * q + r) % 3 == r
  {
  }

  lemma DivMod10(q: nat, r: nat)
    requires r < 10
    ensures (10 * q + r) / 10 == q && (10 * q + r) % 10 == r
  {
  }

  /** No two LEDs share an address: decoding an LED's address gives the LED back. */
  lemma LedAtAddress(led: Led)
    requires OnMatrix(led)
    ensures Address(led) < LED_COUNT && LedAt(Address(led)) == led
  {
    var row := ROW_LOOKUP[led.y];
    var u := Cell(led.x, row);
    var offset := ChannelOffset(led.x, led.channel);
    RowLookupIsPermutation();
    AddressInCell(led);
    var address := 3 * u + offset;
    DivMod3(u, offset);
    assert address / 3 == u && address % 3 == offset;
    if led.x < 10 {
      assert u == 10 * row + led.x;
      DivMod10(row, led.x);
      assert u < 90 && u % 10 == led.x && u / 10 == row;
    } else {
      assert u - 90 == 3 * row + (led.x - 10);
      DivMod3(row, led.x - 10);
      assert u >= 90 && 10 + (u - 90) % 3 == led.x && (u - 90) / 3 == row;
    }
    var back := LedAt(address);
    assert back.x == led.x && back.y == ROW_INVERSE[row] == led.y;
    assert back.channel == led.channel;
    assert Address(led) == address;
  }

  /** An LED's address is its cell's first address plus its channel's offset. */
  lemma AddressInCell(led: Led)
    requires OnMatrix(led)
    ensures Address(led) == 3 * Cell(led.x, ROW_LOOKUP[led.y]) + ChannelOffset(led.x, led.channel)
  {
  }

  /** Every address 0..350 belongs to some LED of the matrix. */
  lemma AddressLedAt(address: nat)
    requires address < LED_COUNT
    ensures OnMatrix(LedAt(address)) && Address(LedAt(address)) == address
  {
    var u, offset := address / 3, address % 3;
    assert address == 3 * u + offset;
    var row := if u < 90 then u / 10 else (u - 90) / 3;
    var led := LedAt(address);
    RowLookupIsPermutation();
    if u < 90 {
      assert u == 10 * row + led.x;
    } else {
      assert u - 90 == 3 * row + (led.x - 10);
    }
    assert row < HEIGHT && led.y == ROW_INVERSE[row];
    assert ROW_LOOKUP[led.y] == row;
    assert Cell(led.x, row) == u;
    assert ChannelOffset(led.x, led.channel) == offset;
    AddressInCell(led);
  }

  /** Distinct LEDs have distinct addresses. */
  lemma AddressesDistinct(a: Led, b: Led)
    requires OnMatrix(a) && OnMatrix(b) && a != b
    ensures Address(a) != Address(b)
  {
    LedAtAddress(a);
    LedAtAddress(b);
  }

  // ---------------------------------------------------------------------
  // Frame encoding
  // ---------------------------------------------------------------------

  /** A pixel of the rendered image (raylib's `Color`). */
  datatype Color = Color(r: byte, g: byte, b: byte, a: byte)

  function ChannelValue(c: Color, channel: Channel): byte
  {
    match channel case Red => c.r case Green => c.g case Blue => c.b
  }

  /**
   * `(c as f32 * a as f32 / 255.0) as usize`. For 8-bit operands the
   * float computation truncates to the same value as integer division.
   */
  function Intensity(c: byte, a: byte): (i: nat)
    ensures i <= c
    ensures a == 0 ==> i == 0
    ensures a == 255 ==> i == c
  {
    IntensityBound(c, a);
    (c * a) / 255
  }

  lemma IntensityBound(c: byte, a: byte)
    ensures (c * a) / 255 <= c
  {
    MulMonotone(c, a, 255);
    assert c * 255 == 255 * c;
  }

  lemma {:induction false} MulMonotone(c: nat, a: nat, b: nat)
    requires a <= b
    ensures c * a <= c * b
  {
    if c > 0 {
      MulMonotone(c - 1, a, b);
      assert c * a == (c - 1) * a + a;
      assert c * b == (c - 1) * b + b;
    }
  }

  /** The image index of logical pixel (x, y): the frame is turned by 180 degrees. */
  function SourceIndex(x: nat, y: nat): (i: nat)
    requires x < WIDTH && y < HEIGHT
    ensures i < WIDTH * HEIGHT
    ensures i % WIDTH == (WIDTH - 1) - x && i / WIDTH == (HEIGHT - 1) - y
  {
    (8 - y) * 13 + (12 - x)
  }

  /** The byte an LED receives for an image. */
  function LedByte(image: seq<Color>, led: Led): (b: byte)
    requires |image| == WIDTH * HEIGHT && OnMatrix(led)
    ensures image[SourceIndex(led.x, led.y)].a == 0 ==> b == 0
    ensures ChannelValue(image[SourceIndex(led.x, led.y)], led.channel) == 0 ==> b == 0
  {
    var color := image[SourceIndex(led.x, led.y)];
    Gamma(Intensity(ChannelValue(color, led.channel), color.a))
  }

  /** The byte at index i of the register image: the LED whose address is i - 1. */
  function RegisterByte(image: seq<Color>, i: nat): byte
    requires |image| == WIDTH * HEIGHT && 1 <= i < FRAME_SIZE
  {
    LedByte(image, LedAt(i - 1))
  }

  /** The register image: byte 0 is the start register, byte 1 + a is LED address a. */
  function Registers(image: seq<Color>): (data: seq<byte>)
    requires |image| == WIDTH * HEIGHT
    ensures |data| == FRAME_SIZE && data[0] == 0
    ensures forall i :: 1 <= i < FRAME_SIZE ==> data[i] == RegisterByte(image, i)
  {
    seq(FRAME_SIZE, i requires 0 <= i < FRAME_SIZE => if i == 0 then 0 else RegisterByte(image, i))
  }

  /** Each LED's register holds the gamma-corrected, alpha-scaled channel of its flipped pixel. */
  lemma RegistersAtLed(image: seq<Color>, led: Led)
    requires |image| == WIDTH * HEIGHT && OnMatrix(led)
    ensures Address(led) < LED_COUNT
    ensures Registers(image)[1 + Address(led)] == LedByte(image, led)
    ensures var color := image[SourceIndex(led.x, led.y)];
      Registers(image)[1 + Address(led)] == Gamma(Intensity(ChannelValue(color, led.channel), color.a))
    ensures image[SourceIndex(led.x, led.y)].a == 0 ==> Registers(image)[1 + Address(led)] == 0
  {
    LedAtAddress(led);
  }

  predicate Written(led: Led, x: nat, y: nat)
  {
    led.x < x || (led.x == x && led.y < y)
  }

  /**
   * Every LED before pixel (x, y) in column-major order already holds its
   * byte of the register image `want`.
   */
  ghost predicate Filled(data: seq<byte>, want: seq<byte>, x: nat, y: nat)
    requires |want| == FRAME_SIZE
  {
    |data| == FRAME_SIZE && data[0] == want[0] &&
    forall led :: OnMatrix(led) && Written(led, x, y) ==> data[1 + Address(led)] == want[1 + Address(led)]
  }

  /** The buffer after the three LEDs of pixel (x, y) receive their bytes of `want`. */
  function WithPixel(data: seq<byte>, want: seq<byte>, x: nat, y: nat): (d: seq<byte>)
    requires |data| == FRAME_SIZE && |want| == FRAME_SIZE && x < WIDTH && y < HEIGHT
    ensures |d| == FRAME_SIZE && d[0] == data[0]
  {
    var a := PixelAddresses(x, y);
    data[1 + a.r := want[1 + a.r]][1 + a.g := want[1 + a.g]][1 + a.b := want[1 + a.b]]
  }

  /** Writing the three LEDs of pixel (x, y) extends the filled part by that pixel. */
  lemma FillPixel(data: seq<byte>, want: seq<byte>, x: nat, y: nat)
    requires |want| == FRAME_SIZE && x < WIDTH && y < HEIGHT
    requires Filled(data, want, x, y)
    ensures Filled(WithPixel(data, want, x, y), want, x, y + 1)
  {
    var d := WithPixel(data, want, x, y);
    forall led | OnMatrix(led) && Written(led, x, y + 1)
      ensures d[1 + Address(led)] == want[1 + Address(led)]
    {
      FillPixelAt(data, want, x, y, led);
    }
  }

  /** One LED after pixel (x, y) is written: its own byte if it belongs to the pixel, else the byte it had. */
  lemma FillPixelAt(data: seq<byte>, want: seq<byte>, x: nat, y: nat, led: Led)
    requires |want| == FRAME_SIZE && x < WIDTH && y < HEIGHT
    requires Filled(data, want, x, y)
    requires OnMatrix(led) && Written(led, x, y + 1)
    ensures WithPixel(data, want, x, y)[1 + Address(led)] == want[1 + Address(led)]
  {
    var a := PixelAddresses(x, y);
    var address := Address(led);
    var d := data[1 + a.r := want[1 + a.r]][1 + a.g := want[1 + a.g]][1 + a.b := want[1 + a.b]];
    assert WithPixel(data, want, x, y) == d;
    if led.x != x || led.y != y {
      AddressesDistinct(led, Led(x, y, Red));
      AddressesDistinct(led, Led(x, y, Green));
      AddressesDistinct(led, Led(x, y, Blue));
      assert address != a.r && address != a.g && address != a.b;
      assert d[1 + address] == data[1 + address] == want[1 + address];
    } else {
      match led.channel
        case Red => assert address == a.r && d[1 + a.r] == want[1 + a.r];
        case Green => assert address == a.g && d[1 + a.g] == want[1 + a.g];
        case Blue => assert address == a.b;
    }
  }

  /** A finished column hands over to the next one. */
  lemma FillColumn(data: seq<byte>, want: seq<byte>, x: nat)
    requires |want| == FRAME_SIZE
    requires Filled(data, want, x, HEIGHT)
    ensures Filled(data, want, x + 1, 0)
  {
  }

  /** In a filled buffer, every byte after the start register is the one wanted. */
  lemma FilledByte(data: seq<byte>, want: seq<byte>, i: nat)
    requires |want| == FRAME_SIZE && 1 <= i < FRAME_SIZE
    requires Filled(data, want, WIDTH, 0)
    ensures data[i] == want[i]
  {
    AddressHasLed(i - 1);
    var led :| OnMatrix(led) && Address(led) == i - 1;
    assert Written(led, WIDTH, 0);
  }

  /** Some LED of the matrix is wired to each address 0..350. */
  lemma AddressHasLed(address: nat)
    requires address < LED_COUNT
    ensures exists led :: OnMatrix(led) && Address(led) == address
  {
    AddressLedAt(address);
  }

  /** Once every column is done, the buffer is the register image. */
  lemma FillDone(data: seq<byte>, want: seq<byte>)
    requires |want| == FRAME_SIZE
    requires Filled(data, want, WIDTH, 0)
    ensures data == want
  {
    forall i | 1 <= i < FRAME_SIZE
      ensures data[i] == want[i]
    {
      FilledByte(data, want, i);
    }
  }

  /** The register bytes of pixel (x, y)'s three LEDs: its flipped pixel's channels, scaled and corrected. */
  lemma PixelRegisters(image: seq<Color>, x: nat, y: nat)
    requires |image| == WIDTH * HEIGHT && x < WIDTH && y < HEIGHT
    ensures var a := PixelAddresses(x, y);
      var color := image[SourceIndex(x, y)];
      var registers := Registers(image);
      registers[1 + a.r] == Gamma(Intensity(color.r, color.a)) &&
      registers[1 + a.g] == Gamma(Intensity(color.g, color.a)) &&
      registers[1 + a.b] == Gamma(Intensity(color.b, color.a))
  {
    var a := PixelAddresses(x, y);
    var color := image[SourceIndex(x, y)];
    var registers := Registers(image);
    RegistersAtLed(image, Led(x, y, Red));
    assert Address(Led(x, y, Red)) == a.r && ChannelValue(color, Red) == color.r;
    RegistersAtLed(image, Led(x, y, Green));
    assert Address(Led(x, y, Green)) == a.g && ChannelValue(color, Green) == color.g;
    RegistersAtLed(image, Led(x, y, Blue));
    assert Address(Led(x, y, Blue)) == a.b && ChannelValue(color, Blue) == color.b;
  }

  /** The loop body of `send_matrix_pixels`: the three LEDs of pixel (x, y) get their bytes. */
  method WritePixel(data: array<byte>, image: seq<Color>, x: nat, y: nat)
    requires |image| == WIDTH * HEIGHT && x < WIDTH && y < HEIGHT
    requires Filled(data[..], Registers(image), x, y)
    modifies data
    ensures Filled(data[..], Registers(image), x, y + 1)
  {
    ghost var want := Registers(image);
    var a := PixelAddresses(x, y);
    var color := image[SourceIndex(x, y)];
    ghost var before: seq<byte> := data[..];
    FillPixel(before, want, x, y);
    PixelRegisters(image, x, y);
    data[1 + a.r] := Gamma(Intensity(color.r, color.a));
    data[1 + a.g] := Gamma(Intensity(color.g, color.a));
    data[1 + a.b] := Gamma(Intensity(color.b, color.a));
    assert data[..] == WithPixel(before, want, x, y);
  }

  /**
   * `send_matrix_pixels`: fill the register buffer pixel by pixel, then
   * cut it into the two pages written to the controller. The first page is
   * bytes 0..180 (start register and addresses 0..179); the second reuses
   * byte 180 as its start register, zeroed, followed by addresses 180..350.
   */
  method EncodeFrame(image: seq<Color>) returns (first: seq<byte>, second: seq<byte>)
    requires |image| == WIDTH * HEIGHT
    ensures first == Registers(image)[..181]
    ensures second == [0] + Registers(image)[181..]
  {
    var data := new byte[FRAME_SIZE](_ => 0);
    data[0] := 0x00;
    ghost var want := Registers(image);
    for x := 0 to 13
      invariant Filled(data[..], want, x, 0)
    {
      for y := 0 to 9
        invariant Filled(data[..], want, x, y)
      {
        WritePixel(data, image, x, y);
      }
      FillColumn(data[..], want, x);
    }
    FillDone(data[..], want);
    first := data[..181];
    data[180] := 0x00;
    second := data[180..];
    ZeroedTail(want, 180);
  }

  /** Zeroing byte k and cutting the buffer there gives a 0 followed by the bytes after k. */
  lemma ZeroedTail(s: seq<byte>, k: nat)
    requires k < |s|
    ensures s[k := 0][k..] == [0] + s[k + 1..]
  {
  }

  /**
   * Every register reaches the controller: address a sits right after the
   * start register of the first page when below 180 (at index 1 + a), of
   * the second otherwise (at index 1 + (a - 180)). With `RegistersAtLed`,
   * every LED's byte is sent.
   */
  lemma PagesCarryEveryRegister(registers: seq<byte>, first: seq<byte>, second: seq<byte>, a: nat)
    requires |registers| == FRAME_SIZE && a < LED_COUNT
    requires first == registers[..181] && second == [0] + registers[181..]
    ensures |first| == 181 && |second| == 172 && first[0] == registers[0] && second[0] == 0
    ensures a < 180 ==> first[1 + a] == registers[1 + a]
    ensures a >= 180 ==> second[1 + (a - 180)] == registers[1 + a]
  {
  }

  // ---------------------------------------------------------------------
  // Driver state
  // ---------------------------------------------------------------------

  datatype I2cOperation = SetAddress(address: int) | WriteByte(register: byte, value: byte) | Write(bytes: seq<byte>)

  /** `[0x20; 181]` with the start register zeroed: every LED at the same scaling. */
  function Scaling(): (s: seq<byte>)
    ensures |s| == 181 && s[0] == 0
  {
    [0x00] + seq(180, _ => 0x20)
  }

  function ZeroPixels(): (s: seq<byte>)
    ensures |s| == 181
  {
    seq(181, _ => 0x00)
  }

  /** Every page select (register 0xfd) comes right after the unlock command (0xc5 written to 0xfe). */
  predicate UnlockedPageSelects(ops: seq<I2cOperation>)
  {
    forall i :: 0 <= i < |ops| && ops[i].WriteByte? && ops[i].register == 0xfd ==>
      i > 0 && ops[i - 1] == WriteByte(0xfe, 0xc5)
  }

  /** Every bulk write of the batch is all zeros. */
  predicate ZeroWrites(ops: seq<I2cOperation>)
  {
    forall i, j :: 0 <= i < |ops| && ops[i].Write? && 0 <= j < |ops[i].bytes| ==> ops[i].bytes[j] == 0
  }

  /** The batch addresses the matrix, unlocks every page select, and ends by selecting page 4 and writing `on` to its configuration register. */
  predicate SwitchBatch(ops: seq<I2cOperation>, on: byte)
  {
    |ops| >= 3 && ops[0] == SetAddress(MATRIX_ADDRESS) && UnlockedPageSelects(ops) &&
    ops[|ops| - 2] == WriteByte(0xfd, 0x04) && ops[|ops| - 1] == WriteByte(0x00, on)
  }

  /** Reset, set scaling, enable, clear and disable: the batch sent by `init`. */
  function InitBatch(): (ops: seq<I2cOperation>)
    ensures SwitchBatch(ops, 0x00) && |ops| == 23
    ensures ops[4] == WriteByte(0x01, 0x03) && ops[3] == WriteByte(0x3f, 0xae)
    ensures ops[7] == Write(Scaling()) && ops[10] == Write(Scaling()[..172])
  {
    [SetAddress(MATRIX_ADDRESS),
     WriteByte(0xfe, 0xc5), WriteByte(0xfd, 0x04), WriteByte(0x3f, 0xae), WriteByte(0x01, 0x03),
     WriteByte(0xfe, 0xc5), WriteByte(0xfd, 0x02), Write(Scaling()),
     WriteByte(0xfe, 0xc5), WriteByte(0xfd, 0x03), Write(Scaling()[..172]),
     WriteByte(0xfe, 0xc5), WriteByte(0xfd, 0x04), WriteByte(0x00, 0x01),
     WriteByte(0xfe, 0xc5), WriteByte(0xfd, 0x00), Write(ZeroPixels()),
     WriteByte(0xfe, 0xc5), WriteByte(0xfd, 0x01), Write(ZeroPixels()[..172]),
     WriteByte(0xfe, 0xc5), WriteByte(0xfd, 0x04), WriteByte(0x00, 0x00)]
  }

  /** `turn_on_matrix`. */
  function TurnOnBatch(): (ops: seq<I2cOperation>)
    ensures SwitchBatch(ops, 0x01) && ZeroWrites(ops)
  {
    [SetAddress(MATRIX_ADDRESS), WriteByte(0xfe, 0xc5), WriteByte(0xfd, 0x04), WriteByte(0x00, 0x01)]
  }

  /** `turn_off_matrix`: clear both pages, then disable. */
  function TurnOffBatch(): (ops: seq<I2cOperation>)
    ensures SwitchBatch(ops, 0x00) && ZeroWrites(ops)
    ensures |ops| == 10 && ops[3] == Write(ZeroPixels()) && ops[6].Write? && |ops[6].bytes| == 172
  {
    [SetAddress(MATRIX_ADDRESS),
     WriteByte(0xfe, 0xc5), WriteByte(0xfd, 0x00), Write(ZeroPixels()),
     WriteByte(0xfe, 0xc5), WriteByte(0xfd, 0x01), Write(ZeroPixels()[..172]),
     WriteByte(0xfe, 0xc5), WriteByte(0xfd, 0x04), WriteByte(0x00, 0x00)]
  }

  /** The two page writes of `send_matrix_pixels`. */
  function PixelBatches(first: seq<byte>, second: seq<byte>): (batches: seq<seq<I2cOperation>>)
    ensures |batches| == 2 && |batches[0]| == 4 && |batches[1]| == 3
    ensures UnlockedPageSelects(batches[0]) && UnlockedPageSelects(batches[1])
    ensures batches[0][0] == SetAddress(MATRIX_ADDRESS)
    ensures batches[0][2] == WriteByte(0xfd, 0x00) && batches[0][3] == Write(first)
    ensures batches[1][1] == WriteByte(0xfd, 0x01) && batches[1][2] == Write(second)
  {
    [[SetAddress(MATRIX_ADDRESS), WriteByte(0xfe, 0xc5), WriteByte(0xfd, 0x00), Write(first)],
     [WriteByte(0xfe, 0xc5), WriteByte(0xfd, 0x01), Write(second)]]
  }

  /** The driver switch an update performs: on only when enabled and off, off only when disabled and on. */
  function DriverBatches(enabled: bool, driverEnabled: bool): (r: seq<seq<I2cOperation>>)
    ensures |r| <= 1
    ensures |r| == 1 && r[0] == TurnOnBatch() <==> enabled && !driverEnabled
    ensures |r| == 1 && r[0] == TurnOffBatch() <==> !enabled && driverEnabled
  {
    if enabled && !driverEnabled then [TurnOnBatch()]
    else if !enabled && driverEnabled then [TurnOffBatch()]
    else []
  }

  /** The matrix component: its flags and the I2C batches it has handed to the bus queue. */
  class Matrix {
    var updated: bool
    var enabled: bool
    var driverEnabled: bool
    var enqueued: seq<seq<I2cOperation>>

    /** `init`: queue the reset sequence; the matrix starts disabled and up to date. */
    constructor ()
      ensures !updated && !enabled && !driverEnabled
      ensures enqueued == [InitBatch()]
    {
      updated := false;
      enabled := false;
      driverEnabled := false;
      enqueued := [InitBatch()];
    }

    /** `set_enabled`: record the wish and force the next update to act on it. */
    method SetEnabled(e: bool)
      modifies this
      ensures updated && enabled == e
      ensures driverEnabled == old(driverEnabled) && enqueued == old(enqueued)
    {
      updated := true;
      enabled := e;
    }

    /**
     * `update`, given the image as it stands after this frame's drawing.
     * An enabled matrix redraws and so is always updated; an update
     * switches the driver to match `enabled` and sends the frame once.
     */
    method Update(image: seq<Color>)
      requires |image| == WIDTH * HEIGHT
      modifies this
      ensures !updated && enabled == old(enabled)
      ensures old(updated) || old(enabled) ==>
        driverEnabled == enabled &&
        enqueued == old(enqueued) + DriverBatches(old(enabled), old(driverEnabled))
                    + PixelBatches(Registers(image)[..181], [0] + Registers(image)[181..])
      ensures !(old(updated) || old(enabled)) ==>
        driverEnabled == old(driverEnabled) && enqueued == old(enqueued)
    {
      if enabled {
        updated := true;
      }
      if updated {
        updated := false;
        var switching := DriverBatches(enabled, driverEnabled);
        if enabled && !driverEnabled {
          enqueued := enqueued + [TurnOnBatch()];
          driverEnabled := true;
        }
        if !enabled && driverEnabled {
          enqueued := enqueued + [TurnOffBatch()];
          driverEnabled := false;
        }
        assert enqueued == old(enqueued) + switching;
        var first, second := EncodeFrame(image);
        enqueued := enqueued + PixelBatches(first, second);
      }
    }
  }
}
