/**
 * The desk's button reader (`lib/src/input.rs`): nine keys, the five keys
 * of the button shim read over I2C as one active-low byte and the four
 * Pirate Audio buttons read as GPIO pins (or, on a desktop build, the
 * keyboard's keys 1 to 5 and A, B, X, Y). Each update keeps the previous
 * sample, so a press or a release is an edge between the two.
 *
 * The I2C and GPIO reads are parameters; their `unwrap`s are left out.
 */
module KeyInput {
  import opened Common

  /** raylib's keyboard keys: the nine the desk uses, and every other one. */
  datatype Key = KeyOne | KeyTwo | KeyThree | KeyFour | KeyFive | KeyA | KeyB | KeyX | KeyY | Unsupported(code: int)

  datatype KeyState = KeyState(
    one: bool, two: bool, three: bool, four: bool, five: bool,
    a: bool, b: bool, x: bool, y: bool)

  /** Nothing held. */
  const RELEASED: KeyState := KeyState(false, false, false, false, false, false, false, false, false)

  /** Whether a key is held in a sample; None where the source panics on an unsupported key. */
  function Down(state: KeyState, key: Key): (r: Option<bool>)
    ensures r.None? <==> key.Unsupported?
  {
    match key
      case KeyOne => Some(state.one)
      case KeyTwo => Some(state.two)
      case KeyThree => Some(state.three)
      case KeyFour => Some(state.four)
      case KeyFive => Some(state.five)
      case KeyA => Some(state.a)
      case KeyB => Some(state.b)
      case KeyX => Some(state.x)
      case KeyY => Some(state.y)
      case Unsupported(_) => None
  }

  /**
   * The shim's byte decoded: keys one to five read `buttons & mask == 0`
   * for the masks 0b10000 down to 0b00001; the pins of A, B, X and Y read
   * low when pressed.
   */
  function ShimSample(buttons: byte, aLow: bool, bLow: bool, xLow: bool, yLow: bool): (s: KeyState)
    ensures s.a == aLow && s.b == bLow && s.x == xLow && s.y == yLow
  {
    KeyState(
      BitAnd(buttons, 0x10) == 0, BitAnd(buttons, 0x08) == 0, BitAnd(buttons, 0x04) == 0,
      BitAnd(buttons, 0x02) == 0, BitAnd(buttons, 0x01) == 0,
      aLow, bLow, xLow, yLow)
  }

  /** The shim is active-low: key one is held exactly when bit 4 is clear, ..., key five when bit 0 is. */
  lemma ShimIsActiveLow(buttons: byte, aLow: bool, bLow: bool, xLow: bool, yLow: bool)
    ensures var s := ShimSample(buttons, aLow, bLow, xLow, yLow);
      (s.one <==> !Bit(buttons, 4)) && (s.two <==> !Bit(buttons, 3)) && (s.three <==> !Bit(buttons, 2)) &&
      (s.four <==> !Bit(buttons, 1)) && (s.five <==> !Bit(buttons, 0))
  {
    assert Pow2(0) == 1 && Pow2(1) == 2 && Pow2(2) == 4 && Pow2(3) == 8 && Pow2(4) == 16;
    AndSingleBit(buttons, 4);
    AndSingleBit(buttons, 3);
    AndSingleBit(buttons, 2);
    AndSingleBit(buttons, 1);
    AndSingleBit(buttons, 0);
  }

  /** The button reader: the latest sample and the one before it. */
  class Input {
    var current: KeyState
    var previous: KeyState

    /** `Input::new`: both samples start with nothing held. */
    constructor()
      ensures current == RELEASED && previous == RELEASED
    {
      current := RELEASED;
      previous := RELEASED;
    }

    /** `update`: the current sample becomes the previous one, then the keys are read again. */
    method Update(sample: KeyState)
      modifies this
      ensures previous == old(current) && current == sample
    {
      previous := current;
      current := sample;
    }

    /** `update` on the Raspberry Pi: the shim byte and the four button pins. */
    method UpdateFromHardware(buttons: byte, aLow: bool, bLow: bool, xLow: bool, yLow: bool)
      modifies this
      ensures previous == old(current) && current == ShimSample(buttons, aLow, bLow, xLow, yLow)
    {
      previous := current;
      current := ShimSample(buttons, aLow, bLow, xLow, yLow);
    }

    /** `is_key_pressed`: held now and not in the previous sample. */
    function IsKeyPressed(key: Key): (r: Option<bool>)
      reads this
      ensures r.None? <==> key.Unsupported?
      ensures r == Some(true) <==> Down(current, key) == Some(true) && Down(previous, key) == Some(false)
    {
      match Down(current, key)
        case None => None
        case Some(now) => Some(now && !Down(previous, key).value)
    }

    /** `is_key_released`: not held now and held in the previous sample. */
    function IsKeyReleased(key: Key): (r: Option<bool>)
      reads this
      ensures r.None? <==> key.Unsupported?
      ensures r == Some(true) <==> Down(current, key) == Some(false) && Down(previous, key) == Some(true)
    {
      match Down(current, key)
        case None => None
        case Some(now) => Some(!now && Down(previous, key).value)
    }

    /** `is_key_down`: held now. */
    function IsKeyDown(key: Key): (r: Option<bool>)
      reads this
      ensures r == Down(current, key)
    {
      Down(current, key)
    }
  }

  /** No key is both pressed and released, and a pressed key is down. */
  lemma PressedExcludesReleased(input: Input, key: Key)
    ensures !(input.IsKeyPressed(key) == Some(true) && input.IsKeyReleased(key) == Some(true))
    ensures input.IsKeyPressed(key) == Some(true) ==> input.IsKeyDown(key) == Some(true)
    ensures input.IsKeyReleased(key) == Some(true) ==> input.IsKeyDown(key) == Some(false)
  {
  }

  /** Before the first update nothing is pressed, released or down. */
  method FreshInputIsQuiet(key: Key) returns (input: Input)
    requires !key.Unsupported?
    ensures input.IsKeyPressed(key) == Some(false) && input.IsKeyReleased(key) == Some(false)
    ensures input.IsKeyDown(key) == Some(false)
  {
    input := new Input();
  }

  /** Holding a key over two updates gives one press: the second update sees it as held, not pressed. */
  method HoldPressesOnce(input: Input, sample: KeyState, key: Key) returns (first: Option<bool>, second: Option<bool>)
    requires Down(input.current, key) == Some(false) && Down(sample, key) == Some(true)
    modifies input
    ensures first == Some(true) && second == Some(false)
  {
    input.Update(sample);
    first := input.IsKeyPressed(key);
    input.Update(sample);
    second := input.IsKeyPressed(key);
  }
}
