/**
 * The desk's reference-counted backlight (`src/backlight.rs`). Every app
 * that needs the screen sends `Request` and later `Release`; the actor
 * counts the holders and tells itself `SetEnabled(true)` when the first one
 * arrives and `SetEnabled(false)` when the last one leaves. `SetEnabled`
 * switches the display (`xset dpms force on|off`) and the PWM duty cycle.
 *
 * The messages the actor tells itself are kept in `told`, in order; the
 * process call and the PWM write are reduced to the state they set.
 */
module Backlight {

  datatype Message = Request | Release | SetEnabled(enabled: bool)

  /** How many Requests a sequence of messages holds, less how many Releases. */
  function Holders(messages: seq<Message>): (count: int)
    ensures -|messages| <= count <= |messages|
  {
    if messages == [] then 0
    else Holders(messages[..|messages| - 1]) + Delta(messages[|messages| - 1])
  }

  /** The count does not depend on the order: it is the number of Requests less the number of Releases. */
  lemma {:induction false} HoldersCountsMessages(messages: seq<Message>)
    ensures Holders(messages) == multiset(messages)[Request] as int - multiset(messages)[Release] as int
  {
    if messages != [] {
      var prefix, last := messages[..|messages| - 1], messages[|messages| - 1];
      assert messages == prefix + [last];
      HoldersCountsMessages(prefix);
    }
  }

  /** What one message does to the count: a request adds a holder, a release removes one, a switch neither. */
  function Delta(m: Message): (change: int)
    ensures -1 <= change <= 1
    ensures change == 1 <==> m == Request
    ensures change == -1 <==> m == Release
  {
    match m
      case Request => 1
      case Release => -1
      case SetEnabled(_) => 0
  }

  /** A release never outnumbers the requests before it: the count never needs to go below zero. */
  predicate Balanced(messages: seq<Message>)
  {
    forall k :: 0 <= k <= |messages| ==> Holders(messages[..k]) >= 0
  }

  /** Whether the last thing the actor told itself switched the backlight on. */
  predicate LitUp(told: seq<bool>)
  {
    |told| > 0 && told[|told| - 1]
  }

  /** The told messages alternate on, off, on, ...: the actor never repeats itself. */
  predicate Alternates(told: seq<bool>)
  {
    forall k :: 0 <= k < |told| ==> told[k] == (k % 2 == 0)
  }

  class BacklightActor {
    /** `handle_count`: a `usize`. */
    var handleCount: nat
    /** The `SetEnabled` messages told to the actor's own mailbox, in order. */
    var told: seq<bool>
    /** The display's DPMS state and the PWM duty cycle, as the last `SetEnabled` left them. */
    var displayOn: bool
    var dutyCycle: real

    /** Every told message is a switch, on when the count leaves 0 and off when it returns to 0. */
    predicate Valid()
      reads this
    {
      Alternates(told) && (LitUp(told) <==> handleCount > 0)
    }

    /** `on_start`: no holders, nothing told, the PWM set up at duty 0 with the display state untouched. */
    constructor(display: bool)
      ensures Valid()
      ensures handleCount == 0 && told == [] && displayOn == display && dutyCycle == 0.0
    {
      handleCount := 0;
      told := [];
      displayOn := display;
      dutyCycle := 0.0;
    }

    /** `Request`: switch on when the count was 0, then count one more holder. */
    method HandleRequest()
      requires Valid()
      modifies this`handleCount, this`told
      ensures Valid()
      ensures handleCount == old(handleCount) + 1
      ensures told == if old(handleCount) == 0 then old(told) + [true] else old(told)
    {
      if handleCount == 0 {
        told := told + [true];
      }
      handleCount := handleCount + 1;
    }

    /**
     * `Release`: count one holder less and switch off when none is left.
     * At count 0 the `usize` subtraction panics; the result is false and
     * nothing changes.
     */
    method HandleRelease() returns (ok: bool)
      requires Valid()
      modifies this`handleCount, this`told
      ensures Valid()
      ensures ok <==> old(handleCount) > 0
      ensures ok ==> handleCount == old(handleCount) - 1
      ensures ok ==> told == if handleCount == 0 then old(told) + [false] else old(told)
      ensures !ok ==> handleCount == old(handleCount) && told == old(told)
    {
      if handleCount == 0 {
        return false;
      }
      handleCount := handleCount - 1;
      if handleCount == 0 {
        told := told + [false];
      }
      ok := true;
    }

    /** `SetEnabled`: the display on or off, the PWM at duty 0.5 or 0. */
    method HandleSetEnabled(enabled: bool)
      modifies this`displayOn, this`dutyCycle
      ensures displayOn == enabled
      ensures dutyCycle == if enabled then 0.5 else 0.0
    {
      displayOn := enabled;
      dutyCycle := if enabled then 0.5 else 0.0;
    }

    /**
     * The actor's mailbox, handled in order until a `Release` panics. The
     * count is the number of Requests less the number of Releases; a panic
     * happens exactly when the messages are not balanced.
     */
    method Run(messages: seq<Message>) returns (handled: nat)
      requires Valid() && handleCount == 0
      modifies this`handleCount, this`told, this`displayOn, this`dutyCycle
      ensures Valid()
      ensures handled <= |messages|
      ensures Balanced(messages[..handled])
      ensures handleCount == Holders(messages[..handled])
      ensures handled < |messages| ==> messages[handled].Release? && handleCount == 0
    {
      handled := 0;
      while handled < |messages|
        invariant Valid()
        invariant handled <= |messages|
        invariant Balanced(messages[..handled])
        invariant handleCount == Holders(messages[..handled])
      {
        var m := messages[handled];
        assert messages[..handled + 1][..handled] == messages[..handled];
        match m {
          case Request =>
            HandleRequest();
          case Release =>
            var ok := HandleRelease();
            if !ok {
              return;
            }
          case SetEnabled(enabled) =>
            HandleSetEnabled(enabled);
        }
        BalancedExtends(messages[..handled], m);
        assert messages[..handled] + [m] == messages[..handled + 1];
        handled := handled + 1;
      }
    }
  }

  lemma BalancedExtends(prefix: seq<Message>, m: Message)
    requires Balanced(prefix)
    requires Holders(prefix + [m]) >= 0
    ensures Balanced(prefix + [m])
  {
    var whole := prefix + [m];
    forall k | 0 <= k <= |whole|
      ensures Holders(whole[..k]) >= 0
    {
      if k <= |prefix| {
        assert whole[..k] == prefix[..k];
      } else {
        assert whole[..k] == whole;
      }
    }
  }

  /**
   * Once every told message has been delivered, the display is on exactly
   * while someone holds the backlight.
   */
  lemma DeliveredSwitchesFollowHolders(actor: BacklightActor, delivered: bool)
    requires actor.Valid() && |actor.told| > 0
    requires delivered == actor.told[|actor.told| - 1]
    ensures delivered <==> actor.handleCount > 0
  {
  }

  /** A Request followed by its Release tells the actor to switch on and off again when nobody else held it. */
  method RequestThenRelease(actor: BacklightActor) returns (ok: bool)
    requires actor.Valid() && actor.handleCount == 0
    modifies actor
    ensures ok && actor.handleCount == 0
    ensures actor.told == old(actor.told) + [true, false]
  {
    actor.HandleRequest();
    ok := actor.HandleRelease();
  }
}
