/**
 * The gamepad side: decoding one Linux joystick event into per-axis and
 * per-button value tables, and the integer scaling of stick positions from
 * the `short` range to [-100, 100].
 *
 * Identifiers and constants are those of the GameSir T1s mapping the
 * joystick library is built with.
 */
module Joystick {

  const EventButton: bv8 := 0x01
  const EventAxis: bv8 := 0x02
  /** Set on the synthetic events the driver sends at start-up. */
  const EventInit: bv8 := 0x80

  const MaxButtonCount: nat := 15
  const MaxAxisCount: nat := 8

  // Axis identifiers.
  const AxisLeftStickHorizontal: nat := 0
  const AxisLeftStickVertical: nat := 1
  const AxisRightStickHorizontal: nat := 2
  const AxisRightStickVertical: nat := 3
  const AxisRightBumper2: nat := 4
  const AxisLeftBumper2: nat := 5
  const AxisButtonsHorizontal: nat := 6
  const AxisButtonsVertical: nat := 7

  // Button identifiers.
  const ButtonA: nat := 0
  const ButtonB: nat := 1
  const ButtonX: nat := 3
  const ButtonY: nat := 4
  const ButtonLeftBumper1: nat := 6
  const ButtonRightBumper1: nat := 7
  const ButtonLeftBumper2: nat := 8
  const ButtonRightBumper2: nat := 9
  const ButtonSelect: nat := 10
  const ButtonStart: nat := 11

  const ShrtMin: int := -32768
  const ShrtMax: int := 32767
  const OutMin: int := -100
  const OutMax: int := 100

  type Int16 = x: int | -32768 <= x <= 32767
  type UInt8 = x: int | 0 <= x < 256

  /** A `js_event` as read from the device. */
  datatype JsEvent = JsEvent(time: bv32, value: Int16, kind: bv8, id: UInt8)

  function Abs(x: int): nat
  {
    if x < 0 then -x else x
  }

  /** `k * d >= d` for a positive multiplier. */
  lemma {:induction false} MulAtLeast(k: int, d: int)
    requires 1 <= k && 0 < d
    ensures k * d >= d
    decreases k
  {
    if k > 1 {
      MulAtLeast(k - 1, d);
      assert k * d == (k - 1) * d + d;
    }
  }

  lemma DivNonNegative(a: int, d: int)
    requires 0 <= a && 0 < d
    ensures a / d >= 0
  {
    var q := a / d;
    assert a == q * d + a % d;
    if q < 0 {
      MulAtLeast(-q, d);
    }
  }

  /** C++ integer division, which truncates toward zero. */
  function TruncDiv(a: int, b: int): (q: int)
    requires b != 0
    ensures Abs(q) == Abs(a) / Abs(b)
    ensures (a < 0) == (b < 0) ==> q >= 0
    ensures (a < 0) != (b < 0) ==> q <= 0
  {
    DivNonNegative(Abs(a), Abs(b));
    var m := Abs(a) / Abs(b);
    if (a < 0) == (b < 0) then m else -m
  }

  /** Truncating division agrees with Dafny's division when both operands are non-negative. */
  lemma TruncDivNonNegative(a: int, b: int)
    requires 0 <= a && 0 < b
    ensures TruncDiv(a, b) == a / b
  {
  }

  /** Conversion of an integer to `short`: two's-complement wrap-around. */
  function ToShort(x: int): (r: Int16)
    ensures ShrtMin <= x <= ShrtMax ==> r == x
    ensures (x - r) % 65536 == 0
  {
    (x - ShrtMin) % 65536 + ShrtMin
  }

  /** `Joystick::map`: linear rescaling of `x` from [inMin, inMax] to [outMin, outMax], as a `short`. */
  function Map(x: int, inMin: int, inMax: int, outMin: int, outMax: int): Int16
    requires inMax != inMin
  {
    ToShort(TruncDiv((x - inMin) * (outMax - outMin), inMax - inMin) + outMin)
  }

  /** A quotient is determined by any decomposition with a remainder in [0, d). */
  lemma DivUnique(a: int, d: int, q: int, r: int)
    requires 0 < d && a == q * d + r && 0 <= r < d
    ensures a / d == q
  {
    var q' := a / d;
    var r' := a % d;
    assert a == q' * d + r';
    if q' > q {
      MulAtLeast(q' - q, d);
    } else if q' < q {
      MulAtLeast(q - q', d);
    }
  }

  lemma AbsMul(e: int, d: int)
    ensures Abs(e * d) == Abs(e) * Abs(d)
  {
    if e < 0 && d < 0 {
      assert e * d == (-e) * (-d);
    } else if e < 0 {
      assert -(e * d) == (-e) * d;
    } else if d < 0 {
      assert -(e * d) == e * (-d);
    }
  }

  /** Truncating division undoes multiplication. */
  lemma TruncDivCancel(e: int, d: int)
    requires d != 0
    ensures TruncDiv(e * d, d) == e
  {
    AbsMul(e, d);
    DivUnique(Abs(e) * Abs(d), Abs(d), Abs(e), 0);
    if e != 0 {
      assert (e * d < 0) == ((e < 0) != (d < 0)) by {
        if e > 0 && d > 0 { MulAtLeast(e, d); }
        else if e < 0 && d < 0 { MulAtLeast(-e, -d); assert e * d == (-e) * (-d); }
        else if e > 0 { MulAtLeast(e, -d); assert e * d == -(e * (-d)); }
        else { MulAtLeast(-e, d); assert e * d == -((-e) * d); }
      }
    }
  }

  /** `map` sends the ends of the input range to the ends of the output range. */
  lemma MapEndpoints(inMin: int, inMax: int, outMin: Int16, outMax: Int16)
    requires inMax != inMin
    ensures Map(inMin, inMin, inMax, outMin, outMax) == outMin
    ensures Map(inMax, inMin, inMax, outMin, outMax) == outMax
  {
    var d := inMax - inMin;
    var e := outMax - outMin;
    TruncDivCancel(e, d);
    assert (inMax - inMin) * (outMax - outMin) == e * d;
  }

  /** `Joystick::mapConstLimits`: a stick position rescaled from the `short` range to [-100, 100]. */
  function MapConstLimits(x: int): Int16
  {
    ToShort(TruncDiv((x - ShrtMin) * (OutMax - OutMin), ShrtMax - ShrtMin) + OutMin)
  }

  /** `mapConstLimits` is `map` with the `short` range as input and [-100, 100] as output. */
  lemma MapConstLimitsIsMap(x: int)
    ensures MapConstLimits(x) == Map(x, ShrtMin, ShrtMax, OutMin, OutMax)
  {
  }

  lemma DivMonotone(a: int, b: int, d: int)
    requires 0 <= a <= b && 0 < d
    ensures a / d <= b / d
  {
    var qa, qb := a / d, b / d;
    assert a == qa * d + a % d && b == qb * d + b % d;
    if qa > qb {
      MulAtLeast(qa - qb, d);
    }
  }

  /** On a `short` input the truncating and the Euclidean quotient agree, and the value before wrapping lies in [-100, 100]. */
  lemma MapConstLimitsUnwrapped(x: int)
    requires ShrtMin <= x <= ShrtMax
    ensures MapConstLimits(x) == (x - ShrtMin) * 200 / 65535 - 100
    ensures -100 <= MapConstLimits(x) <= 100
  {
    var n := (x - ShrtMin) * 200;
    assert 0 <= n <= 65535 * 200;
    TruncDivNonNegative(n, 65535);
    DivMonotone(n, 65535 * 200, 65535);
    DivMonotone(0, n, 65535);
  }

  /** The ends of the `short` range map to the ends of [-100, 100]. */
  lemma MapConstLimitsEndpoints()
    ensures MapConstLimits(ShrtMin) == -100
    ensures MapConstLimits(ShrtMax) == 100
  {
    MapConstLimitsUnwrapped(ShrtMin);
    MapConstLimitsUnwrapped(ShrtMax);
  }

  /** For `short` inputs the result lies in [-100, 100] and never decreases as the input grows. */
  lemma MapConstLimitsMonotone(x: int, y: int)
    requires ShrtMin <= x <= y <= ShrtMax
    ensures -100 <= MapConstLimits(x) <= MapConstLimits(y) <= 100
  {
    MapConstLimitsUnwrapped(x);
    MapConstLimitsUnwrapped(y);
    DivMonotone((x - ShrtMin) * 200, (y - ShrtMin) * 200, 65535);
  }

  /** The event type with the start-up bit cleared. */
  function Masked(kind: bv8): (k: bv8)
    ensures k & EventInit == 0
    ensures k | EventInit == kind | EventInit
  {
    kind & !EventInit
  }

  /** A start-up event is classified like the ordinary event of the same type. */
  lemma InitBitIgnored(kind: bv8)
    ensures Masked(kind | EventInit) == Masked(kind)
  {
  }

  class Joystick {
    var event: JsEvent
    var updatedButton: UInt8
    var updatedAxis: UInt8
    var isAxisUpdate: bool
    var isButtonUpdate: bool
    const buttonValues: array<UInt8>
    const axisValues: array<Int16>

    ghost predicate Valid()
      reads this
    {
      buttonValues.Length == MaxButtonCount && axisValues.Length == MaxAxisCount
    }

    /** Both value tables start zeroed; the update flags are not initialised by the source and are left unspecified. */
    constructor ()
      ensures Valid() && fresh(buttonValues) && fresh(axisValues)
      ensures forall i :: 0 <= i < MaxButtonCount ==> buttonValues[i] == 0
      ensures forall i :: 0 <= i < MaxAxisCount ==> axisValues[i] == 0
    {
      event := JsEvent(0, 0, 0, 0);
      updatedButton, updatedAxis := 0, 0;
      isAxisUpdate, isButtonUpdate := false, false;
      buttonValues := new UInt8[MaxButtonCount](_ => 0);
      axisValues := new Int16[MaxAxisCount](_ => 0);
    }

    /**
     * `update()` after its blocking read has produced `ev`. The event id
     * indexes the value tables unchecked, so the device must keep axis ids
     * below `MaxAxisCount` and button ids below `MaxButtonCount`.
     */
    method Update(ev: JsEvent)
      requires Valid()
      requires Masked(ev.kind) == EventAxis ==> ev.id < MaxAxisCount
      requires Masked(ev.kind) == EventButton ==> ev.id < MaxButtonCount
      modifies this, axisValues, buttonValues
      ensures Valid()
      ensures event == ev.(kind := Masked(ev.kind))
      ensures Masked(ev.kind) == EventAxis ==>
                && axisValues[..] == old(axisValues[..])[ev.id := ev.value]
                && buttonValues[..] == old(buttonValues[..])
                && updatedAxis == ev.id && updatedButton == old(updatedButton)
                && isAxisUpdate && !isButtonUpdate
      ensures Masked(ev.kind) == EventButton ==>
                && buttonValues[..] == old(buttonValues[..])[ev.id := ev.value % 256]
                && axisValues[..] == old(axisValues[..])
                && updatedButton == ev.id && updatedAxis == old(updatedAxis)
                && !isAxisUpdate && isButtonUpdate
      ensures Masked(ev.kind) != EventAxis && Masked(ev.kind) != EventButton ==>
                && axisValues[..] == old(axisValues[..]) && buttonValues[..] == old(buttonValues[..])
                && updatedAxis == old(updatedAxis) && updatedButton == old(updatedButton)
                && isAxisUpdate == old(isAxisUpdate) && isButtonUpdate == old(isButtonUpdate)
    {
      event := ev;
      event := event.(kind := Masked(event.kind));
      if event.kind == EventAxis {
        updatedAxis := event.id;
        isAxisUpdate := true;
        isButtonUpdate := false;
        axisValues[event.id] := event.value;
      }
      if event.kind == EventButton {
        updatedButton := event.id;
        isAxisUpdate := false;
        isButtonUpdate := true;
        // the 16-bit value is stored into an 8-bit slot
        buttonValues[event.id] := event.value % 256;
      }
    }

    method GetButtonState(button: nat) returns (r: UInt8)
      requires Valid() && button < MaxButtonCount
      ensures r == buttonValues[button]
    {
      r := buttonValues[button];
    }

    method GetAxisState(axis: nat) returns (r: Int16)
      requires Valid() && axis < MaxAxisCount
      ensures r == axisValues[axis]
    {
      r := axisValues[axis];
    }

    /** Reads the AXIS table (not the button table), narrowed to 8 bits. */
    method GetValueButton(i: nat) returns (r: UInt8)
      requires Valid() && i < MaxAxisCount
      ensures r == axisValues[i] % 256
    {
      r := axisValues[i] % 256;
    }

    method GetValueAxis(i: nat) returns (r: Int16)
      requires Valid() && i < MaxAxisCount
      ensures r == axisValues[i]
    {
      r := axisValues[i];
    }
  }
}
