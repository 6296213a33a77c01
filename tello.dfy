/**
 * The drone facade's input-to-command mapping: a button press or an axis
 * movement read from the gamepad becomes a short sequence of calls on the
 * command channel. The decision is a pure function returning the calls as
 * `Action`s; `Perform` applies them to a `CommandSocket`.
 */
module TelloControl {
  import opened Joystick
  import CommandChannel
  import VideoChannel
  import StateChannel

  datatype Option<T> = None | Some(value: T)

  /** One call the mapping makes on the command channel. */
  datatype Action =
    | StopQueueExecution
    | ExecuteQueue
    | DoNotAutoLand
    | AllowAutoLand
    | Send(cmd: string)
    | Stop
    | Emergency

  // ---------------------------------------------------------------------
  // Effect of a sequence of actions on the channel, as specification
  // functions (each recurses on the last action, matching the order in
  // which `Perform` applies them).
  // ---------------------------------------------------------------------

  /** The `execute_queue_` flag after the actions. */
  function ExecutingAfter(executing: bool, acts: seq<Action>): bool
    decreases |acts|
  {
    if acts == [] then executing
    else
      var before := ExecutingAfter(executing, acts[..|acts| - 1]);
      match acts[|acts| - 1]
      case StopQueueExecution => false
      case ExecuteQueue => true
      case Stop => false
      case Emergency => false
      case _ => before
  }

  /** The `dnal_` (do-not-auto-land) flag after the actions. */
  function DnalAfter(dnal: bool, acts: seq<Action>): bool
    decreases |acts|
  {
    if acts == [] then dnal
    else
      var before := DnalAfter(dnal, acts[..|acts| - 1]);
      match acts[|acts| - 1]
      case DoNotAutoLand => true
      case AllowAutoLand => false
      case _ => before
  }

  /** The datagrams the actions hand to the transport, in order. */
  function SentBy(acts: seq<Action>): seq<string>
    decreases |acts|
  {
    if acts == [] then []
    else
      var before := SentBy(acts[..|acts| - 1]);
      match acts[|acts| - 1]
      case Send(cmd) => before + [cmd]
      case Stop => before + ["stop"]
      case Emergency => before + ["emergency"]
      case _ => before
  }

  /** Appending one action extends each effect by that action's own effect. */
  lemma EffectsOfSnoc(executing: bool, dnal: bool, acts: seq<Action>, a: Action)
    ensures ExecutingAfter(executing, acts + [a]) == ExecutingAfter(ExecutingAfter(executing, acts), [a])
    ensures DnalAfter(dnal, acts + [a]) == DnalAfter(DnalAfter(dnal, acts), [a])
    ensures SentBy(acts + [a]) == SentBy(acts) + SentBy([a])
  {
    assert (acts + [a])[..|acts|] == acts;
    assert [a][..0] == [];
  }

  /** Applies one action through the channel operation of the same name. */
  method Apply(cs: CommandChannel.CommandSocket, a: Action)
    requires cs.Valid()
    modifies cs`executeQueue, cs`dnal, cs`nRetries, cs`sent
    ensures cs.Valid()
    ensures cs.executeQueue == ExecutingAfter(old(cs.executeQueue), [a])
    ensures cs.dnal == DnalAfter(old(cs.dnal), [a])
    ensures cs.sent == old(cs.sent) + SentBy([a])
    ensures cs.nRetries == if SentBy([a]) == [] then old(cs.nRetries) else 0
  {
    assert [a][..0] == [];
    match a {
      case StopQueueExecution => cs.StopQueueExecution();
      case ExecuteQueue => cs.ExecuteQueue();
      case DoNotAutoLand => cs.DoNotAutoLand();
      case AllowAutoLand => cs.AllowAutoLand();
      case Send(cmd) => cs.SendCommand(cmd);
      case Stop => cs.Stop();
      case Emergency => cs.Emergency();
    }
  }

  /** Applies the actions to the channel one after another. */
  method Perform(cs: CommandChannel.CommandSocket, acts: seq<Action>)
    requires cs.Valid()
    modifies cs`executeQueue, cs`dnal, cs`nRetries, cs`sent
    ensures cs.Valid()
    ensures cs.executeQueue == ExecutingAfter(old(cs.executeQueue), acts)
    ensures cs.dnal == DnalAfter(old(cs.dnal), acts)
    ensures cs.sent == old(cs.sent) + SentBy(acts)
    ensures cs.nRetries == if SentBy(acts) == [] then old(cs.nRetries) else 0
  {
    var i := 0;
    while i < |acts|
      invariant 0 <= i <= |acts|
      invariant cs.Valid()
      invariant cs.executeQueue == ExecutingAfter(old(cs.executeQueue), acts[..i])
      invariant cs.dnal == DnalAfter(old(cs.dnal), acts[..i])
      invariant cs.sent == old(cs.sent) + SentBy(acts[..i])
      invariant cs.nRetries == if SentBy(acts[..i]) == [] then old(cs.nRetries) else 0
    {
      assert acts[..i + 1] == acts[..i] + [acts[i]];
      EffectsOfSnoc(old(cs.executeQueue), old(cs.dnal), acts[..i], acts[i]);
      Apply(cs, acts[i]);
      i := i + 1;
    }
    assert acts[..i] == acts;
  }

  // ---------------------------------------------------------------------
  // Buttons
  // ---------------------------------------------------------------------

  /** Both overloads first stop queue execution if it was running. */
  function StopFirst(executing: bool): seq<Action>
  {
    if executing then [StopQueueExecution] else []
  }

  /** After the opening calls the queue is stopped, keepalive is as it was and nothing was sent. */
  lemma StopFirstEffects(executing: bool, dnal: bool)
    ensures !ExecutingAfter(executing, StopFirst(executing))
    ensures DnalAfter(dnal, StopFirst(executing)) == dnal
    ensures SentBy(StopFirst(executing)) == []
  {
    if executing {
      assert StopFirst(executing)[..0] == [];
    }
  }

  /** The switch on the pressed button, once queue execution has been stopped. */
  function ButtonSwitch(button: nat, executing: bool, dnal: bool): seq<Action>
  {
    if button == ButtonA then [DoNotAutoLand, Send("takeoff")]
    else if button == ButtonB then [AllowAutoLand, Send("land")]
    else if button == ButtonX then [Send("streamon")]
    else if button == ButtonY then [Send("streamoff")]
    else if button == ButtonRightBumper1 then [Stop]
    else if button == ButtonRightBumper2 then [Emergency]
    else if button == ButtonLeftBumper1 then (if dnal then [AllowAutoLand] else [DoNotAutoLand])
    else if button == ButtonLeftBumper2 then []
    else if button == ButtonStart then [Send("command")]
    else if button == ButtonSelect then (if executing then [StopQueueExecution] else [ExecuteQueue])
    else []
  }

  /**
   * `jsToCommand(ButtonId)`: nothing for a released button (state 0);
   * otherwise stop queue execution if it was running, then the button's
   * own calls. `executing` and `dnal` are the channel's flags before the press.
   */
  function ButtonActions(button: nat, value: int, executing: bool, dnal: bool): seq<Action>
  {
    if value == 0 then []
    else StopFirst(executing) + ButtonSwitch(button, executing, dnal)
  }

  /** A released button makes no call at all. */
  lemma ButtonReleaseDoesNothing(button: nat, executing: bool, dnal: bool)
    ensures ButtonActions(button, 0, executing, dnal) == []
    ensures ExecutingAfter(executing, ButtonActions(button, 0, executing, dnal)) == executing
    ensures DnalAfter(dnal, ButtonActions(button, 0, executing, dnal)) == dnal
    ensures SentBy(ButtonActions(button, 0, executing, dnal)) == []
  {
  }

  /**
   * After a press the queue is no longer executing, except that SELECT
   * starts a queue that was stopped: SELECT toggles execution.
   */
  lemma ButtonPressExecution(button: nat, value: int, executing: bool, dnal: bool)
    requires value != 0
    ensures button != ButtonSelect ==> !ExecutingAfter(executing, ButtonActions(button, value, executing, dnal))
    ensures button == ButtonSelect ==> ExecutingAfter(executing, ButtonActions(button, value, executing, dnal)) == !executing
  {
    var sw := ButtonSwitch(button, executing, dnal);
    StopFirstEffects(executing, dnal);
    ExecutingOfAppend(executing, StopFirst(executing), sw);
    if button != ButtonSelect {
      ExecutingWithoutStart(sw);
    } else if executing {
      assert sw[..0] == [];
    }
  }

  /** Without an `ExecuteQueue` action a stopped queue stays stopped. */
  lemma {:induction false} ExecutingWithoutStart(acts: seq<Action>)
    requires ExecuteQueue !in acts
    ensures !ExecutingAfter(false, acts)
    decreases |acts|
  {
    if acts != [] {
      var init := acts[..|acts| - 1];
      assert forall a :: a in init ==> a in acts;
      ExecutingWithoutStart(init);
    }
  }

  /** A and B set and clear do-not-auto-land, LEFT_BUMPER_1 toggles it, every other button keeps it. */
  lemma ButtonPressDnal(button: nat, value: int, executing: bool, dnal: bool)
    requires value != 0
    ensures var d := DnalAfter(dnal, ButtonActions(button, value, executing, dnal));
            && (button == ButtonA ==> d)
            && (button == ButtonB ==> !d)
            && (button == ButtonLeftBumper1 ==> d == !dnal)
            && (button != ButtonA && button != ButtonB && button != ButtonLeftBumper1 ==> d == dnal)
  {
    var sw := ButtonSwitch(button, executing, dnal);
    StopFirstEffects(executing, dnal);
    DnalOfAppend(dnal, StopFirst(executing), sw);
    if sw != [] && |sw| == 1 {
      assert sw[..0] == [];
    }
  }

  /** The datagrams a press sends, per button. */
  lemma ButtonPressSends(button: nat, value: int, executing: bool, dnal: bool)
    requires value != 0
    ensures var s := SentBy(ButtonActions(button, value, executing, dnal));
            && (button == ButtonA ==> s == ["takeoff"])
            && (button == ButtonB ==> s == ["land"])
            && (button == ButtonX ==> s == ["streamon"])
            && (button == ButtonY ==> s == ["streamoff"])
            && (button == ButtonStart ==> s == ["command"])
            && (button == ButtonRightBumper1 ==> s == ["stop"])
            && (button == ButtonRightBumper2 ==> s == ["emergency"])
            && (button !in {ButtonA, ButtonB, ButtonX, ButtonY, ButtonStart, ButtonRightBumper1, ButtonRightBumper2} ==> s == [])
  {
    var sw := ButtonSwitch(button, executing, dnal);
    StopFirstEffects(executing, dnal);
    SentOfAppend(StopFirst(executing), sw);
    if button == ButtonA {
      SentOfPair(DoNotAutoLand, Send("takeoff"));
    } else if button == ButtonB {
      SentOfPair(AllowAutoLand, Send("land"));
    } else if sw != [] {
      assert |sw| == 1 && sw[..0] == [];
    }
  }

  lemma SentOfPair(a: Action, b: Action)
    ensures SentBy([a, b]) == SentBy([a]) + SentBy([b])
  {
    assert [a, b] == [a] + [b];
    SentOfAppend([a], [b]);
  }

  lemma {:induction false} ExecutingOfAppend(executing: bool, xs: seq<Action>, ys: seq<Action>)
    ensures ExecutingAfter(executing, xs + ys) == ExecutingAfter(ExecutingAfter(executing, xs), ys)
    decreases |ys|
  {
    if ys == [] {
      assert xs + ys == xs;
    } else {
      var ys' := ys[..|ys| - 1];
      assert (xs + ys)[..|xs + ys| - 1] == xs + ys';
      ExecutingOfAppend(executing, xs, ys');
    }
  }

  lemma {:induction false} DnalOfAppend(dnal: bool, xs: seq<Action>, ys: seq<Action>)
    ensures DnalAfter(dnal, xs + ys) == DnalAfter(DnalAfter(dnal, xs), ys)
    decreases |ys|
  {
    if ys == [] {
      assert xs + ys == xs;
    } else {
      var ys' := ys[..|ys| - 1];
      assert (xs + ys)[..|xs + ys| - 1] == xs + ys';
      DnalOfAppend(dnal, xs, ys');
    }
  }

  lemma {:induction false} SentOfAppend(xs: seq<Action>, ys: seq<Action>)
    ensures SentBy(xs + ys) == SentBy(xs) + SentBy(ys)
    decreases |ys|
  {
    if ys == [] {
      assert xs + ys == xs;
    } else {
      var ys' := ys[..|ys| - 1];
      assert (xs + ys)[..|xs + ys| - 1] == xs + ys';
      SentOfAppend(xs, ys');
    }
  }

  // ---------------------------------------------------------------------
  // Decimal text of integers, as `std::to_string` writes it
  // ---------------------------------------------------------------------

  predicate IsDigit(c: char)
  {
    '0' <= c <= '9'
  }

  function DigitChar(d: nat): (c: char)
    requires d < 10
    ensures IsDigit(c) && c as int - '0' as int == d
  {
    ('0' as int + d) as char
  }

  /** Decimal digits of `n`, most significant first, without leading zeros. */
  function NatToString(n: nat): (s: string)
    ensures |s| >= 1
    ensures forall i :: 0 <= i < |s| ==> IsDigit(s[i])
    ensures |s| > 1 ==> s[0] != '0'
    decreases n
  {
    if n < 10 then [DigitChar(n)]
    else NatToString(n / 10) + [DigitChar(n % 10)]
  }

  /** `std::to_string` of an `int`: a minus sign for negative values, then the digits. */
  function IntToString(x: int): (s: string)
    ensures ' ' !in s
    ensures x < 0 <==> (|s| > 0 && s[0] == '-')
  {
    if x < 0 then "-" + NatToString(-x) else NatToString(x)
  }

  /** The number a string of decimal digits denotes. */
  function DigitsValue(s: string): nat
    requires forall i :: 0 <= i < |s| ==> IsDigit(s[i])
    decreases |s|
  {
    if s == [] then 0
    else
      assert IsDigit(s[|s| - 1]);
      var d: nat := s[|s| - 1] as int - '0' as int;
      DigitsValue(s[..|s| - 1]) * 10 + d
  }

  /** Reads back a decimal integer; `None` for anything that is not one. */
  function ParseInt(s: string): Option<int>
  {
    if |s| >= 2 && s[0] == '-' && (forall i :: 1 <= i < |s| ==> IsDigit(s[i])) then
      Some(0 - DigitsValue(s[1..]))
    else if |s| >= 1 && (forall i :: 0 <= i < |s| ==> IsDigit(s[i])) then
      Some(DigitsValue(s))
    else None
  }

  lemma {:induction false} NatToStringRoundTrip(n: nat)
    ensures DigitsValue(NatToString(n)) == n
    decreases n
  {
    if n >= 10 {
      var s := NatToString(n);
      assert s[..|s| - 1] == NatToString(n / 10);
      NatToStringRoundTrip(n / 10);
    }
  }

  /** The decimal text of an integer reads back as that integer. */
  lemma IntToStringRoundTrip(x: int)
    ensures ParseInt(IntToString(x)) == Some(x)
  {
    if x < 0 {
      var t := NatToString(-x);
      var s := "-" + t;
      assert s[1..] == t;
      assert forall i :: 1 <= i < |s| ==> IsDigit(s[i]) by {
        forall i | 1 <= i < |s| ensures IsDigit(s[i]) {
          assert s[i] == t[i - 1];
        }
      }
      NatToStringRoundTrip(-x);
    } else {
      var s := NatToString(x);
      assert s[0] != '-';
      NatToStringRoundTrip(x);
    }
  }

  // ---------------------------------------------------------------------
  // The `rc` command
  // ---------------------------------------------------------------------

  /** Splits a string at every space. */
  function Fields(s: string): (r: seq<string>)
    ensures |r| >= 1
    decreases |s|
  {
    if s == [] then [""]
    else
      var rest := Fields(s[1..]);
      if s[0] == ' ' then [""] + rest
      else [[s[0]] + rest[0]] + rest[1..]
  }

  lemma {:induction false} FieldsOfWord(x: string)
    requires ' ' !in x
    ensures Fields(x) == [x]
    decreases |x|
  {
    if x != [] {
      FieldsOfWord(x[1..]);
      assert [x[0]] + x[1..] == x;
    }
  }

  lemma {:induction false} FieldsOfJoin(x: string, y: string)
    requires ' ' !in x
    ensures Fields(x + " " + y) == [x] + Fields(y)
    decreases |x|
  {
    if x == [] {
      assert x + " " + y == [' '] + y;
      assert (x + " " + y)[1..] == y;
    } else {
      assert (x + " " + y)[1..] == x[1..] + " " + y;
      FieldsOfJoin(x[1..], y);
      assert [x[0]] + x[1..] == x;
    }
  }

  /** The four arguments of an `rc` command: left/right, forward/backward, up/down, yaw. */
  datatype RcArgs = RcArgs(a: int, b: int, c: int, d: int)

  /** Formats an `rc` command. */
  function RcText(r: RcArgs): string
  {
    "rc " + IntToString(r.a) + " " + IntToString(r.b) + " " + IntToString(r.c) + " " + IntToString(r.d)
  }

  /** Reads an `rc` command back; `None` for any other text. */
  function ParseRc(s: string): Option<RcArgs>
  {
    if |s| < 3 || s[..3] != "rc " then None
    else
      var f := Fields(s[3..]);
      if |f| != 4 then None
      else match (ParseInt(f[0]), ParseInt(f[1]), ParseInt(f[2]), ParseInt(f[3]))
        case (Some(a), Some(b), Some(c), Some(d)) => Some(RcArgs(a, b, c, d))
        case _ => None
  }

  /** Every `rc` command reads back as the arguments it was formatted from. */
  lemma RcTextRoundTrip(r: RcArgs)
    ensures ParseRc(RcText(r)) == Some(r)
  {
    var sa, sb, sc, sd := IntToString(r.a), IntToString(r.b), IntToString(r.c), IntToString(r.d);
    var s := RcText(r);
    assert s[..3] == "rc ";
    assert s[3..] == sa + " " + (sb + " " + (sc + " " + sd));
    FieldsOfJoin(sa, sb + " " + (sc + " " + sd));
    FieldsOfJoin(sb, sc + " " + sd);
    FieldsOfJoin(sc, sd);
    FieldsOfWord(sd);
    IntToStringRoundTrip(r.a);
    IntToStringRoundTrip(r.b);
    IntToStringRoundTrip(r.c);
    IntToStringRoundTrip(r.d);
  }

  /**
   * The stick positions as `rc` arguments: right stick horizontal, right
   * stick vertical negated, left stick vertical negated, left stick
   * horizontal, each scaled to [-100, 100].
   */
  function StickArgs(axes: seq<Int16>): RcArgs
    requires |axes| == 4
  {
    RcArgs(MapConstLimits(axes[2]), -MapConstLimits(axes[3]), -MapConstLimits(axes[1]), MapConstLimits(axes[0]))
  }

  /** The `rc` command built from the current stick positions. */
  function RcCommand(axes: seq<Int16>): string
    requires |axes| == 4
  {
    RcText(StickArgs(axes))
  }

  /** Every `rc` command built from the sticks carries four arguments in [-100, 100], in stick order. */
  lemma RcCommandArgs(axes: seq<Int16>)
    requires |axes| == 4
    ensures ParseRc(RcCommand(axes)) == Some(StickArgs(axes))
    ensures var r := StickArgs(axes);
            && -100 <= r.a <= 100 && -100 <= r.b <= 100
            && -100 <= r.c <= 100 && -100 <= r.d <= 100
  {
    RcTextRoundTrip(StickArgs(axes));
    MapConstLimitsUnwrapped(axes[0]);
    MapConstLimitsUnwrapped(axes[1]);
    MapConstLimitsUnwrapped(axes[2]);
    MapConstLimitsUnwrapped(axes[3]);
  }

  /** Centred sticks give exactly the channel's hover command. */
  lemma CentredSticksHover(axes: seq<Int16>)
    requires |axes| == 4
    requires axes[0] == 0 && axes[1] == 0 && axes[2] == 0 && axes[3] == 0
    ensures RcCommand(axes) == CommandChannel.Hover
  {
    MapConstLimitsUnwrapped(0);
    assert MapConstLimits(0) == 0;
  }

  // ---------------------------------------------------------------------
  // Axes
  // ---------------------------------------------------------------------

  /** The D-pad's command: one of two by the sign of `value`, none at 0. */
  function ByDirection(value: int, positive: string, negative: string): seq<Action>
  {
    if value > 0 then [Send(positive)]
    else if value < 0 then [Send(negative)]
    else []
  }

  /**
   * `jsToCommand(AxisId)`: stop queue execution if it was running, then
   * send the `rc` command for a stick axis, nothing for a trigger axis, and
   * for the D-pad a query (LEFT_BUMPER_2 held, state `lb2`) or a flip.
   * `value` is the moved axis's position and `axes` the four stick positions.
   */
  function AxisActions(axis: nat, value: int, axes: seq<Int16>, lb2: UInt8, executing: bool): seq<Action>
    requires |axes| == 4
  {
    StopFirst(executing) + AxisSwitch(axis, value, axes, lb2)
  }

  /** The switch on the moved axis: at most one send. */
  function AxisSwitch(axis: nat, value: int, axes: seq<Int16>, lb2: UInt8): (r: seq<Action>)
    requires |axes| == 4
    ensures |r| <= 1 && (r != [] ==> r[0].Send?)
  {
    if axis <= AxisRightStickVertical then [Send(RcCommand(axes))]
    else if axis == AxisButtonsHorizontal then
      (if lb2 > 0 then ByDirection(value, "speed?", "battery?") else ByDirection(value, "flip r", "flip l"))
    else if axis == AxisButtonsVertical then
      (if lb2 != 0 then ByDirection(value, "time?", "wifi?") else ByDirection(value, "flip b", "flip f"))
    else []
  }

  /** A single send changes neither flag and puts its command on the wire. */
  lemma AtMostOneSend(executing: bool, dnal: bool, acts: seq<Action>)
    requires |acts| <= 1 && (acts != [] ==> acts[0].Send?)
    ensures ExecutingAfter(executing, acts) == executing
    ensures DnalAfter(dnal, acts) == dnal
    ensures SentBy(acts) == if acts == [] then [] else [acts[0].cmd]
  {
    if acts != [] {
      assert acts[..0] == [];
    }
  }

  /**
   * An axis event leaves the queue stopped and the do-not-auto-land flag
   * unchanged; a stick sends its `rc` command, a trigger sends nothing, the
   * D-pad sends at most one command and nothing when centred.
   */
  lemma AxisEventEffects(axis: nat, value: int, axes: seq<Int16>, lb2: UInt8, executing: bool, dnal: bool)
    requires |axes| == 4
    ensures var acts := AxisActions(axis, value, axes, lb2, executing);
            && !ExecutingAfter(executing, acts)
            && DnalAfter(dnal, acts) == dnal
            && (axis <= AxisRightStickVertical ==> SentBy(acts) == [RcCommand(axes)])
            && (axis == AxisRightBumper2 || axis == AxisLeftBumper2 ==> SentBy(acts) == [])
            && |SentBy(acts)| <= 1
            && (value == 0 && axis >= AxisRightBumper2 ==> SentBy(acts) == [])
  {
    var pre := StopFirst(executing);
    var tail := AxisSwitch(axis, value, axes, lb2);
    StopFirstEffects(executing, dnal);
    AtMostOneSend(false, dnal, tail);
    ExecutingOfAppend(executing, pre, tail);
    DnalOfAppend(dnal, pre, tail);
    SentOfAppend(pre, tail);
  }

  /**
   * With LEFT_BUMPER_2 held the horizontal D-pad asks for the speed (right)
   * or the battery (left); otherwise it flips right or left.
   */
  lemma DpadHorizontalSends(value: int, axes: seq<Int16>, lb2: UInt8, executing: bool)
    requires |axes| == 4 && value != 0
    ensures SentBy(AxisActions(AxisButtonsHorizontal, value, axes, lb2, executing)) ==
            [if lb2 > 0 then (if value > 0 then "speed?" else "battery?")
             else (if value > 0 then "flip r" else "flip l")]
  {
    var pre := StopFirst(executing);
    var tail := AxisSwitch(AxisButtonsHorizontal, value, axes, lb2);
    StopFirstEffects(executing, false);
    AtMostOneSend(false, false, tail);
    SentOfAppend(pre, tail);
  }

  /**
   * With LEFT_BUMPER_2 held the vertical D-pad asks for the flight time
   * (down, positive) or the Wi-Fi signal (up); otherwise it flips back or
   * forward.
   */
  lemma DpadVerticalSends(value: int, axes: seq<Int16>, lb2: UInt8, executing: bool)
    requires |axes| == 4 && value != 0
    ensures SentBy(AxisActions(AxisButtonsVertical, value, axes, lb2, executing)) ==
            [if lb2 != 0 then (if value > 0 then "time?" else "wifi?")
             else (if value > 0 then "flip b" else "flip f")]
  {
    var pre := StopFirst(executing);
    var tail := AxisSwitch(AxisButtonsVertical, value, axes, lb2);
    StopFirstEffects(executing, false);
    AtMostOneSend(false, false, tail);
    SentOfAppend(pre, tail);
  }

  /**
   * The facade: the command channel it builds with no resends and a
   * 5-second reply timeout, the video and telemetry channels, and the
   * gamepad it reads.
   */
  class Tello {
    const cs: CommandChannel.CommandSocket
    const vs: VideoChannel.VideoSocket
    const ss: StateChannel.StateSocket
    const js: Joystick

    ghost predicate Valid()
      reads this, cs, js
    {
      && cs.Valid() && js.Valid()
      && cs.nRetriesAllowed == 0 && cs.timeout == 5
    }

    /** Builds the channels and the gamepad; `now` is the clock at start-up. */
    constructor (now: int)
      ensures Valid()
      ensures fresh(cs) && fresh(vs) && fresh(ss) && fresh(js)
      ensures cs.commandQueue == [] && !cs.executeQueue && !cs.dnal && cs.on && cs.sent == []
      ensures vs.Valid() && vs.receiving && vs.decoded == []
      ensures forall i :: 0 <= i < MaxButtonCount ==> js.buttonValues[i] == 0
      ensures forall i :: 0 <= i < MaxAxisCount ==> js.axisValues[i] == 0
    {
      cs := new CommandChannel.CommandSocket(0, 5, now);
      vs := new VideoChannel.VideoSocket();
      ss := new StateChannel.StateSocket();
      js := new Joystick();
    }

    /** `jsToCommand(ButtonId)`: reads the button's state and applies the button's actions. */
    method JsToCommandButton(button: nat)
      requires Valid() && button < MaxButtonCount
      modifies cs`executeQueue, cs`dnal, cs`nRetries, cs`sent
      ensures Valid()
      ensures var acts := ButtonActions(button, js.buttonValues[button], old(cs.executeQueue), old(cs.dnal));
              && cs.executeQueue == ExecutingAfter(old(cs.executeQueue), acts)
              && cs.dnal == DnalAfter(old(cs.dnal), acts)
              && cs.sent == old(cs.sent) + SentBy(acts)
              && cs.nRetries == if SentBy(acts) == [] then old(cs.nRetries) else 0
    {
      var value := js.GetButtonState(button);
      var check := cs.IsExecutingQueue();
      Perform(cs, ButtonActions(button, value, check, cs.dnal));
    }

    /** The four stick positions, read in the order the `rc` command uses them. */
    method ReadSticks() returns (sticks: seq<Int16>)
      requires js.Valid()
      ensures sticks == js.axisValues[..4]
    {
      var a2 := js.GetValueAxis(2);
      var a3 := js.GetValueAxis(3);
      var a1 := js.GetValueAxis(1);
      var a0 := js.GetValueAxis(0);
      sticks := [a0, a1, a2, a3];
    }

    /** `jsToCommand(AxisId)`: reads the sticks and LEFT_BUMPER_2 and applies the axis's actions. */
    method JsToCommandAxis(axis: nat)
      requires Valid() && axis < MaxAxisCount
      modifies cs`executeQueue, cs`dnal, cs`nRetries, cs`sent
      ensures Valid()
      ensures var acts := AxisActions(axis, js.axisValues[axis], js.axisValues[..4], js.buttonValues[ButtonLeftBumper2], old(cs.executeQueue));
              && cs.executeQueue == ExecutingAfter(old(cs.executeQueue), acts)
              && cs.dnal == DnalAfter(old(cs.dnal), acts)
              && cs.sent == old(cs.sent) + SentBy(acts)
              && cs.nRetries == if SentBy(acts) == [] then old(cs.nRetries) else 0
    {
      var value := js.GetAxisState(axis);
      var sticks := ReadSticks();
      var check := cs.IsExecutingQueue();
      var lb2 := js.GetButtonState(ButtonLeftBumper2);
      Perform(cs, AxisActions(axis, value, sticks, lb2, check));
    }
  }
}
