/** The binary HID RPC protocol: framing of one message, the variable-length macro payload, and the
    big-endian integers inside the fixed-size payloads. */
module HidRpc {
  import opened Common
  import opened KeyBuffer

  const TYPE_POINTER_REPORT: byte := 0x03
  const TYPE_KEYBOARD_MACRO_REPORT: byte := 0x07
  const TYPE_GAMEPAD_REPORT: byte := 0x0A

  datatype Message = Message(t: byte, d: seq<byte>)

  /** An error return, or the run-time panic of an index outside the payload. */
  datatype Error = InvalidType | InvalidLength | Panic

  // ---------- framing ----------

  method Marshal(message: Message) returns (r: Result<seq<byte>, Error>)
    ensures message.t == 0 ==> r == Err(InvalidType)
    ensures message.t != 0 ==> r == Ok([message.t] + message.d)
  {
    if message.t == 0 {
      return Err(InvalidType);
    }
    var data := new byte[|message.d| + 1];
    data[0] := message.t;
    var i := 0;
    while i < |message.d|
      invariant 0 <= i <= |message.d| && data[0] == message.t
      invariant forall j :: 0 <= j < i ==> data[j + 1] == message.d[j]
    {
      data[i + 1] := message.d[i];
      i := i + 1;
    }
    assert data[..] == [message.t] + message.d;
    return Ok(data[..]);
  }

  function Unmarshal(data: seq<byte>): (r: Result<Message, Error>)
    ensures r.Ok? <==> |data| > 0
    ensures forall m: Message :: data == [m.t] + m.d ==> r == Ok(m)
  {
    if |data| < 1 then Err(InvalidLength) else Ok(Message(data[0], data[1..]))
  }

  /** Unmarshal undoes Marshal on every message Marshal accepts, and Marshal undoes Unmarshal on every
      frame with a non-zero type. */
  method FrameRoundTrip(m: Message, data: seq<byte>) returns (back: Result<Message, Error>, again: Result<seq<byte>, Error>)
    requires m.t != 0 && |data| > 0 && data[0] != 0
    ensures back == Ok(m) && again == Ok(data)
  {
    var frame := Marshal(m);
    back := Unmarshal(frame.value);
    assert data == [data[0]] + data[1..];
    again := Marshal(Unmarshal(data).value);
  }

  // ---------- big-endian integers ----------

  function ToInt(b: seq<byte>): (n: int)
    requires |b| == 4
    ensures 0 <= n < 0x1_0000_0000
  {
    (b[0] as int) * 0x100_0000 + (b[1] as int) * 0x1_0000 + (b[2] as int) * 0x100 + b[3] as int
  }

  /** The high byte comes first. */
  lemma HighByteFirst(a: byte, b: byte, c: byte, d: byte)
    ensures var n := 16_777_216 * a + 65_536 * b + 256 * c + d;
            0 <= n < 0x1_0000_0000 && ToInt([a, b, c, d]) == n && PutUint32(n) == [a, b, c, d]
    ensures ToInt16([c, d]) == 256 * c + d && PutUint16(256 * c + d) == [c, d]
  {
    var n := 16_777_216 * a + 65_536 * b + 256 * c + d;
    assert ToInt([a, b, c, d]) == n;
    ToIntInjective(PutUint32(n), [a, b, c, d]);
  }

  lemma Digits(n: int)
    requires 0 <= n < 0x1_0000_0000
    ensures 0 <= n / 0x100_0000 < 0x100
    ensures n == n / 0x100_0000 * 0x100_0000 + n / 0x1_0000 % 0x100 * 0x1_0000 + n / 0x100 % 0x100 * 0x100 + n % 0x100
  {
    var a, b := n / 0x100, n / 0x1_0000;
    assert n == a * 0x100 + n % 0x100;
    assert b == a / 0x100 && a == b * 0x100 + a % 0x100;
    assert n / 0x100_0000 == b / 0x100 && b == b / 0x100 * 0x100 + b % 0x100;
  }

  function PutUint32(n: int): (b: seq<byte>)
    requires 0 <= n < 0x1_0000_0000
    ensures |b| == 4 && ToInt(b) == n
  {
    Digits(n);
    [n / 0x100_0000, n / 0x1_0000 % 0x100, n / 0x100 % 0x100, n % 0x100]
  }

  function ToInt16(b: seq<byte>): (n: int)
    requires |b| == 2
    ensures 0 <= n < 0x1_0000
  {
    (b[0] as int) * 0x100 + b[1] as int
  }

  function PutUint16(n: int): (b: seq<byte>)
    requires 0 <= n < 0x1_0000
    ensures |b| == 2 && ToInt16(b) == n
  {
    [n / 0x100, n % 0x100]
  }

  lemma ToIntInjective(a: seq<byte>, b: seq<byte>)
    requires |a| == |b| == 4 && ToInt(a) == ToInt(b)
    ensures a == b
  {
    LastDigit(High(a), a[3] as int, High(b), b[3] as int);
    LastDigit((a[0] as int) * 0x100 + a[1] as int, a[2] as int, (b[0] as int) * 0x100 + b[1] as int, b[2] as int);
    LastDigit(a[0] as int, a[1] as int, b[0] as int, b[1] as int);
    assert a == [a[0], a[1], a[2], a[3]] && b == [b[0], b[1], b[2], b[3]];
  }

  /** All but the last digit. */
  function High(b: seq<byte>): int
    requires |b| == 4
  {
    ((b[0] as int) * 0x100 + b[1] as int) * 0x100 + b[2] as int
  }

  lemma LastDigit(a: int, x: int, b: int, y: int)
    requires a * 0x100 + x == b * 0x100 + y && 0 <= x < 0x100 && 0 <= y < 0x100
    ensures a == b && x == y
  {
  }

  // ---------- keyboard macros ----------

  const STEP_SIZE: nat := 1 + SLOTS + 2

  datatype MacroStep = MacroStep(modifier: byte, keys: seq<byte>, delay: int)

  datatype Macro = Macro(isPaste: bool, stepCount: int, steps: seq<MacroStep>)

  predicate WellFormed(s: MacroStep) {
    |s.keys| == SLOTS && 0 <= s.delay < 0x1_0000
  }

  function EncodeStep(s: MacroStep): (b: seq<byte>)
    requires WellFormed(s)
    ensures |b| == STEP_SIZE
  {
    [s.modifier] + s.keys + PutUint16(s.delay)
  }

  function EncodeSteps(steps: seq<MacroStep>): (b: seq<byte>)
    requires forall s :: s in steps ==> WellFormed(s)
    ensures |b| == STEP_SIZE * |steps|
  {
    if steps == [] then [] else
    EncodeStep(steps[0]) + EncodeSteps(steps[1..])
  }

  /** The layout of a macro payload: flag, step count, then nine bytes a step. */
  function EncodeMacro(isPaste: bool, steps: seq<MacroStep>): (b: seq<byte>)
    requires |steps| < 0x1_0000_0000 && forall s :: s in steps ==> WellFormed(s)
    ensures |b| == 5 + STEP_SIZE * |steps|
  {
    [if isPaste then 1 else 0] + PutUint32(|steps|) + EncodeSteps(steps)
  }

  function StepAt(d: seq<byte>, offset: nat): (s: MacroStep)
    requires offset + STEP_SIZE <= |d|
    ensures WellFormed(s) && EncodeStep(s) == d[offset..offset + STEP_SIZE]
  {
    MacroStep(d[offset], d[offset + 1..offset + 7], ToInt16(d[offset + 7..offset + 9]))
  }

  lemma EncodeStepsAppend(steps: seq<MacroStep>, s: MacroStep)
    requires WellFormed(s) && forall x :: x in steps ==> WellFormed(x)
    ensures EncodeSteps(steps + [s]) == EncodeSteps(steps) + EncodeStep(s)
  {
    if steps == [] {
      assert steps + [s] == [s];
    } else {
      EncodeStepsAppend(steps[1..], s);
      assert (steps + [s])[1..] == steps[1..] + [s];
    }
  }

  lemma {:induction false} EncodeStepsInjective(a: seq<MacroStep>, b: seq<MacroStep>)
    requires |a| == |b|
    requires (forall s :: s in a ==> WellFormed(s)) && (forall s :: s in b ==> WellFormed(s))
    requires EncodeSteps(a) == EncodeSteps(b)
    ensures a == b
  {
    if a != [] {
      var x, y := EncodeSteps(a), EncodeSteps(b);
      assert EncodeStep(a[0]) == x[..STEP_SIZE] == y[..STEP_SIZE] == EncodeStep(b[0]);
      EncodeStepInjective(a[0], b[0]);
      assert EncodeSteps(a[1..]) == x[STEP_SIZE..] == y[STEP_SIZE..] == EncodeSteps(b[1..]);
      EncodeStepsInjective(a[1..], b[1..]);
    }
  }

  lemma EncodeStepInjective(a: MacroStep, b: MacroStep)
    requires WellFormed(a) && WellFormed(b) && EncodeStep(a) == EncodeStep(b)
    ensures a == b
  {
    var x, y := EncodeStep(a), EncodeStep(b);
    assert a.modifier == x[0] == y[0] == b.modifier;
    assert a.keys == x[1..7] == y[1..7] == b.keys;
    assert PutUint16(a.delay) == x[7..9] == y[7..9] == PutUint16(b.delay);
  }

  /** What an accepted payload means: its bytes are the layout of its steps, up to the flag byte, of which
      only the value 1 reads as a paste. */
  ghost predicate Describes(m: Macro, d: seq<byte>) {
    && |d| > 0 && m.stepCount == |m.steps| < 0x1_0000_0000
    && (forall s :: s in m.steps ==> WellFormed(s))
    && (m.isPaste <==> d[0] == 1)
    && d[1..] == EncodeMacro(m.isPaste, m.steps)[1..]
  }

  /** The width of the target's int: the shipped firmware runs on a 32-bit core. */
  datatype IntWidth = W32 | W64

  function Half(w: IntWidth): int {
    if w == W32 then 0x8000_0000 else 0x8000_0000_0000_0000
  }

  /** Two's-complement wrap-around to the target's int. */
  function Wrap(w: IntWidth, x: int): (r: int)
    ensures -Half(w) <= r < Half(w)
    ensures -Half(w) <= x < Half(w) ==> r == x
  {
    (x + Half(w)) % (2 * Half(w)) - Half(w)
  }

  /** The length the parser compares against, as the target computes it. */
  function ExpectedLength(w: IntWidth, stepCount: int): int {
    Wrap(w, Wrap(w, stepCount) * 9 + 5)
  }

  /** The step at this place of a payload: a modifier byte, six usages, and the delay, high byte first. */
  predicate IsStepAt(d: seq<byte>, i: nat, s: MacroStep) {
    var at := 5 + 9 * i;
    && at + 9 <= |d|
    && s.modifier == d[at] && s.keys == d[at + 1..at + 7] && s.delay == 256 * (d[at + 7] as int) + d[at + 8] as int
  }

  lemma StepCountIs(d: seq<byte>)
    requires |d| >= 5
    ensures StepCount(d) == ToInt(d[1..5])
  {
  }

  lemma StepIsThere(d: seq<byte>, i: nat)
    requires 5 + 9 * i + 9 <= |d|
    ensures IsStepAt(d, i, StepAt(d, 5 + 9 * i))
  {
  }

  lemma JoinSlices(d: seq<byte>, a: nat, b: nat, c: nat)
    requires a <= b <= c <= |d|
    ensures d[a..b] + d[b..c] == d[a..c]
  {
  }

  /** The step count in the payload's header, high byte first. */
  function StepCount(d: seq<byte>): int
    requires |d| >= 5
  {
    16_777_216 * (d[1] as int) + 65_536 * (d[2] as int) + 256 * (d[3] as int) + d[4] as int
  }

  /** The offset loop: it reads the steps behind the header, or runs off the payload when that is too short. */
  method ParseSteps(d: seq<byte>, stepCount: nat) returns (r: Result<seq<MacroStep>, Error>)
    requires |d| >= 5
    ensures r.Ok? <==> 5 + STEP_SIZE * stepCount <= |d|
    ensures r.Ok? ==> |r.value| == stepCount && (forall s :: s in r.value ==> WellFormed(s))
    ensures r.Ok? ==> EncodeSteps(r.value) == d[5..5 + STEP_SIZE * stepCount]
    ensures r.Ok? ==> forall i :: 0 <= i < stepCount ==> IsStepAt(d, i, r.value[i])
    ensures r.Err? ==> r.error == Panic
  {
    var steps := [];
    var offset := 5;
    var i := 0;
    while i < stepCount
      invariant 0 <= i <= stepCount && offset == 5 + STEP_SIZE * i <= |d| && |steps| == i
      invariant forall s :: s in steps ==> WellFormed(s)
      invariant EncodeSteps(steps) == d[5..offset]
      invariant forall j :: 0 <= j < i ==> IsStepAt(d, j, steps[j])
    {
      if offset + STEP_SIZE > |d| {
        return Err(Panic);
      }
      var s := StepAt(d, offset);
      EncodeStepsAppend(steps, s);
      StepIsThere(d, i);
      JoinSlices(d, 5, offset, offset + STEP_SIZE);
      steps := steps + [s];
      offset := offset + STEP_SIZE;
      i := i + 1;
    }
    return Ok(steps);
  }

  /** The payload parser. It accepts exactly the payloads of 5 + 9n bytes, n being their step count, and
      returns the steps laid out in them. It panics on a payload too short for the header, and on one whose
      length only agrees with the step count after wrap-around; everything else is an error. */
  method KeyboardMacroReport(w: IntWidth, m: Message) returns (r: Result<Macro, Error>)
    requires |m.d| < Half(w)
    ensures m.t != 0x07 ==> r == Err(InvalidType)
    ensures m.t == 0x07 && |m.d| < 5 ==> r == Err(Panic)
    ensures m.t == 0x07 && |m.d| >= 5 ==>
      if |m.d| == 5 + 9 * StepCount(m.d) then
        && r.Ok? && Describes(r.value, m.d) && |r.value.steps| == StepCount(m.d) && (r.value.isPaste <==> m.d[0] == 1)
        && forall i :: 0 <= i < |r.value.steps| ==> IsStepAt(m.d, i, r.value.steps[i])
      else r == Err(if |m.d| == ExpectedLength(w, StepCount(m.d)) then Panic else InvalidLength)
  {
    if m.t != TYPE_KEYBOARD_MACRO_REPORT {
      return Err(InvalidType);
    }
    if |m.d| < 5 {
      return Err(Panic);
    }
    var isPaste := m.d[0] == 1;
    var stepCount := ToInt(m.d[1..5]);
    StepCountIs(m.d);
    var expectedLength := Wrap(w, Wrap(w, stepCount) * 9 + 5);
    if |m.d| != expectedLength {
      return Err(InvalidLength);
    }
    if Wrap(w, stepCount) < 0 {
      return Err(Panic);
    }
    var steps := ParseSteps(m.d, stepCount);
    if steps.Err? {
      return Err(steps.error);
    }
    r := Ok(Macro(isPaste, stepCount, steps.value));
    LayoutFromParts(r.value, m.d);
  }

  lemma LayoutFromParts(m: Macro, d: seq<byte>)
    requires |d| >= 5 && m.stepCount == |m.steps| == ToInt(d[1..5])
    requires forall s :: s in m.steps ==> WellFormed(s)
    requires EncodeSteps(m.steps) == d[5..]
    ensures d[1..] == EncodeMacro(m.isPaste, m.steps)[1..]
  {
    ToIntInjective(PutUint32(m.stepCount), d[1..5]);
    assert d[1..] == d[1..5] + d[5..];
    assert EncodeMacro(m.isPaste, m.steps)[1..] == PutUint32(m.stepCount) + EncodeSteps(m.steps);
  }

  /** The length check is exact on a 64-bit int, and on a 32-bit int exactly for step counts whose layout
      is shorter than 2^31 bytes; only there does the offset loop always stay inside the payload. */
  lemma LengthCheckExactIff(w: IntWidth, stepCount: int)
    requires 0 <= stepCount < 0x1_0000_0000
    ensures ExpectedLength(w, stepCount) == 5 + 9 * stepCount <==> w == W64 || 5 + 9 * stepCount < Half(W32)
  {
  }

  /** A payload of ten bytes that claims 477218589 steps passes the check on a 32-bit int and panics in the loop. */
  method WrappedLengthPanics(step: seq<byte>) returns (r: Result<Macro, Error>)
    requires |step| == 5
    ensures r == Err(Panic)
  {
    var d := [0] + PutUint32(477218589) + step;
    assert d[1..5] == PutUint32(477218589);
    StepCountIs(d);
    r := KeyboardMacroReport(W32, Message(TYPE_KEYBOARD_MACRO_REPORT, d));
  }

  /** A payload describes one macro only. */
  lemma DescribesOne(a: Macro, b: Macro, d: seq<byte>)
    requires Describes(a, d) && Describes(b, d)
    ensures a == b
  {
    var x, y := EncodeMacro(a.isPaste, a.steps), EncodeMacro(b.isPaste, b.steps);
    var tx, ty := x[1..], y[1..];
    assert tx == PutUint32(|a.steps|) + EncodeSteps(a.steps);
    assert ty == PutUint32(|b.steps|) + EncodeSteps(b.steps);
    assert PutUint32(|a.steps|) == tx[..4] == ty[..4] == PutUint32(|b.steps|);
    assert EncodeSteps(a.steps) == tx[4..] == ty[4..] == EncodeSteps(b.steps);
    EncodeStepsInjective(a.steps, b.steps);
  }

  /** Round trip from the steps: parsing the layout of any list of six-key steps returns exactly it. */
  method ParseOfLayout(w: IntWidth, isPaste: bool, steps: seq<MacroStep>) returns (r: Result<Macro, Error>)
    requires |steps| < 0x1_0000_0000 && forall s :: s in steps ==> WellFormed(s)
    requires 5 + STEP_SIZE * |steps| < Half(w)
    ensures r == Ok(Macro(isPaste, |steps|, steps))
  {
    var d := EncodeMacro(isPaste, steps);
    assert d[1..5] == PutUint32(|steps|);
    StepCountIs(d);
    assert Describes(Macro(isPaste, |steps|, steps), d);
    r := KeyboardMacroReport(w, Message(TYPE_KEYBOARD_MACRO_REPORT, d));
    DescribesOne(r.value, Macro(isPaste, |steps|, steps), d);
  }

  /** Round trip from the bytes: re-encoding an accepted payload returns it exactly when its flag byte
      is 0 or 1. */
  lemma LayoutOfParseIff(m: Macro, d: seq<byte>)
    requires Describes(m, d)
    ensures EncodeMacro(m.isPaste, m.steps) == d <==> d[0] == 0 || d[0] == 1
  {
    var e := EncodeMacro(m.isPaste, m.steps);
    assert e == [e[0]] + e[1..] && d == [d[0]] + d[1..];
  }

  // ---------- fixed-size payloads ----------

  datatype Pointer = Pointer(x: int, y: int, button: byte)

  /** Four bytes added up in the target's int: on a 32-bit core the top bit is the sign. */
  function Coordinate(w: IntWidth, b: seq<byte>): int
    requires |b| == 4
  {
    Wrap(w, ToInt(b))
  }

  predicate IsCoordinate(w: IntWidth, x: int) {
    if w == W32 then -0x8000_0000 <= x < 0x8000_0000 else 0 <= x < 0x1_0000_0000
  }

  /** The bytes of a coordinate, two's complement where it is negative. */
  function PutCoordinate(x: int): (b: seq<byte>)
    ensures |b| == 4
  {
    PutUint32(x % 0x1_0000_0000)
  }

  lemma WrapIff(w: IntWidth, n: int, x: int)
    requires 0 <= n < 0x1_0000_0000
    ensures Wrap(w, n) == x <==> IsCoordinate(w, x) && n == x % 0x1_0000_0000
  {
    assert Wrap(w, n) == if w == W32 && n >= 0x8000_0000 then n - 0x1_0000_0000 else n;
  }

  lemma CoordinateIff(w: IntWidth, b: seq<byte>, x: int)
    requires |b| == 4
    ensures Coordinate(w, b) == x <==> IsCoordinate(w, x) && b == PutCoordinate(x)
  {
    WrapIff(w, ToInt(b), x);
    if ToInt(b) == x % 0x1_0000_0000 {
      ToIntInjective(b, PutCoordinate(x));
    }
  }

  function PointerReport(w: IntWidth, m: Message): Result<Pointer, Error> {
    if m.t != TYPE_POINTER_REPORT then Err(InvalidType)
    else if |m.d| != 9 then Err(InvalidLength)
    else Ok(Pointer(Coordinate(w, m.d[0..4]), Coordinate(w, m.d[4..8]), m.d[8]))
  }

  /** A pointer payload is accepted exactly when it is the layout of the returned report; so a coordinate survives
      the trip exactly when the target's int can hold it. */
  lemma PointerReportIff(w: IntWidth, m: Message, p: Pointer)
    ensures PointerReport(w, m) == Ok(p) <==>
            && IsCoordinate(w, p.x) && IsCoordinate(w, p.y)
            && m == Message(0x03, PutCoordinate(p.x) + PutCoordinate(p.y) + [p.button])
  {
    var d := PutCoordinate(p.x) + PutCoordinate(p.y) + [p.button];
    assert d[0..4] == PutCoordinate(p.x) && d[4..8] == PutCoordinate(p.y);
    if |m.d| == 9 {
      CoordinateIff(w, m.d[0..4], p.x);
      CoordinateIff(w, m.d[4..8], p.y);
      assert m.d == m.d[0..4] + m.d[4..8] + [m.d[8]];
    }
  }

  datatype Gamepad = Gamepad(pad: byte, axes: seq<byte>, buttons: int)

  function GamepadReport(m: Message): Result<Gamepad, Error> {
    if m.t != TYPE_GAMEPAD_REPORT then Err(InvalidType)
    else if |m.d| != 11 then Err(InvalidLength)
    else Ok(Gamepad(m.d[0], m.d[1..7], ToInt(m.d[7..11])))
  }

  lemma GamepadReportIff(m: Message, g: Gamepad)
    requires |g.axes| == 6 && 0 <= g.buttons < 0x1_0000_0000
    ensures GamepadReport(m) == Ok(g) <==>
            m == Message(0x0A, [g.pad] + g.axes + PutUint32(g.buttons))
  {
    var d := [g.pad] + g.axes + PutUint32(g.buttons);
    assert d[1..7] == g.axes && d[7..11] == PutUint32(g.buttons);
    if GamepadReport(m) == Ok(g) {
      ToIntInjective(m.d[7..11], PutUint32(g.buttons));
      assert m.d == [m.d[0]] + m.d[1..7] + m.d[7..11];
    }
  }
}
