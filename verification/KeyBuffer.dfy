/** The keyboard's six-slot key buffer: how one key event turns the tracked state
    into the HID report that is sent and into the next tracked state. */
module KeyBuffer {
  import opened Common

  const SLOTS: nat := 6
  const ROLL_OVER: byte := 1

  datatype KeysDown = KeysDown(modifier: bv8, keys: seq<byte>)

  function ModifierMask(key: byte): Option<bv8> {
    match key
    case 0xE0 => Some(0x01)
    case 0xE1 => Some(0x02)
    case 0xE2 => Some(0x04)
    case 0xE3 => Some(0x08)
    case 0xE4 => Some(0x10)
    case 0xE5 => Some(0x20)
    case 0xE6 => Some(0x40)
    case 0xE7 => Some(0x80)
    case _ => None
  }

  predicate IsModifier(key: byte) {
    ModifierMask(key).Some?
  }

  function Fill(n: nat, v: byte): (s: seq<byte>)
    ensures |s| == n && forall i :: 0 <= i < n ==> s[i] == v
  {
    seq(n, _ => v)
  }

  /** The first slot that holds the key or is empty; |keys| when there is none. */
  function FirstSlot(keys: seq<byte>, key: byte): (i: nat)
    ensures i <= |keys|
    ensures i < |keys| ==> keys[i] == key || keys[i] == 0
    ensures forall j :: 0 <= j < i ==> keys[j] != key && keys[j] != 0
  {
    if keys == [] || keys[0] == key || keys[0] == 0 then 0 else 1 + FirstSlot(keys[1..], key)
  }

  function PressKeys(keys: seq<byte>, key: byte): (r: seq<byte>)
    ensures |r| == |keys|
  {
    var i := FirstSlot(keys, key);
    if i < |keys| then keys[i := key] else Fill(|keys|, ROLL_OVER)
  }

  function ReleaseKeys(keys: seq<byte>, key: byte): (r: seq<byte>)
    ensures |r| == |keys|
  {
    var i := FirstSlot(keys, key);
    if i < |keys| && keys[i] != 0 then keys[..i] + keys[i + 1..] + [0] else keys
  }

  /** The report written to the HID device for one key event. */
  function ReportFor(down: KeysDown, key: byte, press: bool): (r: KeysDown)
    ensures |r.keys| == |down.keys|
  {
    match ModifierMask(key)
    case Some(mask) => down.(modifier := if press then down.modifier | mask else down.modifier & !mask)
    case None => down.(keys := if press then PressKeys(down.keys, key) else ReleaseKeys(down.keys, key))
  }

  /** The state tracked after a report: a report whose first slot is ErrorRollOver leaves no key held. */
  function Settle(report: KeysDown): (r: KeysDown)
    requires |report.keys| > 0
    ensures |r.keys| == |report.keys| && r.keys[0] != ROLL_OVER
  {
    if report.keys[0] == ROLL_OVER then report.(keys := Fill(|report.keys|, 0)) else report
  }

  function KeyStep(down: KeysDown, key: byte, press: bool): (r: KeysDown)
    requires |down.keys| > 0
    ensures |r.keys| == |down.keys| && r.keys[0] != ROLL_OVER
  {
    Settle(ReportFor(down, key, press))
  }

  /** A raw report's key list cut or zero-padded to the six slots. */
  function Fit(keys: seq<byte>): (r: seq<byte>)
    ensures |r| == 6
    ensures forall i :: 0 <= i < 6 ==> r[i] == if i < |keys| then keys[i] else 0
  {
    if |keys| > SLOTS then keys[..SLOTS] else keys + Fill(SLOTS - |keys|, 0)
  }

  // ---------- the abstract value: an ordered set of at most six usages ----------

  predicate OrderedSet(s: seq<byte>) {
    |s| <= SLOTS
    && (forall i :: 0 <= i < |s| ==> s[i] > ROLL_OVER)
    && (forall i, j :: 0 <= i < j < |s| ==> s[i] != s[j])
  }

  /** The packed buffer that represents an ordered set. */
  function Buffer(s: seq<byte>): (keys: seq<byte>)
    requires |s| <= SLOTS
    ensures |keys| == SLOTS
    ensures forall i :: 0 <= i < SLOTS ==> keys[i] == if i < |s| then s[i] else 0
  {
    s + Fill(SLOTS - |s|, 0)
  }

  function Without(s: seq<byte>, key: byte): (r: seq<byte>)
    ensures |r| <= |s|
    ensures forall k :: k in r <==> k in s && k != key
  {
    if s == [] then [] else (if s[0] == key then [] else [s[0]]) + Without(s[1..], key)
  }

  /** What a keyboard user expects of one event: press appends, release removes in place,
      a seventh key drops everything. */
  function Expected(s: seq<byte>, key: byte, press: bool): seq<byte> {
    if !press then Without(s, key)
    else if key in s then s
    else if |s| < SLOTS then s + [key]
    else []
  }

  lemma {:induction false} WithoutAbsent(s: seq<byte>, key: byte)
    requires key !in s
    ensures Without(s, key) == s
  {
    if s != [] {
      WithoutAbsent(s[1..], key);
    }
  }

  lemma {:induction false} WithoutAt(s: seq<byte>, i: nat)
    requires i < |s|
    requires forall j :: 0 <= j < |s| && j != i ==> s[j] != s[i]
    ensures Without(s, s[i]) == s[..i] + s[i + 1..]
  {
    if i == 0 {
      WithoutAbsent(s[1..], s[0]);
    } else {
      WithoutAt(s[1..], i - 1);
      assert s[..i] + s[i + 1..] == [s[0]] + (s[1..][..i - 1] + s[1..][i..]);
    }
  }

  /** FirstSlot is the only slot with its specification. */
  lemma FirstSlotIs(keys: seq<byte>, key: byte, i: nat)
    requires i <= |keys|
    requires i < |keys| ==> keys[i] == key || keys[i] == 0
    requires forall j :: 0 <= j < i ==> keys[j] != key && keys[j] != 0
    ensures FirstSlot(keys, key) == i
  {
  }

  lemma WithoutKeepsOrder(s: seq<byte>, key: byte)
    requires OrderedSet(s)
    ensures OrderedSet(Without(s, key))
  {
    if key in s {
      var i :| 0 <= i < |s| && s[i] == key;
      WithoutAt(s, i);
      DropKeepsOrder(s, i);
    } else {
      WithoutAbsent(s, key);
    }
  }

  lemma DropKeepsOrder(s: seq<byte>, i: nat)
    requires OrderedSet(s) && i < |s|
    ensures OrderedSet(s[..i] + s[i + 1..])
  {
    var r := s[..i] + s[i + 1..];
    assert forall j :: 0 <= j < |r| ==> r[j] == s[if j < i then j else j + 1];
  }

  lemma PressOnPacked(s: seq<byte>, key: byte)
    requires OrderedSet(s) && key > ROLL_OVER
    ensures PressKeys(Buffer(s), key) ==
            if key !in s && |s| == SLOTS then Fill(SLOTS, ROLL_OVER) else Buffer(Expected(s, key, true))
    ensures OrderedSet(Expected(s, key, true))
  {
    var keys := Buffer(s);
    if key in s {
      var i :| 0 <= i < |s| && s[i] == key;
      FirstSlotIs(keys, key, i);
      assert keys[i := key] == keys;
    } else {
      FirstSlotIs(keys, key, |s|);
      if |s| < SLOTS {
        assert keys[|s| := key] == Buffer(s + [key]);
      }
    }
  }

  lemma ShiftOut(s: seq<byte>, i: nat)
    requires i < |s| <= SLOTS
    ensures Buffer(s)[..i] + Buffer(s)[i + 1..] + [0] == Buffer(s[..i] + s[i + 1..])
  {
    var zeros := Fill(SLOTS - |s|, 0);
    assert Buffer(s)[..i] == s[..i];
    assert Buffer(s)[i + 1..] == s[i + 1..] + zeros;
    assert zeros + [0] == Fill(SLOTS - |s| + 1, 0);
  }

  lemma ReleaseOnPacked(s: seq<byte>, key: byte)
    requires OrderedSet(s) && key > ROLL_OVER
    ensures ReleaseKeys(Buffer(s), key) == Buffer(Without(s, key))
  {
    var keys := Buffer(s);
    if key in s {
      var i :| 0 <= i < |s| && s[i] == key;
      FirstSlotIs(keys, key, i);
      WithoutAt(s, i);
      ShiftOut(s, i);
    } else {
      FirstSlotIs(keys, key, |s|);
      WithoutAbsent(s, key);
    }
  }

  /** One event on a packed buffer of real usages is exactly the ordered-set operation, and the
      report sent is the tracked state except for the seventh key, which sends six ErrorRollOver. */
  lemma KeyStepRefinesOrderedSet(m: bv8, s: seq<byte>, key: byte, press: bool)
    requires OrderedSet(s) && key > ROLL_OVER && !IsModifier(key)
    ensures OrderedSet(Expected(s, key, press))
    ensures KeyStep(KeysDown(m, Buffer(s)), key, press) == KeysDown(m, Buffer(Expected(s, key, press)))
    ensures ReportFor(KeysDown(m, Buffer(s)), key, press) ==
            if press && key !in s && |s| == SLOTS then KeysDown(m, Fill(SLOTS, ROLL_OVER))
            else KeyStep(KeysDown(m, Buffer(s)), key, press)
  {
    WithoutKeepsOrder(s, key);
    PressOnPacked(s, key);
    ReleaseOnPacked(s, key);
    assert Buffer([]) == Fill(SLOTS, 0);
  }

  lemma PressAlone(m: bv8, key: byte)
    requires key > ROLL_OVER && !IsModifier(key)
    ensures KeyStep(KeysDown(m, Buffer([])), key, true) == KeysDown(m, Buffer([key]))
  {
    KeyStepRefinesOrderedSet(m, [], key, true);
    assert Expected([], key, true) == [key];
  }

  lemma ReleaseAlone(m: bv8, key: byte)
    requires key > ROLL_OVER && !IsModifier(key)
    ensures KeyStep(KeysDown(m, Buffer([key])), key, false) == KeysDown(m, Buffer([]))
  {
    KeyStepRefinesOrderedSet(m, [key], key, false);
    assert Without([key], key) == [];
  }

  lemma ModifierBits(key: byte)
    ensures ModifierMask(key) == if 0xE0 <= key <= 0xE7 then Some((1 as bv8) << (key - 0xE0)) else None
  {
  }

  /** The usages 0xE0 to 0xE7 are the bits of the modifier byte in order: a press sets the usage's bit, a release clears
      it, and the slots stay, in the report sent and in the state tracked. */
  lemma ModifierTogglesItsBit(down: KeysDown, key: byte, press: bool)
    requires 0xE0 <= key <= 0xE7
    ensures var bit := (1 as bv8) << (key - 0xE0);
            var r := ReportFor(down, key, press);
            && r.keys == down.keys
            && r.modifier == (if press then down.modifier | bit else down.modifier & !bit)
            && (|down.keys| > 0 && down.keys[0] != 1 ==> KeyStep(down, key, press) == r)
  {
    ModifierBits(key);
  }

  /** Every other usage leaves the modifier byte alone and edits the slots: a press puts the key into the first slot that
      is empty or has it, and without one the report is all 0x01; a release shifts the key out of that slot. */
  lemma OtherUsageEditsSlots(down: KeysDown, key: byte, press: bool, i: nat)
    requires (key < 0xE0 || 0xE7 < key) && i <= |down.keys|
    requires i < |down.keys| ==> down.keys[i] == key || down.keys[i] == 0
    requires forall j :: 0 <= j < i ==> down.keys[j] != key && down.keys[j] != 0
    ensures var r := ReportFor(down, key, press);
            && r.modifier == down.modifier && |r.keys| == |down.keys|
            && (press && i < |r.keys| ==> r.keys == down.keys[i := key])
            && (press && i == |r.keys| ==> forall b :: b in r.keys ==> b == 1)
            && (!press ==> r.keys == if i < |r.keys| && down.keys[i] != 0 then down.keys[..i] + down.keys[i + 1..] + [0]
                                     else down.keys)
    ensures |down.keys| > 0 ==> KeyStep(down, key, press).modifier == down.modifier
  {
    ModifierBits(key);
    FirstSlotIs(down.keys, key, i);
  }

  /** Six keys are the most that are held: the press of a seventh is reported as six 0x01 and tracked as no key. */
  lemma SeventhKeyRollsOver(down: KeysDown, key: byte)
    requires (key < 0xE0 || 0xE7 < key) && |down.keys| == 6 && key !in down.keys && 0 !in down.keys
    ensures ReportFor(down, key, true) == KeysDown(down.modifier, [1, 1, 1, 1, 1, 1])
    ensures KeyStep(down, key, true) == KeysDown(down.modifier, [0, 0, 0, 0, 0, 0])
  {
    OtherUsageEditsSlots(down, key, true, 6);
  }

  // ---------- whole runs of key events ----------

  datatype KeyEvent = KeyEvent(key: byte, press: bool)

  /** The tracked states a run passes through, last one included. */
  function Typed(down: KeysDown, events: seq<KeyEvent>): (r: KeysDown)
    requires |down.keys| > 0
    ensures |r.keys| == |down.keys|
    decreases |events|
  {
    if events == [] then down else Typed(KeyStep(down, events[0].key, events[0].press), events[1..])
  }

  function ExpectedTyped(s: seq<byte>, events: seq<KeyEvent>): seq<byte>
    decreases |events|
  {
    if events == [] then s
    else ExpectedTyped(
        if IsModifier(events[0].key) then s else Expected(s, events[0].key, events[0].press), events[1..])
  }

  predicate RealUsages(events: seq<KeyEvent>) {
    forall i :: 0 <= i < |events| ==> events[i].key > ROLL_OVER
  }

  /** From a packed buffer, every run of key events on real usages tracks the ordered set of held
      keys; packing, absence of duplicates and the length six therefore hold in every reachable state. */
  lemma {:induction false} TypedRefinesOrderedSet(down: KeysDown, s: seq<byte>, events: seq<KeyEvent>)
    requires OrderedSet(s) && down.keys == Buffer(s) && RealUsages(events)
    ensures OrderedSet(ExpectedTyped(s, events))
    ensures Typed(down, events).keys == Buffer(ExpectedTyped(s, events))
    decreases |events|
  {
    if events != [] {
      var e := events[0];
      if !IsModifier(e.key) {
        KeyStepRefinesOrderedSet(down.modifier, s, e.key, e.press);
        TypedRefinesOrderedSet(KeyStep(down, e.key, e.press), Expected(s, e.key, e.press), events[1..]);
      } else {
        TypedRefinesOrderedSet(KeyStep(down, e.key, e.press), s, events[1..]);
      }
    }
  }

  // ---------- where the buffer code does not meet the ordered-set reading ----------

  /** On an arbitrary six-slot buffer a release gets rid of the key exactly when the key is absent, or
      no empty slot comes before it and it occurs once. A raw report can break this. */
  lemma ReleaseRemovesIff(keys: seq<byte>, key: byte)
    requires key != 0
    ensures key !in ReleaseKeys(keys, key) <==>
            key !in keys || (var i := FirstSlot(keys, key); i < |keys| && keys[i] == key && key !in keys[i + 1..])
  {
    var i := FirstSlot(keys, key);
    if i < |keys| && keys[i] == key {
      var r := keys[..i] + keys[i + 1..] + [0];
      assert key !in keys[..i];
      assert key in r <==> key in keys[i + 1..];
    }
  }

  /** A raw report with a hole leaves a key that no release can remove. */
  lemma RawReportCanStrandAKey(m: bv8, key: byte)
    requires key > ROLL_OVER && !IsModifier(key)
    ensures var down := Settle(KeysDown(m, Fit([0, key])));
            key in down.keys && KeyStep(down, key, false) == down
  {
    var keys := Fit([0, key]);
    assert keys[1] == key;
    FirstSlotIs(keys, key, 0);
  }

  /** Slot 0 of the report becomes ErrorRollOver: a press finds no slot, a press of usage 0x01 takes slot 0, or a
      release moves a 0x01 up into it. */
  predicate RollsOver(keys: seq<byte>, key: byte, press: bool) {
    if press then FirstSlot(keys, key) == |keys| || (key == ROLL_OVER && keys[0] == 0)
    else |keys| > 1 && keys[0] == key && key != 0 && keys[1] == ROLL_OVER
  }

  lemma RollsOverIff(keys: seq<byte>, key: byte, press: bool)
    requires |keys| == SLOTS && keys[0] != ROLL_OVER
    ensures var r := if press then PressKeys(keys, key) else ReleaseKeys(keys, key);
            r[0] == ROLL_OVER <==> RollsOver(keys, key, press)
  {
    var i := FirstSlot(keys, key);
    if !press && i < SLOTS && keys[i] != 0 {
      assert ReleaseKeys(keys, key)[0] == if i == 0 then keys[1] else keys[0];
    }
  }

  /** Without a roll-over an event leaves every other real key in the buffer. */
  lemma OtherKeyStays(keys: seq<byte>, key: byte, press: bool, other: byte)
    requires |keys| == SLOTS && other in keys && other > ROLL_OVER && other != key
    ensures var r := if press then PressKeys(keys, key) else ReleaseKeys(keys, key);
            other in r || (press && FirstSlot(keys, key) == SLOTS)
  {
    var i := FirstSlot(keys, key);
    var j :| 0 <= j < SLOTS && keys[j] == other;
    if i < SLOTS {
      if press {
        assert PressKeys(keys, key)[j] == other;
      } else if keys[i] != 0 {
        assert ReleaseKeys(keys, key)[if j < i then j else j - 1] == other;
      }
    }
  }

  /** On any buffer not led by 0x01 an event drops another held key exactly when it rolls over. Among real usages that
      is the seventh key only; with 0x01 in the buffer it can be an ordinary release. */
  lemma EventDropsKeyIff(down: KeysDown, key: byte, press: bool, other: byte)
    requires |down.keys| == SLOTS && down.keys[0] != ROLL_OVER
    requires other in down.keys && other > ROLL_OVER && other != key
    ensures other !in KeyStep(down, key, press).keys <==> !IsModifier(key) && RollsOver(down.keys, key, press)
  {
    if !IsModifier(key) {
      RollsOverIff(down.keys, key, press);
      OtherKeyStays(down.keys, key, press, other);
    }
  }

  lemma PressAppends(m: bv8, s: seq<byte>, key: byte)
    requires |s| < SLOTS && key !in s && 0 !in s && !IsModifier(key) && (s == [] ==> key != ROLL_OVER)
    requires s != [] ==> s[0] != ROLL_OVER
    ensures KeyStep(KeysDown(m, Buffer(s)), key, true) == KeysDown(m, Buffer(s + [key]))
  {
    FirstSlotIs(Buffer(s), key, |s|);
    assert Buffer(s)[|s| := key] == Buffer(s + [key]);
  }

  lemma ShiftUpClears(m: bv8, a: byte, b: byte)
    requires a > ROLL_OVER && !IsModifier(a)
    ensures KeyStep(KeysDown(m, Buffer([a, ROLL_OVER, b])), a, false).keys == Buffer([])
  {
    FirstSlotIs(Buffer([a, ROLL_OVER, b]), a, 0);
    assert Buffer([]) == Fill(SLOTS, 0);
  }

  lemma TypedThen(down: KeysDown, e: KeyEvent, rest: seq<KeyEvent>)
    requires |down.keys| > 0
    ensures Typed(down, [e] + rest) == Typed(KeyStep(down, e.key, e.press), rest)
  {
    assert ([e] + rest)[0] == e && ([e] + rest)[1..] == rest;
  }

  /** Usage 0x01 is not a key: once it sits behind another key, releasing that key drops
      every other held key as well, and the host is sent a report starting with ErrorRollOver. */
  lemma ReservedUsageDropsHeldKeys(m: bv8, a: byte, b: byte)
    requires a > ROLL_OVER && b > ROLL_OVER && a != b && !IsModifier(a) && !IsModifier(b)
    ensures var down := Typed(KeysDown(m, Buffer([])),
                              [KeyEvent(a, true)] + ([KeyEvent(ROLL_OVER, true)] + ([KeyEvent(b, true)] + [])));
            b in down.keys && KeyStep(down, a, false).keys == Buffer([])
  {
    var d1, d2 := KeysDown(m, Buffer([a])), KeysDown(m, Buffer([a, ROLL_OVER]));
    PressAppends(m, [], a);
    PressAppends(m, [a], ROLL_OVER);
    PressAppends(m, [a, ROLL_OVER], b);
    assert [a] + [ROLL_OVER] == [a, ROLL_OVER] && [a, ROLL_OVER] + [b] == [a, ROLL_OVER, b] && [] + [a] == [a];
    var e2, e3 := KeyEvent(ROLL_OVER, true), KeyEvent(b, true);
    TypedThen(d2, e3, []);
    TypedThen(d1, e2, [e3] + []);
    TypedThen(KeysDown(m, Buffer([])), KeyEvent(a, true), [e2] + ([e3] + []));
    ShiftUpClears(m, a, b);
    assert Buffer([a, ROLL_OVER, b])[2] == b;
  }
}
