/** The keyboard half of the USB gadget object: the tracked key state, the reports written to the
    HID device and the per-key auto-release timers, as its methods update them. */
module Keyboard {
  import opened Common
  import opened KeyBuffer

  const AUTO_RELEASE: int := 100 * MILLISECOND

  /** keys with slot i dropped, the rest moved up, and the last slot emptied. */
  method ShiftOut(keys: array<byte>, i: nat)
    requires i < keys.Length
    modifies keys
    ensures keys[..] == old(keys[..i]) + old(keys[i + 1..]) + [0]
  {
    var j := i;
    while j < keys.Length - 1
      invariant i <= j <= keys.Length - 1
      invariant forall k :: 0 <= k < i ==> keys[k] == old(keys[k])
      invariant forall k :: i <= k < j ==> keys[k] == old(keys[k + 1])
      invariant forall k :: j <= k < keys.Length ==> keys[k] == old(keys[k])
    {
      keys[j] := keys[j + 1];
      j := j + 1;
    }
    keys[keys.Length - 1] := 0;
  }

  /** Finds the key's slot and presses or releases it there; a press that finds no slot fills
      every slot with ErrorRollOver. */
  method EditKeys(keys: array<byte>, key: byte, press: bool)
    requires keys.Length == SLOTS
    modifies keys
    ensures keys[..] == if press then PressKeys(old(keys[..]), key) else ReleaseKeys(old(keys[..]), key)
  {
    ghost var before := keys[..];
    var overrun := true;
    var i := 0;
    while i < SLOTS
      invariant 0 <= i <= SLOTS && overrun && keys[..] == before
      invariant forall j :: 0 <= j < i ==> before[j] != key && before[j] != 0
    {
      if keys[i] == key || keys[i] == 0 {
        FirstSlotIs(before, key, i);
        if press {
          keys[i] := key;
        } else if keys[i] != 0 {
          ShiftOut(keys, i);
        }
        overrun := false;
        break;
      }
      i := i + 1;
    }
    if overrun {
      FirstSlotIs(before, key, SLOTS);
      if press {
        FillSlots(keys, ROLL_OVER);
      }
    }
  }

  method FillSlots(keys: array<byte>, v: byte)
    modifies keys
    ensures keys[..] == Fill(keys.Length, v)
  {
    var i := 0;
    while i < keys.Length
      invariant 0 <= i <= keys.Length
      invariant forall j :: 0 <= j < i ==> keys[j] == v
    {
      keys[i] := v;
      i := i + 1;
    }
  }

  method CopyKeys(from: seq<byte>) returns (keys: array<byte>)
    requires |from| == SLOTS
    ensures fresh(keys) && keys.Length == SLOTS && keys[..] == from
  {
    keys := new byte[SLOTS](i requires 0 <= i < |from| => from[i]);
  }

  lemma ReportCases(down: KeysDown, key: byte, press: bool)
    ensures match ModifierMask(key)
            case Some(mask) =>
              ReportFor(down, key, press) ==
                KeysDown(if press then down.modifier | mask else down.modifier & !mask, down.keys)
            case None =>
              ReportFor(down, key, press) ==
                KeysDown(down.modifier, if press then PressKeys(down.keys, key) else ReleaseKeys(down.keys, key))
  {
  }

  /** The modifier byte and the edited copy of the slots for one key event. */
  method ComputeReport(down: KeysDown, key: byte, press: bool) returns (modifier: bv8, keys: array<byte>)
    requires |down.keys| == SLOTS
    ensures fresh(keys) && keys.Length == SLOTS
    ensures KeysDown(modifier, keys[..]) == ReportFor(down, key, press)
  {
    modifier := down.modifier;
    keys := CopyKeys(down.keys);
    ReportCases(down, key, press);
    match ModifierMask(key)
    case Some(mask) =>
      modifier := if press then modifier | mask else modifier & !mask;
    case None =>
      EditKeys(keys, key, press);
  }

  class Keyboard {
    var keysDown: KeysDown
    /** Every report the driver attempted to write, oldest first. */
    var reports: seq<KeysDown>
    /** Every state announced to the listener, oldest first. */
    var changes: seq<KeysDown>
    /** The deadline of each pending auto-release timer. */
    var timers: map<byte, int>

    /** Six slots, never led by ErrorRollOver, and in agreement with the last attempted report:
        equal to it, or empty when that report was a roll-over. */
    ghost predicate Valid()
      reads this
    {
      && |keysDown.keys| == SLOTS
      && keysDown.keys[0] != ROLL_OVER
      && (reports != [] ==> |reports[|reports| - 1].keys| == SLOTS && Settle(reports[|reports| - 1]) == keysDown)
    }

    constructor ()
      ensures Valid()
      ensures keysDown == KeysDown(0, Buffer([])) && reports == [] && changes == [] && timers == map[]
    {
      keysDown := KeysDown(0, Buffer([]));
      reports, changes, timers := [], [], map[];
    }

    method UpdateKeysDown(modifier: bv8, keys: array<byte>) returns (state: KeysDown)
      requires keys.Length == SLOTS
      modifies this`keysDown, this`changes, keys
      ensures state == Settle(KeysDown(modifier, old(keys[..]))) == keysDown
      ensures changes == old(changes) + if keysDown == old(keysDown) then [] else [keysDown]
    {
      if keys[0] == ROLL_OVER {
        FillSlots(keys, 0);
      }
      state := KeysDown(modifier, keys[..]);
      if keysDown != state {
        keysDown := state;
        changes := changes + [state];
      }
    }

    /** The read-compute-write-update sequence of one key event. */
    method ReportKeypress(key: byte, press: bool) returns (state: KeysDown)
      requires Valid()
      modifies this`keysDown, this`reports, this`changes
      ensures Valid()
      ensures reports == old(reports) + [ReportFor(old(keysDown), key, press)]
      ensures state == keysDown == KeyStep(old(keysDown), key, press)
      ensures changes == old(changes) + if keysDown == old(keysDown) then [] else [keysDown]
    {
      var modifier, keys := ComputeReport(keysDown, key, press);
      reports := reports + [KeysDown(modifier, keys[..])];
      state := UpdateKeysDown(modifier, keys);
    }

    /** A key event from the client: the roll-over test sees the already settled state, so a press
        always schedules the key's timer and a release always cancels it. */
    method KeypressReport(key: byte, press: bool, now: int)
      requires Valid()
      modifies this
      ensures Valid()
      ensures reports == old(reports) + [ReportFor(old(keysDown), key, press)]
      ensures keysDown == KeyStep(old(keysDown), key, press)
      ensures changes == old(changes) + if keysDown == old(keysDown) then [] else [keysDown]
      ensures timers == if IsModifier(key) then old(timers)
                        else if press then old(timers)[key := now + AUTO_RELEASE]
                        else old(timers) - {key}
    {
      var state := ReportKeypress(key, press);
      var isRolledOver := state.keys[0] == ROLL_OVER;
      if !IsModifier(key) {
        if isRolledOver || !press {
          timers := timers - {key};
        } else {
          timers := timers[key := now + AUTO_RELEASE];
        }
      }
    }

    method KeyboardReport(modifier: bv8, keys: seq<byte>)
      requires Valid()
      modifies this`keysDown, this`reports, this`changes
      ensures Valid()
      ensures reports == old(reports) + [KeysDown(modifier, Fit(keys))]
      ensures keysDown == Settle(KeysDown(modifier, Fit(keys)))
      ensures changes == old(changes) + if keysDown == old(keysDown) then [] else [keysDown]
    {
      var fitted := Fit(keys);
      var slots := new byte[SLOTS](i requires 0 <= i < |fitted| => fitted[i]);
      assert slots[..] == fitted;
      reports := reports + [KeysDown(modifier, slots[..])];
      var state := UpdateKeysDown(modifier, slots);
    }

    /** A timer firing with nothing interleaved; KeyHold splits it at its lock boundaries. */
    method PerformAutoRelease(key: byte)
      requires Valid()
      modifies this
      ensures Valid()
      ensures timers == old(timers) - {key}
      ensures var acts := key in old(timers) && key in old(keysDown).keys;
              reports == old(reports) + (if acts then [ReportFor(old(keysDown), key, false)] else []) &&
              keysDown == (if acts then KeyStep(old(keysDown), key, false) else old(keysDown))
    {
      if key !in timers {
        assert timers - {key} == timers;
        return;
      }
      timers := timers - {key};
      var alreadyReleased := true;
      var i := 0;
      while i < |keysDown.keys|
        invariant 0 <= i <= |keysDown.keys|
        invariant alreadyReleased <==> key !in keysDown.keys[..i]
      {
        if keysDown.keys[i] == key {
          alreadyReleased := false;
        }
        i := i + 1;
      }
      assert keysDown.keys[..i] == keysDown.keys;
      if alreadyReleased {
        return;
      }
      var _ := ReportKeypress(key, false);
    }

    /** Pushes every pending deadline to the same instant; timers that are not pending stay so. */
    method DelayAutoRelease(now: int, duration: int)
      modifies this`timers
      ensures timers == map k | k in old(timers) :: now + duration
    {
      var todo := timers.Keys;
      while todo != {}
        invariant todo <= timers.Keys == old(timers).Keys
        invariant forall k :: k in timers ==> timers[k] == if k in todo then old(timers)[k] else now + duration
        decreases |todo|
      {
        var key :| key in todo;
        timers := timers[key := now + duration];
        todo := todo - {key};
      }
    }

    method CancelAllAutoReleaseTimers()
      modifies this`timers
      ensures timers == map[]
    {
      while timers != map[]
        decreases |timers.Keys|
      {
        assert timers.Keys != {};
        var key :| key in timers.Keys;
        assert (timers - {key}).Keys == timers.Keys - {key};
        timers := timers - {key};
      }
    }
  }
}
