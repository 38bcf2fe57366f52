/** The steps of the hold protocol, run without interruption, add up to the operations they were cut from. */
module HoldSteps {
  import opened Common
  import opened KeyBuffer
  import opened KeepAlive
  import opened KeyHold

  /** Running the steps from w is possible and ends in v. */
  ghost predicate Leads(w: World, steps: seq<Step>, v: World) {
    Possible(w, steps) && Run(w, steps) == v
  }

  lemma Done(w: World)
    ensures Leads(w, [], w)
  {
  }

  lemma Then(w: World, s: Step, next: World, rest: seq<Step>, v: World)
    requires Enabled(w, s) && Next(w, s) == next && Leads(next, rest, v)
    ensures Leads(w, [s] + rest, v)
  {
    StepThen(w, s, rest, next);
  }

  /** The keyboard lock and the keepalive's are free. */
  predicate Free(w: World) {
    KeyboardFree(w) && w.ticking == None && |w.down.keys| == 6
  }

  /** A changed state resets the keepalive stamps. */
  function Tracked(w: World, down: KeysDown): World {
    w.(down := down, stamps := if down == w.down then w.stamps else Stamps(None, None))
  }

  /** The timer table after a key event. */
  function TimersAfter(w: World, key: byte, press: bool): map<byte, Timer> {
    if 0xE0 <= key <= 0xE7 then w.timers
    else if press then w.timers[key := Armed(w.now + 100_000_000)]
    else w.timers - {key}
  }

  function EventWorld(w: World, key: byte, press: bool): World
    requires |w.down.keys| == 6
  {
    Tracked(w, KeyStep(w.down, key, press)).(
      timers := TimersAfter(w, key, press),
      lastInput := if press && !(0xE0 <= key <= 0xE7) then w.now else w.lastInput)
  }

  function EventSteps(w: World, key: byte, press: bool): seq<Step>
    requires |w.down.keys| == 6
  {
    [Admit(key, press)] + ([Report(key, press)] + (
      (if KeyStep(w.down, key, press) == w.down then [] else [Announce])
      + (if 0xE0 <= key <= 0xE7 then [] else [Finish])))
  }

  lemma FinishEvent(w: World, key: byte, press: bool, v: World)
    requires |w.down.keys| == 6 && v.client == Remaining(KeyStep(w.down, key, press), key, press)
    requires v.(client := Idle) == Tracked(w, KeyStep(w.down, key, press)) && w.client == Idle
    ensures Leads(v, if 0xE0 <= key <= 0xE7 then [] else [Finish], EventWorld(w, key, press))
  {
    ModifierBits(key);
    if 0xE0 <= key <= 0xE7 {
      Done(v);
    } else {
      var last := EventWorld(w, key, press);
      Done(last);
      Then(v, Finish, last, [], last);
    }
  }

  /** A key event served alone, with USB ready, does to the tracked state, the stamps and the timer table what the
      driver's method does; with USB not ready it does nothing. */
  lemma KeyEventAlone(w: World, key: byte, press: bool)
    requires Free(w) && w.client == Idle && key > 1
    ensures w.usbReady ==> Leads(w, EventSteps(w, key, press), EventWorld(w, key, press))
    ensures !w.usbReady ==> Leads(w, [Admit(key, press)], w)
  {
    if !w.usbReady {
      Done(w);
      Then(w, Admit(key, press), w, [], w);
      assert [Admit(key, press)] + [] == [Admit(key, press)];
    } else {
      ReportedAlone(w, key, press);
      var rest := EventSteps(w, key, press)[1..];
      Then(w, Admit(key, press), w.(client := Admitted(key, press)), rest, EventWorld(w, key, press));
    }
  }

  lemma ReportedAlone(w: World, key: byte, press: bool)
    requires Free(w) && w.client == Idle && key > 1 && w.usbReady
    ensures Leads(w.(client := Admitted(key, press)), EventSteps(w, key, press)[1..], EventWorld(w, key, press))
  {
    var down := KeyStep(w.down, key, press);
    var next, w1 := Remaining(down, key, press), w.(client := Admitted(key, press));
    var w2 := w1.(down := down, client := if down == w.down then next else Announcing(next));
    var w3 := Tracked(w, down).(client := next);
    var last := if 0xE0 <= key <= 0xE7 then [] else [Finish];
    FinishEvent(w, key, press, w3);
    if down == w.down {
      assert w2 == w3 && [] + last == last;
      Then(w1, Report(key, press), w2, last, EventWorld(w, key, press));
    } else {
      Then(w2, Announce, w3, last, EventWorld(w, key, press));
      Then(w1, Report(key, press), w2, [Announce] + last, EventWorld(w, key, press));
    }
  }

  // ---------- an auto-release ----------

  function AnnounceIf(changed: bool): seq<Step> {
    if changed then [Announce] else []
  }

  /** What is left to do once the timer is taken from the table. */
  function Decision(w: World, key: byte): seq<Step>
    requires |w.down.keys| == 6
  {
    [Read(key)] +
    (if key !in w.down.keys then [] else [Release(key)] + AnnounceIf(KeyStep(w.down, key, false) != w.down))
  }

  function ReleasedWorld(w: World, key: byte): World
    requires |w.down.keys| == 6
  {
    (if key in w.down.keys then Tracked(w, KeyStep(w.down, key, false)) else w).(timers := w.timers - {key})
  }

  lemma FlightEnds(f: multiset<Flight>, a: Flight)
    ensures (f + multiset{a}) - multiset{a} == f
  {
  }

  /** A due timer served alone is taken from the table, and its key is released if it is still down; nothing is left in
      flight. */
  lemma AutoReleaseAlone(w: World, key: byte)
    requires Free(w) && key in w.timers && w.timers[key].Armed? && w.timers[key].deadline <= w.now
    ensures Leads(w, [Expire(key)] + ([Take(key)] + Decision(w, key)), ReleasedWorld(w, key))
  {
    var f, gone := w.flights, w.timers - {key};
    var w1 := w.(timers := w.timers[key := Expired], flights := f + multiset{Fired(key)});
    var w2 := w.(timers := gone, flights := f + multiset{Removed(key)});
    FlightEnds(f, Fired(key));
    FlightEnds(f, Removed(key));
    assert w1.timers - {key} == gone;
    DecidedAlone(w, key);
    Then(w1, Take(key), w2, Decision(w, key), ReleasedWorld(w, key));
    Then(w, Expire(key), w1, [Take(key)] + Decision(w, key), ReleasedWorld(w, key));
  }

  lemma ReleasingAlone(w: World, key: byte)
    requires Free(w) && key in w.down.keys
    ensures var w3 := w.(timers := w.timers - {key}, flights := w.flights + multiset{Releasing(key)});
            Leads(w3, [Release(key)] + AnnounceIf(KeyStep(w.down, key, false) != w.down), ReleasedWorld(w, key))
  {
    var down, last := KeyStep(w.down, key, false), ReleasedWorld(w, key);
    var w3 := w.(timers := w.timers - {key}, flights := w.flights + multiset{Releasing(key)});
    var w4 := w.(timers := w.timers - {key}, down := down, announcing := down != w.down);
    FlightEnds(w.flights, Releasing(key));
    Done(last);
    if down != w.down {
      Then(w4, Announce, last, [], last);
      assert [Announce] + [] == [Announce];
    }
    Then(w3, Release(key), w4, AnnounceIf(down != w.down), last);
  }

  lemma DecidedAlone(w: World, key: byte)
    requires Free(w)
    ensures var w2 := w.(timers := w.timers - {key}, flights := w.flights + multiset{Removed(key)});
            Leads(w2, Decision(w, key), ReleasedWorld(w, key))
  {
    var last := ReleasedWorld(w, key);
    var w2 := w.(timers := w.timers - {key}, flights := w.flights + multiset{Removed(key)});
    FlightEnds(w.flights, Removed(key));
    if key !in w.down.keys {
      Done(last);
      Then(w2, Read(key), last, [], last);
    } else {
      ReleasingAlone(w, key);
      var w3 := w.(timers := w.timers - {key}, flights := w.flights + multiset{Releasing(key)});
      Then(w2, Read(key), w3, [Release(key)] + AnnounceIf(KeyStep(w.down, key, false) != w.down), last);
    }
  }

  /** A timer that fired but was cancelled before its goroutine took the lock does nothing. */
  lemma OvertakenAlone(w: World, key: byte)
    requires key !in w.timers
    ensures Leads(w.(flights := w.flights + multiset{Fired(key)}), [Take(key)], w)
  {
    FlightEnds(w.flights, Fired(key));
    Done(w);
    Then(w.(flights := w.flights + multiset{Fired(key)}), Take(key), w, [], w);
    assert [Take(key)] + [] == [Take(key)];
  }

  // ---------- a keepalive, a disconnect ----------

  /** A keepalive alone either leaves everything as it is, or sets both stamps to now and every pending timer to one and
      the same deadline. */
  lemma KeepAliveAlone(w: World)
    requires Free(w)
    ensures match Judge(w.stamps, w.now)
            case Reject => Leads(w, [KeepAliveTick], w)
            case Extend(duration) =>
              Leads(w, [KeepAliveTick] + [Prolong],
                    w.(stamps := Stamps(Some(w.now), Some(w.now)), lastInput := w.now,
                       timers := map k | k in w.timers :: Armed(w.now + duration)))
  {
    match Judge(w.stamps, w.now)
    case Reject =>
      Done(w);
      Then(w, KeepAliveTick, w, [], w);
      assert [KeepAliveTick] + [] == [KeepAliveTick];
    case Extend(duration) =>
      var w1 := w.(stamps := Stamps(Some(w.now), Some(w.now)), ticking := Some(duration));
      var w2 := Next(w1, Prolong);
      Done(w2);
      Then(w1, Prolong, w2, [], w2);
      assert [Prolong] + [] == [Prolong];
      Then(w, KeepAliveTick, w1, [Prolong], w2);
  }

  const NO_KEYS: KeysDown := KeysDown(0, [0, 0, 0, 0, 0, 0])

  /** Steps from the guard of a clear on, and the world they end in. */
  function ClearSteps(w: World): seq<Step> {
    [Guard] + (if w.usbReady then [ClearReport] + AnnounceIf(NO_KEYS != w.down) else [])
  }

  function Cleared(w: World): World {
    if w.usbReady then Tracked(w, KeysDown(0, [0, 0, 0, 0, 0, 0])) else w
  }

  lemma AdmittedClearAlone(w: World)
    requires Free(w)
    ensures Leads(w.(clearing := w.clearing + 1), [ClearReport] + AnnounceIf(NO_KEYS != w.down), Tracked(w, NO_KEYS))
  {
    assert Fit([]) == NO_KEYS.keys;
    var last, w3 := Tracked(w, NO_KEYS), w.(down := NO_KEYS, announcing := NO_KEYS != w.down);
    Done(last);
    if NO_KEYS != w.down {
      Then(w3, Announce, last, [], last);
      assert [Announce] + [] == [Announce];
    }
    Then(w.(clearing := w.clearing + 1), ClearReport, w3, AnnounceIf(NO_KEYS != w.down), last);
  }

  lemma ClearAlone(w: World)
    requires Free(w)
    ensures Leads(w.(clears := w.clears + 1), ClearSteps(w), Cleared(w))
  {
    var w1 := w.(clears := w.clears + 1);
    if w.usbReady {
      AdmittedClearAlone(w);
      Then(w1, Guard, w.(clearing := w.clearing + 1), [ClearReport] + AnnounceIf(NO_KEYS != w.down), Cleared(w));
    } else {
      Done(w);
      Then(w1, Guard, w, [], w);
    }
  }

  /** A disconnect alone cancels every timer, and reports and tracks no modifier and no key if USB is ready; the clear
      that follows it does the latter again. */
  lemma DisconnectAlone(w: World)
    requires Free(w)
    ensures Leads(w, [CancelAll] + ClearSteps(w), Cleared(w).(timers := map[]))
    ensures Leads(w, [ClearAgain] + ClearSteps(w), Cleared(w))
  {
    var w0 := w.(timers := map[]);
    ClearAlone(w0);
    assert ClearSteps(w0) == ClearSteps(w) && Cleared(w0) == Cleared(w).(timers := map[]);
    Then(w, CancelAll, w0.(clears := w.clears + 1), ClearSteps(w), Cleared(w0));
    ClearAlone(w);
    Then(w, ClearAgain, w.(clears := w.clears + 1), ClearSteps(w), Cleared(w));
  }
}
