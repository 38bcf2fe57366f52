/** A held key stays held: the jitter budget of the keepalive filter, proved against the whole
    interleaved protocol of KeyHold. */
module HoldTheorem {
  import opened Common
  import opened KeyBuffer
  import opened KeepAlive
  import opened KeyHold

  /** The client presses `key` and then sends one keepalive every 50 ms; message n (the press is
      message 0) is handled delay(n) after it was sent. */
  datatype Plan = Plan(key: byte, start: int, base: int, delay: nat -> int)

  ghost predicate Jittery(p: Plan) {
    RealKey(p.key) && forall n: nat :: p.base <= p.delay(n) < p.base + MAX_LATENESS
  }

  function Arrival(p: Plan, n: nat): int {
    p.start + n * EXPECTED_RATE + p.delay(n)
  }

  /** Everything may happen except what is meant to end the hold: an event on the key itself, a
      roll-over, a disconnect. Keepalives are handled when they arrive, and their handler takes no time. */
  predicate Allowed(p: Plan, n: nat, w: World, s: Step) {
    Enabled(w, s) &&
    match s
    case Admit(k, _) => k != p.key
    case Report(k, press) => k != p.key && ReportFor(w.down, k, press).keys[0] != ROLL_OVER
    case KeepAliveTick => w.now == Arrival(p, n + 1)
    case Wait(until) => until <= Arrival(p, n + 1) && w.ticking.None?
    case CancelAll => false
    case ClearAgain => false
    case Guard => false
    case ClearReport => false
    case _ => true
  }

  function Count(n: nat, s: Step): nat {
    if s.KeepAliveTick? then n + 1 else n
  }

  predicate SteadyRun(p: Plan, n: nat, w: World, steps: seq<Step>)
    decreases |steps|
  {
    steps == [] ||
    (Allowed(p, n, w, steps[0]) && SteadyRun(p, Count(n, steps[0]), Next(w, steps[0]), steps[1..]))
  }

  lemma {:induction false} SteadyIsPossible(p: Plan, n: nat, w: World, steps: seq<Step>)
    requires SteadyRun(p, n, w, steps)
    ensures Possible(w, steps)
    decreases |steps|
  {
    if steps != [] {
      SteadyIsPossible(p, Count(n, steps[0]), Next(w, steps[0]), steps[1..]);
    }
  }

  predicate NoFlight(w: World, key: byte) {
    Fired(key) !in w.flights && Removed(key) !in w.flights && Releasing(key) !in w.flights
  }

  /** The client is serving an event of the key. */
  predicate Serves(c: Client, key: byte) {
    match c
    case Idle => false
    case Admitted(k, _) => k == key
    case Announcing(next) => Serves(next, key)
    case Scheduling(k) => k == key
    case Cancelling(k) => k == key
  }

  /** The key's timer outlives the arrival of keepalive n + 1, or will once keepalive n has prolonged it. */
  predicate Outlives(p: Plan, n: nat, w: World) {
    p.key in w.timers && w.timers[p.key].Armed? &&
    match w.ticking
    case None => w.timers[p.key].deadline > Arrival(p, n + 1)
    case Some(duration) =>
      w.timers[p.key].deadline > w.now == Arrival(p, n) && w.now + duration > Arrival(p, n + 1)
  }

  /** After n keepalives the key is down and its timer long enough. */
  predicate Held(p: Plan, n: nat, w: World) {
    && p.key in w.down.keys
    && Outlives(p, n, w)
    && NoFlight(w, p.key)
    && !Serves(w.client, p.key)
    && w.now <= Arrival(p, n + 1)
    && w.stamps.lastArrival == w.stamps.lastReset
    && (w.stamps.lastArrival == None || w.stamps.lastArrival == Some(Arrival(p, n)))
  }

  /** Consecutive arrivals are less than 100 ms apart, and every second one less than 150 ms. */
  lemma ArrivalsAreClose(p: Plan, n: nat)
    requires Jittery(p)
    ensures 0 < Arrival(p, n + 1) - Arrival(p, n) < BASE_EXTENSION
    ensures Arrival(p, n + 2) - Arrival(p, n) < BASE_EXTENSION + EXPECTED_RATE
  {
    var d0, d1, d2 := p.delay(n), p.delay(n + 1), p.delay(n + 2);
  }

  lemma OtherKeyLeavesKeyDown(w: World, held: seq<byte>, key: byte, other: byte, press: bool)
    requires PackedWith(w, held) && RealKey(key) && key in w.down.keys
    requires other > ROLL_OVER && other != key
    requires ReportFor(w.down, other, press).keys[0] != ROLL_OVER
    ensures key in KeyStep(w.down, other, press).keys
  {
    if !IsModifier(other) {
      KeyStepRefinesOrderedSet(w.down.modifier, held, other, press);
      BufferMembers(held, key);
      BufferMembers(Expected(held, other, press), key);
    }
  }

  lemma ReleaseIsNoRollOver(w: World, held: seq<byte>, other: byte)
    requires PackedWith(w, held) && RealKey(other)
    ensures ReportFor(w.down, other, false).keys[0] != ROLL_OVER
  {
    KeyStepRefinesOrderedSet(w.down.modifier, held, other, false);
  }

  lemma TickKeepsHeld(p: Plan, n: nat, w: World)
    requires Jittery(p) && Held(p, n, w) && w.ticking.None? && w.now == Arrival(p, n + 1)
    ensures Held(p, n + 1, Next(w, KeepAliveTick))
  {
    ArrivalsAreClose(p, n);
    ArrivalsAreClose(p, n + 1);
  }

  lemma ReportKeepsKeyDown(p: Plan, n: nat, w: World, s: Step)
    requires RealKey(p.key) && Sane(w) && Held(p, n, w) && Allowed(p, n, w, s) && s.Report?
    ensures p.key in Next(w, s).down.keys && !Serves(Next(w, s).client, p.key)
  {
    var held :| PackedWith(w, held);
    OtherKeyLeavesKeyDown(w, held, p.key, s.key, s.press);
  }

  lemma ReleaseKeepsKeyDown(p: Plan, n: nat, w: World, s: Step)
    requires RealKey(p.key) && Packed(w) && Held(p, n, w) && Allowed(p, n, w, s) && s.Release? && RealKey(s.key)
    ensures p.key in Next(w, s).down.keys && Next(w, s).client == w.client && NoFlight(Next(w, s), p.key)
  {
    var held :| PackedWith(w, held);
    ReleaseIsNoRollOver(w, held, s.key);
    OtherKeyLeavesKeyDown(w, held, p.key, s.key, false);
  }

  lemma StampsAndTimersStay(w: World, s: Step)
    requires Enabled(w, s) && (s.Report? || s.Release?)
    ensures SameTimers(w, Next(w, s)) && (s.Report? ==> Next(w, s).flights == w.flights)
  {
  }

  lemma KeyboardStepKeepsHeld(p: Plan, n: nat, w: World, s: Step)
    requires RealKey(p.key) && Sane(w) && Held(p, n, w) && Allowed(p, n, w, s) && (s.Report? || s.Release?)
    ensures Held(p, n, Next(w, s))
  {
    if s.Report? {
      ReportKeepsKeyDown(p, n, w, s);
    } else {
      assert RealKey(Releasing(s.key).key);
      ReleaseKeepsKeyDown(p, n, w, s);
    }
    StampsAndTimersStay(w, s);
    assert s.Report? ==> NoFlight(Next(w, s), p.key);
  }

  lemma FlightIsAnotherKey(p: Plan, n: nat, w: World, s: Step)
    requires Held(p, n, w) && Enabled(w, s) && IsFlightStep(s)
    ensures s.key != p.key
  {
  }

  lemma FlightElsewhere(w: World, s: Step, key: byte)
    requires NoFlight(w, key) && Enabled(w, s) && IsFlightStep(s) && s.key != key
    ensures NoFlight(Next(w, s), key)
  {
  }

  lemma TimerElsewhere(w: World, s: Step, key: byte)
    requires Enabled(w, s) && IsFlightStep(s) && s.key != key && key in w.timers
    ensures var v := Next(w, s);
            && key in v.timers && v.timers[key] == w.timers[key]
            && v == w.(timers := v.timers, flights := v.flights)
  {
  }

  lemma FlightKeepsHeld(p: Plan, n: nat, w: World, s: Step)
    requires Held(p, n, w) && Allowed(p, n, w, s) && IsFlightStep(s)
    ensures Held(p, n, Next(w, s))
  {
    FlightIsAnotherKey(p, n, w, s);
    FlightElsewhere(w, s, p.key);
    TimerElsewhere(w, s, p.key);
  }

  lemma FinishKeepsHeld(p: Plan, n: nat, w: World)
    requires Held(p, n, w) && Enabled(w, Finish)
    ensures Held(p, n, Next(w, Finish))
  {
  }

  lemma ClientKeepsHeld(p: Plan, n: nat, w: World, s: Step)
    requires Held(p, n, w) && Allowed(p, n, w, s) && (s.Admit? || s.Announce?)
    ensures Held(p, n, Next(w, s))
  {
  }

  lemma ClockKeepsHeld(p: Plan, n: nat, w: World, s: Step)
    requires Held(p, n, w) && Allowed(p, n, w, s) && (s.Wait? || s.Usb? || s.Prolong?)
    ensures Held(p, n, Next(w, s))
  {
  }

  lemma StepKeepsHeld(p: Plan, n: nat, w: World, s: Step)
    requires Jittery(p) && Safe(w) && Held(p, n, w) && Allowed(p, n, w, s)
    ensures Held(p, Count(n, s), Next(w, s))
  {
    if s.Report? || s.Release? {
      KeyboardStepKeepsHeld(p, n, w, s);
    } else if IsFlightStep(s) {
      FlightKeepsHeld(p, n, w, s);
    } else if s.KeepAliveTick? {
      TickKeepsHeld(p, n, w);
    } else if s.Finish? {
      FinishKeepsHeld(p, n, w);
    } else if s.Admit? || s.Announce? {
      ClientKeepsHeld(p, n, w, s);
    } else {
      ClockKeepsHeld(p, n, w, s);
    }
  }

  lemma {:induction false} RunKeepsHeld(p: Plan, n: nat, w: World, steps: seq<Step>)
    requires Jittery(p) && Safe(w) && Held(p, n, w) && SteadyRun(p, n, w, steps)
    ensures Possible(w, steps) && p.key in Run(w, steps).down.keys && NoFlight(Run(w, steps), p.key)
    decreases |steps|
  {
    if steps != [] {
      StepKeepsHeld(p, n, w, steps[0]);
      NextIsSafe(w, steps[0]);
      RunKeepsHeld(p, Count(n, steps[0]), Next(w, steps[0]), steps[1..]);
    }
  }

  /** The key's press has just been reported and its timer scheduled, and no keepalive has been
      accepted since (the report reset the stamps). */
  predicate JustPressed(p: Plan, w: World) {
    && w.now == Arrival(p, 0)
    && p.key in w.down.keys
    && p.key in w.timers && w.timers[p.key] == Armed(w.now + Keyboard.AUTO_RELEASE)
    && !Serves(w.client, p.key)
    && w.stamps == Stamps(None, None)
  }

  /** A client that sends a keepalive every 50 ms with a delivery delay varying by less than 50 ms never
      has its held key auto-released, however long the hold, whatever other keys are pressed, released or
      auto-released meanwhile, and however the timers, flights and lock acquisitions interleave, if no auto-release
      of the key's previous hold is still in flight when it is pressed. */
  lemma HeldKeyIsNeverAutoReleased(p: Plan, before: seq<Step>, hold: seq<Step>)
    requires Jittery(p)
    requires Possible(START, before) && JustPressed(p, Run(START, before)) && NoFlight(Run(START, before), p.key)
    requires SteadyRun(p, 0, Run(START, before), hold)
    ensures var w := Run(START, before);
            Possible(w, hold) && p.key in Run(w, hold).down.keys && NoFlight(Run(w, hold), p.key)
  {
    var w := Run(START, before);
    StartIsSafe();
    RunIsSafe(START, before);
    ArrivalsAreClose(p, 0);
    assert w.ticking == None;
    RunKeepsHeld(p, 0, w, hold);
  }

  // ---------- a press while an auto-release of the key is in flight ----------

  predicate Survives(p: Plan, w: World, hold: seq<Step>) {
    Possible(w, hold) && p.key in Run(w, hold).down.keys
  }

  /** A step of a flight in front of a run that ends the hold. */
  lemma StepThenEnds(p: Plan, w: World, s: Step, rest: seq<Step>)
    requires Allowed(p, 0, w, s) && !s.KeepAliveTick?
    requires SteadyRun(p, 0, Next(w, s), rest) && !Survives(p, Next(w, s), rest)
    ensures SteadyRun(p, 0, w, [s] + rest) && !Survives(p, w, [s] + rest)
  {
    assert ([s] + rest)[0] == s && ([s] + rest)[1..] == rest;
  }

  /** The press that a flight of the same key can still end. */
  ghost predicate Endangered(p: Plan, w: World) {
    RealKey(p.key) && Packed(w) && ProperClient(w.client) && p.key in w.down.keys && w.ticking == None
  }

  lemma ReleaseEndsHold(p: Plan, w: World)
    requires Endangered(p, w) && Releasing(p.key) in w.flights && KeyboardFree(w)
    ensures SteadyRun(p, 0, w, [Release(p.key)] + []) && !Survives(p, w, [Release(p.key)] + [])
  {
    var held :| PackedWith(w, held);
    KeyStepMembers(w, held, p.key, false);
    var v := Next(w, Release(p.key));
    assert SteadyRun(p, 0, v, []) && Run(v, []) == v;
    StepThenEnds(p, w, Release(p.key), []);
  }

  /** An auto-release that was decided before the press releases the new press, once it has the keyboard lock. */
  lemma ReleasingEndsHold(p: Plan, w: World)
    requires Endangered(p, w) && Releasing(p.key) in w.flights
    ensures exists hold :: SteadyRun(p, 0, w, hold) && !Survives(p, w, hold)
  {
    if KeyboardFree(w) {
      ReleaseEndsHold(p, w);
    } else {
      var v := Next(w, Announce);
      OtherStepKeepsPacked(w, Announce);
      FreeAfterAnnouncement(w);
      ReleaseEndsHold(p, v);
      StepThenEnds(p, w, Announce, [Release(p.key)] + []);
    }
  }

  /** One that has taken its timer from the table reads the pressed key and decides to release it. */
  lemma RemovedEndsHold(p: Plan, w: World)
    requires Endangered(p, w) && Removed(p.key) in w.flights
    ensures exists hold :: SteadyRun(p, 0, w, hold) && !Survives(p, w, hold)
  {
    var v := Next(w, Read(p.key));
    OtherStepKeepsPacked(w, Read(p.key));
    ReleasingEndsHold(p, v);
    var hold :| SteadyRun(p, 0, v, hold) && !Survives(p, v, hold);
    StepThenEnds(p, w, Read(p.key), hold);
  }

  /** And one that has only fired takes the new press's timer instead of its own. */
  lemma FiredEndsHold(p: Plan, w: World)
    requires Endangered(p, w) && p.key in w.timers && Fired(p.key) in w.flights
    ensures exists hold :: SteadyRun(p, 0, w, hold) && !Survives(p, w, hold)
  {
    var v := Next(w, Take(p.key));
    OtherStepKeepsPacked(w, Take(p.key));
    RemovedEndsHold(p, v);
    var hold :| SteadyRun(p, 0, v, hold) && !Survives(p, v, hold);
    StepThenEnds(p, w, Take(p.key), hold);
  }

  /** The hold theorem, both ways: after any press the hold survives every steady run exactly if no auto-release of
      the key is in flight at the press, be it fired, past its timer or about to report. */
  lemma HoldSurvivesIff(p: Plan, before: seq<Step>)
    requires Jittery(p) && Possible(START, before) && JustPressed(p, Run(START, before))
    ensures var w := Run(START, before);
            (forall hold :: SteadyRun(p, 0, w, hold) ==> Survives(p, w, hold)) <==> NoFlight(w, p.key)
  {
    var w := Run(START, before);
    StartIsSafe();
    RunIsSafe(START, before);
    if NoFlight(w, p.key) {
      forall hold | SteadyRun(p, 0, w, hold)
        ensures Survives(p, w, hold)
      {
        HeldKeyIsNeverAutoReleased(p, before, hold);
      }
    } else if Releasing(p.key) in w.flights {
      ReleasingEndsHold(p, w);
    } else if Removed(p.key) in w.flights {
      RemovedEndsHold(p, w);
    } else {
      FiredEndsHold(p, w);
    }
  }

  /** `k` down or up, once its first press is 100 ms old. */
  function Late(k: byte, isDown: bool, timers: map<byte, Timer>, flights: multiset<Flight>, client: Client): World {
    World(Keyboard.AUTO_RELEASE, true, KeysDown(0, Buffer(if isDown then [k] else [])), timers, flights, client, false,
          0, 0, None, Stamps(None, None), 0)
  }

  /** Held for 100 ms without a keepalive: the auto-release decides to report ... */
  function Overdue(k: byte, rest: seq<Step>): seq<Step> {
    [Wait(Keyboard.AUTO_RELEASE)] + ([Expire(k)] + ([Take(k)] + ([Read(k)] + rest)))
  }

  /** ... and the key is let go and pressed again. */
  function Event(k: byte, press: bool, rest: seq<Step>): seq<Step> {
    [Admit(k, press)] + ([Report(k, press)] + ([Announce] + ([Finish] + rest)))
  }

  function Repress(k: byte): seq<Step> {
    PressFirst(k, Overdue(k, Event(k, false, Event(k, true, []))))
  }

  lemma TakenRuns(k: byte, rest: seq<Step>)
    requires RealKey(k) && Possible(Late(k, true, map[], multiset{Releasing(k)}, Idle), rest)
    ensures var w := Late(k, true, map[k := Expired], multiset{Fired(k)}, Idle);
            Possible(w, [Take(k)] + ([Read(k)] + rest))
            && Run(w, [Take(k)] + ([Read(k)] + rest)) == Run(Late(k, true, map[], multiset{Releasing(k)}, Idle), rest)
  {
    var w2, w3 := Late(k, true, map[k := Expired], multiset{Fired(k)}, Idle), Late(k, true, map[], multiset{Removed(k)}, Idle);
    BufferMembers([k], k);
    assert map[k := Expired] - {k} == map[];
    StepThen(w3, Read(k), rest, Late(k, true, map[], multiset{Releasing(k)}, Idle));
    StepThen(w2, Take(k), [Read(k)] + rest, w3);
  }

  lemma OverdueRuns(k: byte, rest: seq<Step>)
    requires RealKey(k) && Possible(Late(k, true, map[], multiset{Releasing(k)}, Idle), rest)
    ensures Possible(Pressed(k), Overdue(k, rest))
    ensures Run(Pressed(k), Overdue(k, rest)) == Run(Late(k, true, map[], multiset{Releasing(k)}, Idle), rest)
  {
    var w1 := Late(k, true, map[k := Armed(Keyboard.AUTO_RELEASE)], multiset{}, Idle);
    TakenRuns(k, rest);
    StepThen(w1, Expire(k), [Take(k)] + ([Read(k)] + rest), Late(k, true, map[k := Expired], multiset{Fired(k)}, Idle));
    StepThen(Pressed(k), Wait(Keyboard.AUTO_RELEASE), [Expire(k)] + ([Take(k)] + ([Read(k)] + rest)), w1);
  }

  lemma EventReported(k: byte, press: bool)
    requires RealKey(k)
    ensures var flights := multiset{Releasing(k)};
            var w := Late(k, !press, map[], flights, Admitted(k, press));
            Enabled(w, Report(k, press)) &&
            Next(w, Report(k, press)) ==
              Late(k, press, map[], flights, Announcing(if press then Scheduling(k) else Cancelling(k)))
  {
    if press {
      PressAlone(0, k);
    } else {
      ReleaseAlone(0, k);
    }
    assert Buffer([k])[0] == k && Buffer([])[0] == 0;
  }

  /** What an event leaves behind while an auto-release of the key is about to report. */
  function AfterEvent(k: byte, press: bool): World {
    var armed := map[k := Armed(Keyboard.AUTO_RELEASE + Keyboard.AUTO_RELEASE)];
    if press then Late(k, true, armed, multiset{Releasing(k)}, Idle).(lastInput := Keyboard.AUTO_RELEASE)
    else Late(k, false, map[], multiset{Releasing(k)}, Idle)
  }

  lemma EventRuns(k: byte, press: bool, rest: seq<Step>)
    requires RealKey(k) && Possible(AfterEvent(k, press), rest)
    ensures var w := Late(k, !press, map[], multiset{Releasing(k)}, Idle);
            Possible(w, Event(k, press, rest)) && Run(w, Event(k, press, rest)) == Run(AfterEvent(k, press), rest)
  {
    var flights, last := multiset{Releasing(k)}, if press then Scheduling(k) else Cancelling(k);
    var w0, w1 := Late(k, !press, map[], flights, Idle), Late(k, !press, map[], flights, Admitted(k, press));
    var w2, w3 := Late(k, press, map[], flights, Announcing(last)), Late(k, press, map[], flights, last);
    EventReported(k, press);
    StepThen(w3, Finish, rest, AfterEvent(k, press));
    StepThen(w2, Announce, [Finish] + rest, w3);
    StepThen(w1, Report(k, press), [Announce] + ([Finish] + rest), w2);
    StepThen(w0, Admit(k, press), [Report(k, press)] + ([Announce] + ([Finish] + rest)), w1);
  }

  lemma RepressRuns(k: byte)
    requires RealKey(k)
    ensures Possible(START, Repress(k)) && Run(START, Repress(k)) == AfterEvent(k, true)
  {
    EventRuns(k, true, []);
    EventRuns(k, false, Event(k, true, []));
    OverdueRuns(k, Event(k, false, Event(k, true, [])));
    PressFirstRuns(k, Overdue(k, Event(k, false, Event(k, true, []))));
  }

  /** Such a state is reached: the second press of this run is auto-released however punctual its keepalives are. */
  lemma RepressInFlight(p: Plan)
    requires Jittery(p) && Arrival(p, 0) == Keyboard.AUTO_RELEASE
    ensures Possible(START, Repress(p.key)) && JustPressed(p, Run(START, Repress(p.key)))
    ensures !NoFlight(Run(START, Repress(p.key)), p.key)
  {
    RepressRuns(p.key);
    BufferMembers([p.key], p.key);
  }

  /** The budget is tight: if the first keepalive is delayed 50 ms or more beyond the press, the key's
      timer is due no later than the keepalive arrives. */
  lemma JitterBudgetIsTight(p: Plan, w: World)
    requires JustPressed(p, w) && p.delay(1) - p.delay(0) >= MAX_LATENESS
    ensures Enabled(w, Wait(Arrival(p, 1)))
    ensures Enabled(Next(w, Wait(Arrival(p, 1))), Expire(p.key))
  {
    assert Arrival(p, 1) - Arrival(p, 0) == EXPECTED_RATE + p.delay(1) - p.delay(0);
  }
}
