/** The debounce with timers that cannot always be stopped: a timer that has expired leaves a closure behind, which runs
    later whatever has happened to the timer meanwhile. */
module AtxRace {
  import opened Common
  import opened AtxDebounce

  /** What a timer's closure captured, when it is due, and how many frames had been accepted when it was started. */
  datatype Timer = Timer(state: Atx, deadline: int, born: nat)

  /** The state last published, the timer the manager knows of, the timers still running, the closures of expired
      timers waiting for the lock, and the accepted frames. */
  datatype World = World(
    last: Option<Atx>,
    field: Option<nat>,
    running: map<nat, Timer>,
    expired: map<nat, Timer>,
    started: nat,
    frames: seq<Atx>,
    clock: int)

  datatype Step = Accept(at: int, state: Atx) | Expire(at: int, id: nat) | RunClosure(at: int, id: nat)

  function TimerOf(w: World, id: nat): Option<Timer> {
    if id in w.running then Some(w.running[id]) else if id in w.expired then Some(w.expired[id]) else None
  }

  /** The publisher as the manager's fields describe it. */
  function FieldsOf(w: World): Publisher {
    Publisher(w.last,
      if w.field.Some? && TimerOf(w, w.field.value).Some?
      then var t := TimerOf(w, w.field.value).value; Some(Pending(t.state, t.deadline)) else None)
  }

  predicate StepEnabled(w: World, s: Step) {
    w.clock <= s.at &&
    match s
    case Accept(_, _) => true
    case Expire(at, id) => id in w.running && w.running[id].deadline <= at
    case RunClosure(_, id) => id in w.expired
  }

  /** A frame cancels the current timer by stopping it, which an expired timer does not notice, and by forgetting it;
      a closure publishes what it captured and forgets the current timer, whichever that is. */
  function StepNext(w: World, s: Step, debounce: int): World
    requires StepEnabled(w, s)
  {
    match s
    case Accept(at, f) =>
      var before := FieldsOf(w);
      var after := React(before, f, at, debounce).0;
      var frames := w.frames + [f];
      if after.timer.None? then
        w.(last := after.last, field := None, running := if w.field.Some? then w.running - {w.field.value} else w.running,
           frames := frames, clock := at)
      else if before.timer.None? then
        w.(last := after.last, field := Some(w.started), started := w.started + 1, frames := frames, clock := at,
           running := w.running[w.started := Timer(f, at + debounce, |frames|)])
      else w.(frames := frames, clock := at)
    case Expire(at, id) =>
      w.(running := w.running - {id}, expired := w.expired[id := w.running[id]], clock := at)
    case RunClosure(at, id) =>
      w.(last := Some(w.expired[id].state), field := None, expired := w.expired - {id}, clock := at)
  }

  predicate StepsPossible(w: World, steps: seq<Step>, debounce: int)
    decreases |steps|
  {
    steps == [] ||
    (StepEnabled(w, steps[0]) && StepsPossible(StepNext(w, steps[0], debounce), steps[1..], debounce))
  }

  function RunSteps(w: World, steps: seq<Step>, debounce: int): World
    requires StepsPossible(w, steps, debounce)
    decreases |steps|
  {
    if steps == [] then w else RunSteps(StepNext(w, steps[0], debounce), steps[1..], debounce)
  }

  const IDLE: World := World(None, None, map[], map[], 0, [], 0)

  function Latest(w: World): Atx
    requires w.frames != []
  {
    w.frames[|w.frames| - 1]
  }

  /** Subscribers see the latest frame, or its disk LED still on while the current timer waits to publish it. */
  predicate Synced(w: World) {
    if w.frames == [] then w.last == None && w.field == None
    else if w.field.None? then w.last == Some(Latest(w))
    else
      && TimerOf(w, w.field.value).Some? && TimerOf(w, w.field.value).value.state == Latest(w)
      && !Latest(w).hdd && w.last == Some(Latest(w).(hdd := true))
  }

  /** A frame that differs from what the timer captured has been accepted since it was started. */
  ghost predicate Overtaken(w: World, t: Timer) {
    exists k :: t.born <= k < |w.frames| && w.frames[k] != t.state
  }

  predicate TimerFits(w: World, t: Timer) {
    !t.state.hdd && 0 < t.born <= |w.frames| && w.frames[t.born - 1] == t.state
  }

  /** Whatever is out of step is so because a closure published an OFF and no timer is current. */
  ghost predicate Coherent(w: World) {
    && (forall id :: id in w.running ==> id < w.started && id !in w.expired && TimerFits(w, w.running[id]))
    && (forall id :: id in w.expired ==> id < w.started && TimerFits(w, w.expired[id]))
    && (w.field.Some? ==> Synced(w) && TimerOf(w, w.field.value).Some? && !Overtaken(w, TimerOf(w, w.field.value).value))
    && (w.field.None? && !Synced(w) ==> w.frames != [] && w.last.Some? && !w.last.value.hdd)
  }

  lemma OvertakenGrows(w: World, v: World, f: Atx, t: Timer)
    requires v.frames == w.frames + [f] && t.born <= |w.frames|
    ensures Overtaken(v, t) <==> Overtaken(w, t) || f != t.state
  {
    if Overtaken(w, t) {
      var k :| t.born <= k < |w.frames| && w.frames[k] != t.state;
      assert v.frames[k] != t.state;
    }
    if f != t.state {
      assert v.frames[|w.frames|] != t.state;
    }
    if k :| t.born <= k < |v.frames| && v.frames[k] != t.state {
      assert k < |w.frames| ==> w.frames[k] != t.state;
    }
  }

  /** Every frame brings subscribers back in step, whatever they saw before. */
  lemma AcceptSyncs(w: World, s: Step, debounce: int)
    requires Coherent(w) && StepEnabled(w, s) && s.Accept?
    ensures Synced(StepNext(w, s, debounce))
  {
  }

  lemma AcceptKeepsCoherent(w: World, s: Step, debounce: int)
    requires Coherent(w) && StepEnabled(w, s) && s.Accept?
    ensures Coherent(StepNext(w, s, debounce))
  {
    var v := StepNext(w, s, debounce);
    AcceptSyncs(w, s, debounce);
    if v.field.Some? && v.field == w.field {
      OvertakenGrows(w, v, s.state, TimerOf(v, v.field.value).value);
    }
  }

  lemma ExpiryKeepsCoherent(w: World, s: Step, debounce: int)
    requires Coherent(w) && StepEnabled(w, s) && s.Expire?
    ensures Coherent(StepNext(w, s, debounce))
  {
    var v := StepNext(w, s, debounce);
    assert forall id :: TimerOf(v, id) == TimerOf(w, id);
    assert forall t :: Overtaken(v, t) == Overtaken(w, t);
  }

  lemma ClosureKeepsCoherent(w: World, s: Step, debounce: int)
    requires Coherent(w) && StepEnabled(w, s) && s.RunClosure?
    ensures Coherent(StepNext(w, s, debounce))
  {
  }

  lemma TimersKeepCoherent(w: World, s: Step, debounce: int)
    requires Coherent(w) && StepEnabled(w, s) && !s.Accept?
    ensures Coherent(StepNext(w, s, debounce))
  {
    if s.Expire? {
      ExpiryKeepsCoherent(w, s, debounce);
    } else {
      ClosureKeepsCoherent(w, s, debounce);
    }
  }

  lemma {:induction false} RunKeepsCoherent(w: World, steps: seq<Step>, debounce: int)
    requires Coherent(w) && StepsPossible(w, steps, debounce)
    ensures Coherent(RunSteps(w, steps, debounce))
    decreases |steps|
  {
    if steps != [] {
      if steps[0].Accept? {
        AcceptKeepsCoherent(w, steps[0], debounce);
      } else {
        TimersKeepCoherent(w, steps[0], debounce);
      }
      RunKeepsCoherent(StepNext(w, steps[0], debounce), steps[1..], debounce);
    }
  }

  // ---------- when subscribers fall out of step ----------

  /** What the last closure to run since the last frame published. */
  function LastClosure(w: World, published: Option<Atx>, steps: seq<Step>, debounce: int): Option<Atx>
    requires StepsPossible(w, steps, debounce)
    decreases |steps|
  {
    if steps == [] then published
    else
      LastClosure(StepNext(w, steps[0], debounce),
        match steps[0]
        case Accept(_, _) => None
        case Expire(_, _) => published
        case RunClosure(_, id) => Some(w.expired[id].state),
        steps[1..], debounce)
  }

  lemma {:induction false} SyncedIffClosure(w: World, published: Option<Atx>, steps: seq<Step>, debounce: int)
    requires Coherent(w) && StepsPossible(w, steps, debounce)
    requires published.Some? ==> w.frames != [] && w.field.None? && w.last == published
    requires published.None? ==> Synced(w)
    ensures var v := RunSteps(w, steps, debounce);
            var last := LastClosure(w, published, steps, debounce);
            && (last.Some? ==> v.frames != [])
            && (Synced(v) <==> last == None || last == Some(Latest(v)))
    decreases |steps|
  {
    if steps != [] {
      var s := steps[0];
      var v := StepNext(w, s, debounce);
      if s.Accept? {
        AcceptKeepsCoherent(w, s, debounce);
        AcceptSyncs(w, s, debounce);
      } else {
        TimersKeepCoherent(w, s, debounce);
      }
      var now := match s
                 case Accept(_, _) => None
                 case Expire(_, _) => published
                 case RunClosure(_, id) => Some(w.expired[id].state);
      SyncedIffClosure(v, now, steps[1..], debounce);
    }
  }

  /** Over every run, with any number of cancellations that came too late: subscribers are out of step exactly if since
      the last frame a closure has run, and the last one that did captured something else than the latest frame. */
  lemma OutOfStepIff(steps: seq<Step>, debounce: int)
    requires StepsPossible(IDLE, steps, debounce)
    ensures var v := RunSteps(IDLE, steps, debounce);
            var last := LastClosure(IDLE, None, steps, debounce);
            && (last.Some? ==> v.frames != [])
            && (!Synced(v) <==> last.Some? && last.value != Latest(v))
  {
    SyncedIffClosure(IDLE, None, steps, debounce);
  }

  /** The next frame brings them back, whichever it is. */
  lemma NextFrameSyncs(steps: seq<Step>, frame: Step, debounce: int)
    requires StepsPossible(IDLE, steps, debounce) && frame.Accept? && StepEnabled(RunSteps(IDLE, steps, debounce), frame)
    ensures Synced(StepNext(RunSteps(IDLE, steps, debounce), frame, debounce))
  {
    RunKeepsCoherent(IDLE, steps, debounce);
    AcceptSyncs(RunSteps(IDLE, steps, debounce), frame, debounce);
  }

  /** The frame that cancels a timer always differs from what the timer captured. */
  lemma CancellingFrameDiffers(steps: seq<Step>, frame: Step, debounce: int)
    requires StepsPossible(IDLE, steps, debounce) && frame.Accept? && StepEnabled(RunSteps(IDLE, steps, debounce), frame)
    requires var w := RunSteps(IDLE, steps, debounce);
             w.field.Some? && StepNext(w, frame, debounce).field != w.field
    ensures var w := RunSteps(IDLE, steps, debounce);
            TimerOf(w, w.field.value).Some? && frame.state != TimerOf(w, w.field.value).value.state
  {
    RunKeepsCoherent(IDLE, steps, debounce);
  }

  /** A closure puts subscribers out of step only if a frame that differs from what it captured came after its timer was
      started; the current timer's closure never does. */
  lemma OnlyOvertakenDesyncs(steps: seq<Step>, closure: Step, debounce: int)
    requires StepsPossible(IDLE, steps, debounce) && closure.RunClosure?
    requires StepEnabled(RunSteps(IDLE, steps, debounce), closure)
    ensures var w := RunSteps(IDLE, steps, debounce);
            && (!Synced(StepNext(w, closure, debounce)) ==> Overtaken(w, w.expired[closure.id]))
            && (w.field == Some(closure.id) ==> Synced(StepNext(w, closure, debounce)))
  {
    RunKeepsCoherent(IDLE, steps, debounce);
    var w := RunSteps(IDLE, steps, debounce);
    var t := w.expired[closure.id];
    assert TimerFits(w, t);
    if t.state != Latest(w) {
      assert w.frames[|w.frames| - 1] != t.state && t.born <= |w.frames| - 1;
      assert Overtaken(w, t);
    }
  }

  // ---------- cancellation in time ----------

  /** No frame is accepted while a closure waits for the lock. */
  predicate InTime(w: World, steps: seq<Step>, debounce: int)
    requires StepsPossible(w, steps, debounce)
    decreases |steps|
  {
    steps == [] ||
    ((steps[0].Accept? ==> w.expired == map[]) && InTime(StepNext(w, steps[0], debounce), steps[1..], debounce))
  }

  /** The current timer is the only one there is. */
  predicate OneTimer(w: World) {
    w.running.Keys + w.expired.Keys == if w.field.Some? then {w.field.value} else {}
  }

  lemma StepKeepsOneTimer(w: World, s: Step, debounce: int)
    requires Coherent(w) && OneTimer(w) && StepEnabled(w, s) && (s.Accept? ==> w.expired == map[])
    ensures OneTimer(StepNext(w, s, debounce))
  {
    if !s.Accept? {
      assert s.id in w.running.Keys + w.expired.Keys;
    } else if w.field.Some? {
      assert w.running.Keys + w.expired.Keys == w.running.Keys;
    }
  }

  lemma CurrentClosureSyncs(w: World, s: Step, debounce: int)
    requires Coherent(w) && Synced(w) && OneTimer(w) && StepEnabled(w, s) && !s.Accept?
    ensures Synced(StepNext(w, s, debounce))
  {
    assert s.id in w.running.Keys + w.expired.Keys;
  }

  lemma {:induction false} InTimeStaysSynced(w: World, steps: seq<Step>, debounce: int)
    requires Coherent(w) && Synced(w) && OneTimer(w) && StepsPossible(w, steps, debounce) && InTime(w, steps, debounce)
    ensures Synced(RunSteps(w, steps, debounce))
    decreases |steps|
  {
    if steps != [] {
      var s := steps[0];
      var v := StepNext(w, s, debounce);
      if s.Accept? {
        AcceptKeepsCoherent(w, s, debounce);
        AcceptSyncs(w, s, debounce);
      } else {
        TimersKeepCoherent(w, s, debounce);
        CurrentClosureSyncs(w, s, debounce);
      }
      StepKeepsOneTimer(w, s, debounce);
      InTimeStaysSynced(v, steps[1..], debounce);
    }
  }

  /** If no frame is accepted between a timer's expiry and its closure, subscribers are always in step. */
  lemma CancelledInTimeIsSafe(steps: seq<Step>, debounce: int)
    requires StepsPossible(IDLE, steps, debounce) && InTime(IDLE, steps, debounce)
    ensures Synced(RunSteps(IDLE, steps, debounce))
  {
    InTimeStaysSynced(IDLE, steps, debounce);
  }

  // ---------- the failing runs ----------

  const ON: Atx := Atx(true, true)
  const OFF: Atx := Atx(true, false)

  lemma StepThen(w: World, s: Step, rest: seq<Step>, v: World, debounce: int)
    requires StepEnabled(w, s) && StepNext(w, s, debounce) == v && StepsPossible(v, rest, debounce)
    ensures StepsPossible(w, [s] + rest, debounce) && RunSteps(w, [s] + rest, debounce) == RunSteps(v, rest, debounce)
  {
    assert ([s] + rest)[0] == s && ([s] + rest)[1..] == rest;
  }

  /** The disk LED goes off for the whole debounce time and comes on again before the closure has the lock. */
  function LateCancel(d: nat): seq<Step> {
    [Accept(0, ON)] + ([Accept(0, OFF)] + ([Expire(d, 0)] + ([Accept(d, ON)] + ([RunClosure(d, 0)] + []))))
  }

  /** Then OFF stays published while the LED is on. */
  lemma LateCancelDesyncs(d: nat)
    ensures StepsPossible(IDLE, LateCancel(d), d) && !Synced(RunSteps(IDLE, LateCancel(d), d))
  {
    var t := Timer(OFF, d, 2);
    var w1 := World(Some(ON), None, map[], map[], 0, [ON], 0);
    var w2 := World(Some(ON), Some(0), map[0 := t], map[], 1, [ON, OFF], 0);
    var w3 := World(Some(ON), Some(0), map[], map[0 := t], 1, [ON, OFF], d);
    var w4 := World(Some(ON), None, map[], map[0 := t], 1, [ON, OFF, ON], d);
    var w5 := World(Some(OFF), None, map[], map[], 1, [ON, OFF, ON], d);
    StepThen(w4, RunClosure(d, 0), [], w5, d);
    StepThen(w3, Accept(d, ON), [RunClosure(d, 0)] + [], w4, d);
    StepThen(w2, Expire(d, 0), [Accept(d, ON)] + ([RunClosure(d, 0)] + []), w3, d);
    StepThen(w1, Accept(0, OFF), [Expire(d, 0)] + ([Accept(d, ON)] + ([RunClosure(d, 0)] + [])), w2, d);
    StepThen(IDLE, Accept(0, ON), [Accept(0, OFF)] + ([Expire(d, 0)] + ([Accept(d, ON)] + ([RunClosure(d, 0)] + []))), w1, d);
  }

  /** As before, but the LED is off again, and a new timer started, when the late closure runs. */
  function ForgottenTimer(d: nat): seq<Step> {
    [Accept(0, ON)] + ([Accept(0, OFF)] + ([Expire(d, 0)] + ([Accept(d, ON)] + AfterLate(d))))
  }

  function AfterLate(d: nat): seq<Step> {
    [Accept(d, OFF)] + ([RunClosure(d, 0)] + ([Accept(d, ON)] + ([Expire(2 * d, 1)] + ([RunClosure(2 * d, 1)] + []))))
  }

  /** The late closure makes the manager forget the new timer, so the next ON does not stop it, and a debounce time
      later it publishes OFF while the LED is on. */
  lemma ForgottenTimerDesyncs(d: nat)
    ensures StepsPossible(IDLE, ForgottenTimer(d), d) && !Synced(RunSteps(IDLE, ForgottenTimer(d), d))
  {
    var t := Timer(OFF, d, 2);
    var w1 := World(Some(ON), None, map[], map[], 0, [ON], 0);
    var w2 := World(Some(ON), Some(0), map[0 := t], map[], 1, [ON, OFF], 0);
    var w3 := World(Some(ON), Some(0), map[], map[0 := t], 1, [ON, OFF], d);
    var w4 := World(Some(ON), None, map[], map[0 := t], 1, [ON, OFF, ON], d);
    AfterLateDesyncs(d);
    StepThen(w3, Accept(d, ON), AfterLate(d), w4, d);
    StepThen(w2, Expire(d, 0), [Accept(d, ON)] + AfterLate(d), w3, d);
    StepThen(w1, Accept(0, OFF), [Expire(d, 0)] + ([Accept(d, ON)] + AfterLate(d)), w2, d);
    StepThen(IDLE, Accept(0, ON), [Accept(0, OFF)] + ([Expire(d, 0)] + ([Accept(d, ON)] + AfterLate(d))), w1, d);
  }

  lemma AfterLateDesyncs(d: nat)
    ensures var w4 := World(Some(ON), None, map[], map[0 := Timer(OFF, d, 2)], 1, [ON, OFF, ON], d);
            StepsPossible(w4, AfterLate(d), d) && !Synced(RunSteps(w4, AfterLate(d), d))
  {
    var t0, t1 := Timer(OFF, d, 2), Timer(OFF, 2 * d, 4);
    var w4 := World(Some(ON), None, map[], map[0 := t0], 1, [ON, OFF, ON], d);
    var w5 := World(Some(ON), Some(1), map[1 := t1], map[0 := t0], 2, [ON, OFF, ON, OFF], d);
    var w6 := World(Some(OFF), None, map[1 := t1], map[], 2, [ON, OFF, ON, OFF], d);
    var w7 := World(Some(ON), None, map[1 := t1], map[], 2, [ON, OFF, ON, OFF, ON], d);
    var w8 := World(Some(ON), None, map[], map[1 := t1], 2, [ON, OFF, ON, OFF, ON], 2 * d);
    var w9 := World(Some(OFF), None, map[], map[], 2, [ON, OFF, ON, OFF, ON], 2 * d);
    StepThen(w8, RunClosure(2 * d, 1), [], w9, d);
    StepThen(w7, Expire(2 * d, 1), [RunClosure(2 * d, 1)] + [], w8, d);
    StepThen(w6, Accept(d, ON), [Expire(2 * d, 1)] + ([RunClosure(2 * d, 1)] + []), w7, d);
    StepThen(w5, RunClosure(d, 0), [Accept(d, ON)] + ([Expire(2 * d, 1)] + ([RunClosure(2 * d, 1)] + [])), w6, d);
    StepThen(w4, Accept(d, OFF),
             [RunClosure(d, 0)] + ([Accept(d, ON)] + ([Expire(2 * d, 1)] + ([RunClosure(2 * d, 1)] + []))), w5, d);
  }
}
