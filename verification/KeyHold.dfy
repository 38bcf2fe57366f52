/** The hold protocol: key events from one input queue, auto-release timers, keepalives and disconnect clears, each split
    at its lock boundaries and interleaved in any order, behind the guard that asks for the USB state. */
module KeyHold {
  import opened Common
  import opened KeyBuffer
  import opened KeepAlive

  /** A timer in the table is running, or has fired and its goroutine has not yet taken the lock. */
  datatype Timer = Armed(deadline: int) | Expired

  /** An auto-release in flight: fired, its timer removed, or decided to report the release. */
  datatype Flight = Fired(key: byte) | Removed(key: byte) | Releasing(key: byte)

  /** The key event being served: let through by the guard; reported, with the new state still to be announced; then
      with the timer table still to be touched. */
  datatype Client =
    | Idle
    | Admitted(key: byte, press: bool)
    | Announcing(next: Client)
    | Scheduling(key: byte)
    | Cancelling(key: byte)

  /** `announcing`: somebody other than the client holds the keyboard lock and has yet to announce a new state.
      `clears`: disconnect clears that have not asked the guard. `clearing`: those it let through that have not reported.
      `ticking`: a keepalive was accepted and has yet to prolong the timers by this much. */
  datatype World = World(
    now: int,
    usbReady: bool,
    down: KeysDown,
    timers: map<byte, Timer>,
    flights: multiset<Flight>,
    client: Client,
    announcing: bool,
    clears: nat,
    clearing: nat,
    ticking: Option<int>,
    stamps: Stamps,
    lastInput: int)

  datatype Step =
    | Wait(until: int)
    | Usb(ready: bool)
    | Admit(key: byte, press: bool)
    | Report(key: byte, press: bool)
    | Announce
    | Finish
    | Expire(key: byte)
    | Take(key: byte)
    | Read(key: byte)
    | Release(key: byte)
    | KeepAliveTick
    | Prolong
    | CancelAll
    | ClearAgain
    | Guard
    | ClearReport

  function Schedule(w: World, key: byte): World {
    w.(timers := w.timers[key := Armed(w.now + Keyboard.AUTO_RELEASE)], lastInput := w.now)
  }

  function Cancel(w: World, key: byte): World {
    w.(timers := w.timers - {key})
  }

  /** The steps that read the tracked state, report and track the new one under the keyboard lock. */
  predicate TakesKeyboard(s: Step) {
    s.Report? || s.Release? || s.ClearReport?
  }

  /** Nobody holds the keyboard lock. */
  predicate KeyboardFree(w: World) {
    !w.announcing && !w.client.Announcing?
  }

  predicate Enabled(w: World, s: Step) {
    (TakesKeyboard(s) ==> KeyboardFree(w)) &&
    match s
    case Wait(until) => until >= w.now
    case Usb(_) => true
    case Admit(key, _) => w.client.Idle? && key > ROLL_OVER
    case Report(key, press) => w.client == Admitted(key, press) && |w.down.keys| == SLOTS
    case Announce => !KeyboardFree(w) && w.ticking.None?
    case Finish => w.client.Scheduling? || w.client.Cancelling?
    case Expire(key) => key in w.timers && w.timers[key].Armed? && w.timers[key].deadline <= w.now
    case Take(key) => Fired(key) in w.flights
    case Read(key) => Removed(key) in w.flights
    case Release(key) => Releasing(key) in w.flights && |w.down.keys| == SLOTS
    case KeepAliveTick => w.ticking.None?
    case Prolong => w.ticking.Some?
    case CancelAll => true
    case ClearAgain => true
    case Guard => w.clears > 0
    case ClearReport => w.clearing > 0
  }

  /** What the client still has to do once its report is announced. */
  function Remaining(down: KeysDown, key: byte, press: bool): Client
    requires |down.keys| > 0
  {
    if IsModifier(key) then Idle
    else if press && down.keys[0] != ROLL_OVER then Scheduling(key)
    else Cancelling(key)
  }

  /** A key event is dropped if the guard finds USB not ready, and so is a clear. A changed state is announced under the
      keyboard lock, which resets the keepalive stamps under theirs; a keepalive holds that lock until it has prolonged
      the timers. */
  function Next(w: World, s: Step): World
    requires Enabled(w, s)
  {
    match s
    case Wait(until) => w.(now := until)
    case Usb(ready) => w.(usbReady := ready)
    case Admit(key, press) => if w.usbReady then w.(client := Admitted(key, press)) else w
    case Report(key, press) =>
      var down := KeyStep(w.down, key, press);
      var next := Remaining(down, key, press);
      w.(down := down, client := if down == w.down then next else Announcing(next))
    case Announce =>
      w.(stamps := Stamps(None, None), announcing := false,
         client := if w.client.Announcing? then w.client.next else w.client)
    case Finish =>
      (if w.client.Scheduling? then Schedule(w, w.client.key) else Cancel(w, w.client.key)).(client := Idle)
    case Expire(key) =>
      w.(timers := w.timers[key := Expired], flights := w.flights + multiset{Fired(key)})
    case Take(key) =>
      var rest := w.flights - multiset{Fired(key)};
      if key in w.timers then Cancel(w, key).(flights := rest + multiset{Removed(key)})
      else w.(flights := rest)
    case Read(key) =>
      var rest := w.flights - multiset{Removed(key)};
      w.(flights := if key in w.down.keys then rest + multiset{Releasing(key)} else rest)
    case Release(key) =>
      var down := KeyStep(w.down, key, false);
      w.(down := down, announcing := down != w.down, flights := w.flights - multiset{Releasing(key)})
    case KeepAliveTick =>
      (match Judge(w.stamps, w.now)
       case Reject => w
       case Extend(duration) => w.(stamps := Advance(w.stamps, w.now), ticking := Some(duration)))
    case Prolong =>
      w.(timers := map k | k in w.timers :: Armed(w.now + w.ticking.value), lastInput := w.now, ticking := None)
    case CancelAll => w.(timers := map[], clears := w.clears + 1)
    case ClearAgain => w.(clears := w.clears + 1)
    case Guard => w.(clears := w.clears - 1, clearing := if w.usbReady then w.clearing + 1 else w.clearing)
    case ClearReport =>
      var down := Settle(KeysDown(0, Fit([])));
      w.(down := down, announcing := down != w.down, clearing := w.clearing - 1)
  }

  predicate Possible(w: World, steps: seq<Step>)
    decreases |steps|
  {
    steps == [] || (Enabled(w, steps[0]) && Possible(Next(w, steps[0]), steps[1..]))
  }

  function Run(w: World, steps: seq<Step>): World
    requires Possible(w, steps)
    decreases |steps|
  {
    if steps == [] then w else Run(Next(w, steps[0]), steps[1..])
  }

  const START: World :=
    World(0, false, KeysDown(0, Buffer([])), map[], multiset{}, Idle, false, 0, 0, None, Stamps(None, None), 0)

  /** A run put together step by step. */
  lemma StepThen(w: World, s: Step, rest: seq<Step>, v: World)
    requires Enabled(w, s) && Next(w, s) == v && Possible(v, rest)
    ensures Possible(w, [s] + rest) && Run(w, [s] + rest) == Run(v, rest)
  {
    assert ([s] + rest)[0] == s && ([s] + rest)[1..] == rest;
  }

  // ---------- who is responsible for a key ----------

  /** What the client will do about the timer table. */
  function Pending(c: Client): Client {
    if c.Announcing? then c.next else c
  }

  /** A pending timer, an auto-release past its timer, or a press about to schedule. */
  predicate OwnRelease(w: World, key: byte) {
    || key in w.timers
    || Removed(key) in w.flights
    || Releasing(key) in w.flights
    || Pending(w.client) == Scheduling(key)
  }

  predicate NoClear(w: World) {
    w.clears == 0 && w.clearing == 0
  }

  /** Someone is responsible for the key: it will be released on its own, or a disconnect clear is under way. */
  predicate Covered(w: World, key: byte) {
    OwnRelease(w, key) || !NoClear(w)
  }

  predicate IsHeld(w: World, key: byte) {
    key in w.down.keys && key != 0
  }

  ghost predicate PackedWith(w: World, held: seq<byte>) {
    OrderedSet(held) && w.down.keys == Buffer(held)
  }

  ghost predicate Packed(w: World) {
    exists held :: PackedWith(w, held)
  }

  /** Keys that own a slot and a timer. */
  predicate RealKey(key: byte) {
    key > ROLL_OVER && !IsModifier(key)
  }

  predicate ProperClient(c: Client) {
    match c
    case Idle => true
    case Admitted(key, _) => key > ROLL_OVER
    case Announcing(next) => !next.Admitted? && !next.Announcing? && ProperClient(next)
    case Scheduling(key) => RealKey(key)
    case Cancelling(key) => RealKey(key)
  }

  ghost predicate Sane(w: World) {
    && Packed(w)
    && (forall k :: IsHeld(w, k) ==> RealKey(k))
    && (forall k :: k in w.timers ==> RealKey(k))
    && (forall f :: f in w.flights ==> RealKey(f.key))
    && ProperClient(w.client)
  }

  /** An expired timer has its closure in flight, no timer runs longer than 100 ms past the last input, and with a single
      input queue a key whose timer is to be cancelled is up. */
  predicate Orderly(w: World) {
    && (forall k :: k in w.timers && w.timers[k].Expired? ==> Fired(k) in w.flights)
    && (Pending(w.client).Cancelling? ==> !IsHeld(w, Pending(w.client).key))
    && (forall k :: k in w.timers && w.timers[k].Armed? ==> w.timers[k].deadline <= w.lastInput + Keyboard.AUTO_RELEASE)
    && w.lastInput <= w.now
    && (w.ticking.Some? ==> w.ticking.value <= BASE_EXTENSION && w.stamps.lastArrival.Some?)
  }

  ghost predicate Safe(w: World) {
    Sane(w) && Orderly(w)
  }

  /** Nothing is pending and nothing is in flight. */
  predicate Quiescent(w: World) {
    w.timers == map[] && w.flights == multiset{} && w.client == Idle && KeyboardFree(w) && NoClear(w) && w.ticking == None
  }

  lemma BufferMembers(s: seq<byte>, k: byte)
    requires |s| <= SLOTS && k != 0
    ensures k in Buffer(s) <==> k in s
  {
    assert Buffer(s) == s + Fill(SLOTS - |s|, 0);
  }

  /** What one key event does to a packed buffer, read as membership. */
  lemma KeyStepMembers(w: World, held: seq<byte>, key: byte, press: bool)
    requires PackedWith(w, held) && key > ROLL_OVER && !IsModifier(key)
    ensures var down := KeyStep(w.down, key, press);
            && OrderedSet(Expected(held, key, press)) && down.keys == Buffer(Expected(held, key, press))
            && (forall k :: k in down.keys && k != 0 ==> k in w.down.keys || (press && k == key))
            && (!press ==> key !in down.keys)
  {
    KeyStepRefinesOrderedSet(w.down.modifier, held, key, press);
    var after := Expected(held, key, press);
    forall k: byte | k != 0
      ensures k in Buffer(after) <==> k in after
      ensures k in Buffer(held) <==> k in held
    {
      BufferMembers(after, k);
      BufferMembers(held, k);
    }
  }

  // ---------- every step keeps the protocol sane ----------

  /** The keys after a step under the keyboard lock. */
  lemma KeyboardStepMembers(w: World, s: Step)
    requires Sane(w) && Enabled(w, s) && TakesKeyboard(s)
    ensures var v := Next(w, s);
            && Packed(v)
            && (forall k :: IsHeld(v, k) ==> IsHeld(w, k) || (s == Report(k, true) && RealKey(k)))
            && (s.Release? || (s.Report? && !s.press && !IsModifier(s.key)) ==> !IsHeld(v, s.key))
            && (s.ClearReport? ==> forall k :: !IsHeld(v, k))
  {
    var held :| PackedWith(w, held);
    var v := Next(w, s);
    if s.ClearReport? {
      assert PackedWith(v, []);
    } else if IsModifier(s.key) {
      assert PackedWith(v, held);
    } else {
      KeyStepMembers(w, held, s.key, s.Report? && s.press);
      assert PackedWith(v, Expected(held, s.key, s.Report? && s.press));
    }
  }

  lemma OtherStepKeepsPacked(w: World, s: Step)
    requires Packed(w) && Enabled(w, s) && !TakesKeyboard(s)
    ensures Next(w, s).down == w.down && Packed(Next(w, s))
  {
    var held :| PackedWith(w, held);
    assert PackedWith(Next(w, s), held);
  }

  /** Only one of the client and the others holds the keyboard lock, so one announcement frees it. */
  lemma FreeAfterAnnouncement(w: World)
    requires ProperClient(w.client) && Enabled(w, Announce)
    ensures KeyboardFree(Next(w, Announce))
  {
  }

  lemma KeyboardStepIsSane(w: World, s: Step)
    requires Sane(w) && Enabled(w, s) && TakesKeyboard(s)
    ensures Sane(Next(w, s))
  {
    KeyboardStepMembers(w, s);
  }

  lemma NextIsSane(w: World, s: Step)
    requires Sane(w) && Enabled(w, s)
    ensures Sane(Next(w, s))
  {
    if TakesKeyboard(s) {
      KeyboardStepIsSane(w, s);
    } else {
      OtherStepKeepsPacked(w, s);
    }
  }

  predicate IsFlightStep(s: Step) {
    s.Expire? || s.Take? || s.Read?
  }

  /** A step under the keyboard lock leaves time, timers and keepalives alone. */
  predicate SameTimers(w: World, v: World) {
    && v.now == w.now && v.timers == w.timers && v.lastInput == w.lastInput && v.ticking == w.ticking && v.stamps == w.stamps
    && (forall k :: Fired(k) in w.flights ==> Fired(k) in v.flights)
  }

  lemma SameTimersIsOrderly(w: World, v: World)
    requires Orderly(w) && SameTimers(w, v)
    requires Pending(v.client).Cancelling? ==> !IsHeld(v, Pending(v.client).key)
    ensures Orderly(v)
  {
  }

  /** Only a release leads to cancelling a timer. */
  lemma RemainingAfterReport(w: World, key: byte, press: bool)
    requires Enabled(w, Report(key, press))
    ensures Pending(Next(w, Report(key, press)).client) ==
            if IsModifier(key) then Idle else if press then Scheduling(key) else Cancelling(key)
  {
  }

  lemma CancelledStaysUp(w: World, v: World)
    requires Safe(w) && v.client == w.client && forall k :: IsHeld(v, k) ==> IsHeld(w, k)
    ensures Pending(v.client).Cancelling? ==> !IsHeld(v, Pending(v.client).key)
  {
  }

  lemma KeyboardStepCancels(w: World, s: Step)
    requires Safe(w) && Enabled(w, s) && TakesKeyboard(s)
    ensures var c := Pending(Next(w, s).client);
            c.Cancelling? ==> !IsHeld(Next(w, s), c.key)
  {
    KeyboardStepMembers(w, s);
    if s.Report? {
      RemainingAfterReport(w, s.key, s.press);
    } else {
      assert Next(w, s).client == w.client;
      CancelledStaysUp(w, Next(w, s));
    }
  }

  lemma KeyboardStepIsOrderly(w: World, s: Step)
    requires Safe(w) && Enabled(w, s) && TakesKeyboard(s)
    ensures Orderly(Next(w, s))
  {
    KeyboardStepCancels(w, s);
    SameTimersIsOrderly(w, Next(w, s));
  }

  lemma ExpireIsOrderly(w: World, key: byte)
    requires Orderly(w) && Enabled(w, Expire(key))
    ensures Orderly(Next(w, Expire(key)))
  {
  }

  lemma FlightStepIsOrderly(w: World, s: Step)
    requires Orderly(w) && Enabled(w, s) && (s.Take? || s.Read?)
    ensures Orderly(Next(w, s))
  {
  }

  lemma TickIsOrderly(w: World)
    requires Orderly(w) && w.ticking.None?
    ensures Orderly(Next(w, KeepAliveTick))
  {
  }

  lemma TimersSetIsOrderly(w: World, s: Step)
    requires Sane(w) && Orderly(w) && Enabled(w, s) && (s.Finish? || s.Prolong?)
    ensures Orderly(Next(w, s))
  {
  }

  lemma OtherStepIsOrderly(w: World, s: Step)
    requires Sane(w) && Orderly(w) && Enabled(w, s) && !TakesKeyboard(s) && !IsFlightStep(s) && !s.KeepAliveTick?
    requires !s.Finish? && !s.Prolong?
    ensures Orderly(Next(w, s))
  {
  }

  lemma NextIsSafe(w: World, s: Step)
    requires Safe(w) && Enabled(w, s)
    ensures Safe(Next(w, s))
  {
    NextIsSane(w, s);
    if TakesKeyboard(s) {
      KeyboardStepIsOrderly(w, s);
    } else if s.Expire? {
      ExpireIsOrderly(w, s.key);
    } else if IsFlightStep(s) {
      FlightStepIsOrderly(w, s);
    } else if s.KeepAliveTick? {
      TickIsOrderly(w);
    } else if s.Finish? || s.Prolong? {
      TimersSetIsOrderly(w, s);
    } else {
      OtherStepIsOrderly(w, s);
    }
  }

  lemma {:induction false} RunIsSafe(w: World, steps: seq<Step>)
    requires Safe(w) && Possible(w, steps)
    ensures Safe(Run(w, steps))
    decreases |steps|
  {
    if steps != [] {
      NextIsSafe(w, steps[0]);
      RunIsSafe(Next(w, steps[0]), steps[1..]);
    }
  }

  lemma StartIsSafe()
    ensures Safe(START)
  {
    assert PackedWith(START, []);
  }

  // ---------- keys left behind ----------

  /** The guard drops the only clear there is: the keys it leaves down are those that nothing else will release. */
  function LeftBy(w: World, s: Step): set<byte> {
    if s.Guard? && !w.usbReady && w.clears == 1 && w.clearing == 0
    then set k | k in w.down.keys && k != 0 && !OwnRelease(w, k)
    else {}
  }

  /** A client that only cancels a timer takes the last cover of a key. */
  predicate CutsOff(w: World, s: Step, key: byte) {
    s == Finish && w.client == Cancelling(key)
    && Removed(key) !in w.flights && Releasing(key) !in w.flights && NoClear(w)
  }

  /** The key is pressed again, or another clear begins. */
  predicate TakenOn(s: Step, key: byte) {
    s == Report(key, true) || s.CancelAll? || s.ClearAgain?
  }

  predicate LosesCover(w: World, s: Step, k: byte) {
    k in LeftBy(w, s) || CutsOff(w, s, k) || (IsHeld(w, k) && !Covered(w, k) && !TakenOn(s, k))
  }

  /** What the cover of a key depends on. */
  predicate SameCover(w: World, v: World, k: byte) {
    && v.timers == w.timers && v.clears == w.clears && v.clearing == w.clearing
    && (Removed(k) in v.flights <==> Removed(k) in w.flights)
    && (Releasing(k) in v.flights <==> Releasing(k) in w.flights)
  }

  lemma ReportChanges(w: World, s: Step, k: byte)
    requires Enabled(w, s) && s.Report?
    ensures SameCover(w, Next(w, s), k) && Pending(w.client) == Admitted(s.key, s.press)
  {
  }

  lemma ReportCoversIff(w: World, v: World, s: Step, k: byte)
    requires s.Report? && SameCover(w, v, k) && Pending(w.client).Admitted? && RealKey(k)
    requires Pending(v.client) ==
             if IsModifier(s.key) then Idle else if s.press then Scheduling(s.key) else Cancelling(s.key)
    requires IsHeld(w, k) || s == Report(k, true)
    ensures !Covered(v, k) <==> LosesCover(w, s, k)
  {
  }

  lemma ReportCovers(w: World, s: Step, k: byte)
    requires Sane(w) && Enabled(w, s) && IsHeld(Next(w, s), k) && s.Report?
    ensures !Covered(Next(w, s), k) <==> LosesCover(w, s, k)
  {
    KeyboardStepMembers(w, s);
    RemainingAfterReport(w, s.key, s.press);
    ReportChanges(w, s, k);
    ReportCoversIff(w, Next(w, s), s, k);
  }

  lemma ReleaseChanges(w: World, s: Step, k: byte)
    requires Enabled(w, s) && s.Release? && k != s.key
    ensures SameCover(w, Next(w, s), k) && Next(w, s).client == w.client
  {
  }

  lemma ReleaseCoversIff(w: World, v: World, s: Step, k: byte)
    requires s.Release? && SameCover(w, v, k) && v.client == w.client && IsHeld(w, k)
    ensures !Covered(v, k) <==> LosesCover(w, s, k)
  {
  }

  lemma ReleaseCovers(w: World, s: Step, k: byte)
    requires Sane(w) && Enabled(w, s) && IsHeld(Next(w, s), k) && (s.Release? || s.ClearReport?)
    ensures !Covered(Next(w, s), k) <==> LosesCover(w, s, k)
  {
    KeyboardStepMembers(w, s);
    if s.Release? {
      ReleaseChanges(w, s, k);
      ReleaseCoversIff(w, Next(w, s), s, k);
    }
  }

  lemma ExpireCovers(w: World, s: Step, k: byte)
    requires Enabled(w, s) && IsHeld(w, k) && (s.Expire? || s.Read?)
    ensures !Covered(Next(w, s), k) <==> LosesCover(w, s, k)
  {
  }

  lemma TakeCovers(w: World, s: Step, k: byte)
    requires Enabled(w, s) && IsHeld(w, k) && s.Take?
    ensures !Covered(Next(w, s), k) <==> LosesCover(w, s, k)
  {
  }

  lemma ClearStepCovers(w: World, s: Step, k: byte)
    requires Enabled(w, s) && IsHeld(w, k) && (s.Guard? || s.CancelAll? || s.ClearAgain?)
    ensures !Covered(Next(w, s), k) <==> LosesCover(w, s, k)
  {
  }

  lemma OtherStepCovers(w: World, s: Step, k: byte)
    requires Enabled(w, s) && IsHeld(w, k) && ProperClient(w.client)
    requires !TakesKeyboard(s) && !IsFlightStep(s) && !s.Guard? && !s.CancelAll? && !s.ClearAgain?
    ensures !Covered(Next(w, s), k) <==> LosesCover(w, s, k)
  {
  }

  /** A held key has nobody responsible for it after a step exactly if the step takes its last cover, or it had nobody
      before and the step takes it on neither. */
  lemma UncoveredIff(w: World, s: Step, k: byte)
    requires Sane(w) && Enabled(w, s) && IsHeld(Next(w, s), k)
    ensures !Covered(Next(w, s), k) <==> LosesCover(w, s, k)
  {
    if s.Report? {
      ReportCovers(w, s, k);
    } else if TakesKeyboard(s) {
      ReleaseCovers(w, s, k);
    } else {
      OtherStepKeepsPacked(w, s);
      if s.Take? {
        TakeCovers(w, s, k);
      } else if IsFlightStep(s) {
        ExpireCovers(w, s, k);
      } else if s.Guard? || s.CancelAll? || s.ClearAgain? {
        ClearStepCovers(w, s, k);
      } else {
        OtherStepCovers(w, s, k);
      }
    }
  }

  /** The keys left behind by dropped clears and not released, pressed again or taken on by a new clear since. */
  function LeftAfter(w: World, left: set<byte>, s: Step): set<byte>
    requires Enabled(w, s)
  {
    set k | k in Next(w, s).down.keys && (k in LeftBy(w, s) || (k in left && !TakenOn(s, k)))
  }

  function Left(w: World, left: set<byte>, steps: seq<Step>): set<byte>
    requires Possible(w, steps)
    decreases |steps|
  {
    if steps == [] then left else Left(Next(w, steps[0]), LeftAfter(w, left, steps[0]), steps[1..])
  }

  predicate Abandoned(w: World, key: byte) {
    IsHeld(w, key) && !Covered(w, key)
  }

  /** The held keys that nobody is responsible for. */
  ghost predicate Tracks(w: World, left: set<byte>) {
    forall k: byte :: k in left <==> Abandoned(w, k)
  }

  /** With one queue no client cancels the timer of a held key. */
  lemma NotCutOff(w: World, s: Step, k: byte)
    requires Safe(w) && IsHeld(w, k)
    ensures !CutsOff(w, s, k)
  {
  }

  lemma HeldBefore(w: World, s: Step, k: byte)
    requires Sane(w) && Enabled(w, s) && IsHeld(Next(w, s), k)
    ensures IsHeld(w, k) || s == Report(k, true)
  {
    if TakesKeyboard(s) {
      KeyboardStepMembers(w, s);
    } else {
      OtherStepKeepsPacked(w, s);
    }
  }

  lemma AbandonedAfter(w: World, left: set<byte>, s: Step, k: byte)
    requires Safe(w) && (k in left <==> Abandoned(w, k)) && Enabled(w, s)
    ensures k in LeftAfter(w, left, s) <==> Abandoned(Next(w, s), k)
  {
    if IsHeld(Next(w, s), k) {
      HeldBefore(w, s, k);
      UncoveredIff(w, s, k);
      if IsHeld(w, k) {
        NotCutOff(w, s, k);
      }
    }
  }

  lemma NextTracks(w: World, left: set<byte>, s: Step)
    requires Safe(w) && Tracks(w, left) && Enabled(w, s)
    ensures Tracks(Next(w, s), LeftAfter(w, left, s))
  {
    forall k: byte
      ensures k in LeftAfter(w, left, s) <==> Abandoned(Next(w, s), k)
    {
      AbandonedAfter(w, left, s, k);
    }
  }

  lemma {:induction false} RunTracks(w: World, left: set<byte>, steps: seq<Step>)
    requires Safe(w) && Tracks(w, left) && Possible(w, steps)
    ensures Tracks(Run(w, steps), Left(w, left, steps))
    decreases |steps|
  {
    if steps != [] {
      NextTracks(w, left, steps[0]);
      NextIsSafe(w, steps[0]);
      RunTracks(Next(w, steps[0]), LeftAfter(w, left, steps[0]), steps[1..]);
    }
  }

  /** The guard finds USB ready at every clear. */
  predicate NoClearDropped(w: World, steps: seq<Step>)
    requires Possible(w, steps)
    decreases |steps|
  {
    steps == [] || ((steps[0].Guard? ==> w.usbReady) && NoClearDropped(Next(w, steps[0]), steps[1..]))
  }

  lemma {:induction false} NothingLeft(w: World, steps: seq<Step>)
    requires Possible(w, steps) && NoClearDropped(w, steps)
    ensures Left(w, {}, steps) == {}
    decreases |steps|
  {
    if steps != [] {
      assert LeftAfter(w, {}, steps[0]) == {};
      NothingLeft(Next(w, steps[0]), steps[1..]);
    }
  }

  lemma EmptyIff(w: World, left: set<byte>)
    requires Safe(w) && Tracks(w, left)
    requires forall k: byte :: !Covered(w, k)
    ensures w.down.keys == Buffer([]) <==> left == {}
  {
    forall i | 0 <= i < SLOTS
      ensures w.down.keys[i] == 0 || w.down.keys[i] in left
    {
      var k := w.down.keys[i];
      assert k in w.down.keys;
      assert k == 0 || Abandoned(w, k);
    }
    if left != {} {
      var k :| k in left;
      BufferMembers([], k);
    }
  }

  /** No stuck key, exactly: on every run of the protocol the held keys without anybody responsible for their release are
      those that a clear dropped by the guard has left behind. So whenever nothing is pending and nothing is in flight
      they are all the keys that are down; and there are none if USB was ready at every clear. */
  lemma NoStuckKey(steps: seq<Step>)
    requires Possible(START, steps)
    ensures var w, left := Run(START, steps), Left(START, {}, steps);
            && (forall k: byte :: k in left <==> Abandoned(w, k))
            && (Quiescent(w) ==> (w.down.keys == Buffer([]) <==> left == {}))
            && (NoClearDropped(START, steps) ==> left == {})
  {
    StartIsSafe();
    RunIsSafe(START, steps);
    RunTracks(START, {}, steps);
    if Quiescent(Run(START, steps)) {
      EmptyIff(Run(START, steps), Left(START, {}, steps));
    }
    if NoClearDropped(START, steps) {
      NothingLeft(START, steps);
    }
  }

  lemma NoTimerLeft(w: World)
    requires Orderly(w) && w.flights == multiset{} && w.now >= w.lastInput + Keyboard.AUTO_RELEASE
    requires forall k :: k in w.timers && w.timers[k].Armed? ==> w.timers[k].deadline > w.now
    ensures forall k :: k !in w.timers
  {
  }

  /** Silence ends every hold, except those: on every run, once 100 ms have passed since the last scheduled press or
      prolonging keepalive, and every timer that is due has been served, the keys that are down are those left behind. */
  lemma SilenceReleasesEveryKey(steps: seq<Step>)
    requires Possible(START, steps)
    requires var w := Run(START, steps);
             && w.client == Idle && w.flights == multiset{} && NoClear(w)
             && w.now >= w.lastInput + Keyboard.AUTO_RELEASE
             && forall k :: k in w.timers && w.timers[k].Armed? ==> w.timers[k].deadline > w.now
    ensures var w, left := Run(START, steps), Left(START, {}, steps);
            && (forall k: byte :: k in left <==> IsHeld(w, k))
            && (w.down.keys == Buffer([]) <==> left == {})
  {
    StartIsSafe();
    RunIsSafe(START, steps);
    RunTracks(START, {}, steps);
    NoTimerLeft(Run(START, steps));
    EmptyIff(Run(START, steps), Left(START, {}, steps));
  }

  // ---------- a disconnect ----------

  /** The last client's disconnect: cancel the timers, ask the guard, and report if it says so. */
  function Disconnect(usbReady: bool): seq<Step> {
    [CancelAll] + ([Guard] + (if usbReady then [ClearReport] + [] else []))
  }

  lemma DroppedLeavesAll(w: World)
    requires !w.usbReady
    ensures Possible(w, Disconnect(false))
    ensures Run(w, Disconnect(false)) == w.(timers := map[])
  {
    var w1 := Next(w, CancelAll);
    StepThen(w1, Guard, [], w.(timers := map[]));
    StepThen(w, CancelAll, [Guard] + [], w1);
  }

  lemma AdmittedClearsAll(w: World)
    requires w.usbReady && KeyboardFree(w)
    ensures Possible(w, Disconnect(true))
    ensures Run(w, Disconnect(true)).down == KeysDown(0, Buffer([]))
  {
    var w1 := Next(w, CancelAll);
    var w2 := Next(w1, Guard);
    StepThen(w2, ClearReport, [], Next(w2, ClearReport));
    StepThen(w1, Guard, [ClearReport] + [], w2);
    StepThen(w, CancelAll, [Guard] + ([ClearReport] + []), w1);
  }

  /** With no event being reported a disconnect leaves no key down exactly if USB is ready or none was. */
  lemma DisconnectClearsIff(w: World)
    requires KeyboardFree(w)
    ensures Possible(w, Disconnect(w.usbReady))
    ensures Run(w, Disconnect(w.usbReady)).down.keys == Buffer([]) <==> w.usbReady || w.down.keys == Buffer([])
  {
    if w.usbReady {
      AdmittedClearsAll(w);
    } else {
      DroppedLeavesAll(w);
    }
  }

  /** With these keys down, no flight and no keepalive, at time 0. */
  function Moment(usbReady: bool, keys: seq<byte>, timers: map<byte, Timer>, client: Client, clears: nat): World
    requires |keys| <= SLOTS
  {
    World(0, usbReady, KeysDown(0, Buffer(keys)), timers, multiset{}, client, false, clears, 0, None,
          Stamps(None, None), 0)
  }

  function Pressed(k: byte): World {
    Moment(true, [k], map[k := Armed(Keyboard.AUTO_RELEASE)], Idle, 0)
  }

  /** A first key is pressed, with USB ready. */
  function PressFirst(k: byte, rest: seq<Step>): seq<Step> {
    [Usb(true)] + ([Admit(k, true)] + ([Report(k, true)] + ([Announce] + ([Finish] + rest))))
  }

  lemma PressReported(k: byte)
    requires RealKey(k)
    ensures var w := Moment(true, [], map[], Admitted(k, true), 0);
            Enabled(w, Report(k, true))
            && Next(w, Report(k, true)) == Moment(true, [k], map[], Announcing(Scheduling(k)), 0)
  {
    PressAlone(0, k);
    assert Buffer([k])[0] == k && Buffer([])[0] == 0;
  }

  lemma PressFirstRuns(k: byte, rest: seq<Step>)
    requires RealKey(k) && Possible(Pressed(k), rest)
    ensures Possible(START, PressFirst(k, rest)) && Run(START, PressFirst(k, rest)) == Run(Pressed(k), rest)
  {
    var w1, w2 := Moment(true, [], map[], Idle, 0), Moment(true, [], map[], Admitted(k, true), 0);
    var w3, w4 := Moment(true, [k], map[], Announcing(Scheduling(k)), 0), Moment(true, [k], map[], Scheduling(k), 0);
    PressReported(k);
    StepThen(w4, Finish, rest, Pressed(k));
    StepThen(w3, Announce, [Finish] + rest, w4);
    StepThen(w2, Report(k, true), [Announce] + ([Finish] + rest), w3);
    StepThen(w1, Admit(k, true), [Report(k, true)] + ([Announce] + ([Finish] + rest)), w2);
    StepThen(START, Usb(true), [Admit(k, true)] + ([Report(k, true)] + ([Announce] + ([Finish] + rest))), w1);
  }

  /** The host is unplugged and the last client lost. */
  const LOST: seq<Step> := [Usb(false)] + Disconnect(false)

  /** A clear dropped by the guard: the key pressed before stays down with nobody responsible for it. */
  lemma DroppedClearStrandsKey(k: byte)
    requires RealKey(k)
    ensures Possible(START, PressFirst(k, LOST))
    ensures var w := Run(START, PressFirst(k, LOST)); Quiescent(w) && k in w.down.keys
  {
    var unplugged := Pressed(k).(usbReady := false);
    DroppedLeavesAll(unplugged);
    StepThen(Pressed(k), Usb(false), Disconnect(false), unplugged);
    PressFirstRuns(k, LOST);
    BufferMembers([k], k);
  }
}
