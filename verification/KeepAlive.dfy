/** The keepalive filter that stretches auto-release timers while a key is held:
    which ticks it accepts, how far it extends, and what that adds up to over a run. */
module KeepAlive {
  import opened Common
  import opened KeyBuffer
  import Keyboard

  const EXPECTED_RATE: int := 50 * MILLISECOND
  const MAX_LATENESS: int := 50 * MILLISECOND
  const BASE_EXTENSION: int := EXPECTED_RATE + MAX_LATENESS
  const MAX_STALENESS: int := 225 * MILLISECOND

  /** The two instants a session remembers; None is the zero time. */
  datatype Stamps = Stamps(lastArrival: Option<int>, lastReset: Option<int>)

  datatype Verdict = Reject | Extend(duration: int)

  /** The lateness test alone: a tick is judged only by its distance from the last accepted one. */
  function JudgeLateness(lastArrival: Option<int>, now: int): Verdict {
    match lastArrival
    case None => Extend(BASE_EXTENSION)
    case Some(previous) =>
      if now - previous > BASE_EXTENSION then Reject
      else Extend(Min(BASE_EXTENSION, previous + EXPECTED_RATE + BASE_EXTENSION - now))
  }

  /** The staleness guard in front of the lateness test. */
  function Judge(s: Stamps, now: int): Verdict {
    if s.lastReset.Some? && now - s.lastReset.value > MAX_STALENESS then Reject
    else JudgeLateness(s.lastArrival, now)
  }

  /** Whatever the stamps are, a tick is turned away exactly if it comes more than 225 ms after the last reset of the
      timers, or more than 100 ms after the last accepted one; an accepted one extends by 100 ms, less what it came late
      after 50. */
  lemma VerdictIs(s: Stamps, now: int)
    ensures var ms := 1_000_000;
            Judge(s, now) ==
            if s.lastReset.Some? && now > s.lastReset.value + 225 * ms then Reject
            else if s.lastArrival == None then Extend(100 * ms)
            else
              var late := now - (s.lastArrival.value + 50 * ms);
              if late > 50 * ms then Reject else Extend(if late > 0 then 100 * ms - late else 100 * ms)
  {
  }

  function Advance(s: Stamps, now: int): Stamps {
    if Judge(s, now).Extend? then Stamps(Some(now), Some(now)) else s
  }

  class Session {
    var lastKeepAliveArrivalTime: Option<int>
    var lastTimerResetTime: Option<int>
    const gadget: Keyboard.Keyboard?

    constructor (gadget: Keyboard.Keyboard?)
      ensures this.gadget == gadget && CurrentStamps() == Stamps(None, None)
    {
      this.gadget := gadget;
      lastKeepAliveArrivalTime, lastTimerResetTime := None, None;
    }

    function CurrentStamps(): Stamps
      reads this
    {
      Stamps(lastKeepAliveArrivalTime, lastTimerResetTime)
    }

    method ResetKeepAliveTime()
      modifies this
      ensures CurrentStamps() == Stamps(None, None)
    {
      lastKeepAliveArrivalTime := None;
      lastTimerResetTime := None;
    }

    /** An accepted tick moves both stamps and every pending timer; a rejected one changes nothing. */
    method HandleKeypressKeepAlive(now: int)
      modifies this, if gadget == null then {} else {gadget}
      ensures CurrentStamps() == Advance(old(CurrentStamps()), now)
      ensures gadget != null ==>
        gadget.keysDown == old(gadget.keysDown) && gadget.reports == old(gadget.reports) &&
        gadget.timers == match Judge(old(CurrentStamps()), now)
                         case Reject => old(gadget.timers)
                         case Extend(duration) => map k | k in old(gadget.timers) :: now + duration
    {
      if lastTimerResetTime.Some? && now - lastTimerResetTime.value > MAX_STALENESS {
        return;
      }
      var validTick := true;
      var timerExtension := BASE_EXTENSION;
      if lastKeepAliveArrivalTime.Some? {
        var timeSinceLastTick := now - lastKeepAliveArrivalTime.value;
        var lateness := timeSinceLastTick - EXPECTED_RATE;
        if lateness > 0 {
          if lateness <= MAX_LATENESS {
            timerExtension := timerExtension - lateness;
          } else {
            validTick := false;
          }
        }
      }
      if !validTick {
        return;
      }
      lastKeepAliveArrivalTime := Some(now);
      lastTimerResetTime := Some(now);
      if gadget != null {
        gadget.DelayAutoRelease(now, timerExtension);
      }
    }
  }

  // ---------- whole runs ----------

  datatype Event = Tick(at: int) | Reset

  /** What a run leaves behind: the stamps, the instants accepted since the last reset, and the
      deadline the last accepted tick gave to the pending timers. */
  datatype Trace = Trace(stamps: Stamps, accepted: seq<int>, deadline: Option<int>)

  const FRESH: Trace := Trace(Stamps(None, None), [], None)

  function After(t: Trace, e: Event): Trace {
    match e
    case Reset => FRESH
    case Tick(at) =>
      match Judge(t.stamps, at)
      case Reject => t
      case Extend(duration) => Trace(Advance(t.stamps, at), t.accepted + [at], Some(at + duration))
  }

  function Play(t: Trace, events: seq<Event>): Trace
    decreases |events|
  {
    if events == [] then t else Play(After(t, events[0]), events[1..])
  }

  /** The deadline law, in terms of accepted instants only. */
  function LawfulDeadline(accepted: seq<int>): Option<int> {
    var n := |accepted|;
    if n == 0 then None
    else if n == 1 then Some(accepted[0] + BASE_EXTENSION)
    else Some(Min(accepted[n - 1] + BASE_EXTENSION, accepted[n - 2] + EXPECTED_RATE + BASE_EXTENSION))
  }

  predicate Lawful(t: Trace) {
    var last := if t.accepted == [] then None else Some(t.accepted[|t.accepted| - 1]);
    t.stamps == Stamps(last, last) && t.deadline == LawfulDeadline(t.accepted)
  }

  lemma {:induction false} PlayIsLawful(t: Trace, events: seq<Event>)
    requires Lawful(t)
    ensures Lawful(Play(t, events))
    decreases |events|
  {
    if events != [] {
      PlayIsLawful(After(t, events[0]), events[1..]);
    }
  }

  /** On any run the deadline after the second or a later consecutive accepted tick is
      min(t_n + 100 ms, t_(n-1) + 150 ms), after the first it is t_1 + 100 ms. */
  lemma DeadlineIsMinimum(events: seq<Event>)
    ensures var t := Play(FRESH, events);
            var n := |t.accepted|;
            n > 0 ==> t.deadline == Some(
              if n == 1 then t.accepted[0] + 100 * MILLISECOND
              else Min(t.accepted[n - 1] + 100 * MILLISECOND, t.accepted[n - 2] + 150 * MILLISECOND))
  {
    PlayIsLawful(FRESH, events);
  }

  /** On any run the two stamps are equal, so the 225 ms staleness guard never decides anything. */
  lemma StalenessGuardNeverDecides(events: seq<Event>, now: int)
    ensures var s := Play(FRESH, events).stamps;
            s.lastArrival == s.lastReset && Judge(s, now) == JudgeLateness(s.lastArrival, now)
  {
    PlayIsLawful(FRESH, events);
  }

  /** A tick is accepted exactly when it is the first since a reset or comes within 100 ms of
      the last accepted one. */
  lemma AcceptedIff(events: seq<Event>, now: int)
    ensures var t := Play(FRESH, events);
            Judge(t.stamps, now).Extend? <==>
            t.accepted == [] || now <= t.accepted[|t.accepted| - 1] + 100 * MILLISECOND
  {
    PlayIsLawful(FRESH, events);
  }

  lemma {:induction false} LateTicksChangeNothing(t: Trace, late: seq<Event>)
    requires Lawful(t) && t.accepted != []
    requires forall e :: e in late ==> e.Tick? && e.at > t.accepted[|t.accepted| - 1] + 100 * MILLISECOND
    ensures Play(t, late) == t
    decreases |late|
  {
    if late != [] {
      assert late[0] in late;
      assert forall e :: e in late[1..] ==> e in late;
      LateTicksChangeNothing(t, late[1..]);
    }
  }

  /** No zombie revival: once more than 100 ms have passed since the last accepted tick, however many
      ticks arrive, none is accepted and no timer moves until the stamps are reset. */
  lemma NoZombieRevival(events: seq<Event>, late: seq<Event>)
    requires Play(FRESH, events).accepted != []
    requires var last := Play(FRESH, events).accepted; forall e :: e in late ==>
      e.Tick? && e.at > last[|last| - 1] + 100 * MILLISECOND
    ensures Play(Play(FRESH, events), late) == Play(FRESH, events)
  {
    PlayIsLawful(FRESH, events);
    LateTicksChangeNothing(Play(FRESH, events), late);
  }
}
