/** Debounced publishing of the ATX power and disk LEDs: an OFF disk LED is held back for a while,
    everything else is published at once. */
module AtxDebounce {
  import opened Common

  datatype Atx = Atx(power: bool, hdd: bool)

  /** A running debounce timer and the frame its closure captured. */
  datatype Pending = Pending(state: Atx, deadline: int)

  datatype Publisher = Publisher(last: Option<Atx>, timer: Option<Pending>)

  /** The reaction to one frame: the next publisher state and whether the frame is published now. */
  function React(p: Publisher, f: Atx, now: int, debounce: int): (Publisher, bool) {
    match p.last
    case None => (p.(last := Some(f)), true)
    case Some(last) =>
      if f.power != last.power then (Publisher(Some(f), None), true)
      else if f.hdd then (Publisher(Some(f), None), !last.hdd)
      else if !last.hdd || p.timer.Some? then (p, false)
      else (p.(timer := Some(Pending(f, now + debounce))), false)
  }

  class Manager {
    const debounceMs: int
    var atxLastPublished: Option<Atx>
    var atxDebounceTimer: Option<Pending>
    /** Every state handed to the broker, oldest first. */
    var published: seq<Atx>

    constructor (debounceMs: int)
      ensures this.debounceMs == debounceMs && State() == Publisher(None, None) && published == []
    {
      this.debounceMs := debounceMs;
      atxLastPublished, atxDebounceTimer, published := None, None, [];
    }

    function State(): Publisher
      reads this
    {
      Publisher(atxLastPublished, atxDebounceTimer)
    }

    method PublishLocked(state: Atx)
      modifies this`atxLastPublished, this`published
      ensures atxLastPublished == Some(state) && published == old(published) + [state]
    {
      atxLastPublished := Some(state);
      published := published + [state];
    }

    method CancelTimerLocked()
      modifies this`atxDebounceTimer
      ensures atxDebounceTimer == None
    {
      if atxDebounceTimer.Some? {
        atxDebounceTimer := None;
      }
    }

    method PublishATXState(state: Atx, now: int, connected: bool)
      modifies this
      ensures !connected ==> State() == old(State()) && published == old(published)
      ensures connected && debounceMs <= 0 ==> State() == old(State()) && published == old(published) + [state]
      ensures connected && debounceMs > 0 ==>
        var (next, now') := React(old(State()), state, now, debounceMs * MILLISECOND);
        State() == next && published == old(published) + if now' then [state] else []
    {
      if !connected {
        return;
      }
      if debounceMs <= 0 {
        published := published + [state];
        return;
      }
      if atxLastPublished.None? {
        PublishLocked(state);
        return;
      }
      var lastState := atxLastPublished.value;
      if state.power != lastState.power {
        CancelTimerLocked();
        PublishLocked(state);
        return;
      }
      if state.hdd {
        if atxDebounceTimer.Some? {
          CancelTimerLocked();
        }
        if !lastState.hdd {
          PublishLocked(state);
        }
        return;
      }
      if !lastState.hdd {
        return;
      }
      if atxDebounceTimer.Some? {
        return;
      }
      atxDebounceTimer := Some(Pending(state, now + debounceMs * MILLISECOND));
    }

    /** The closure of a timer, which publishes what it captured whether or not the timer is still the current one. */
    method RunTimerClosure(debounceState: Atx)
      modifies this
      ensures atxDebounceTimer == None && atxLastPublished == Some(debounceState)
      ensures published == old(published) + [debounceState]
    {
      atxDebounceTimer := None;
      PublishLocked(debounceState);
    }
  }

  // ---------- whole runs ----------

  datatype Event = Frame(at: int, state: Atx) | Fire(at: int)

  datatype Frame = AcceptedFrame(at: int, state: Atx)

  /** A publication, its instant, and how many frames had been accepted by then. */
  datatype Publication = Publication(at: int, state: Atx, seen: nat)

  datatype Machine = Machine(pub: Publisher, frames: seq<Frame>, log: seq<Publication>, clock: int)

  predicate Enabled(m: Machine, e: Event) {
    e.at >= m.clock && (e.Fire? ==> m.pub.timer.Some? && m.pub.timer.value.deadline <= e.at)
  }

  function Next(m: Machine, e: Event, debounce: int): Machine
    requires Enabled(m, e)
  {
    match e
    case Frame(at, f) =>
      var frames := m.frames + [AcceptedFrame(at, f)];
      var (pub, now) := React(m.pub, f, at, debounce);
      Machine(pub, frames, if now then m.log + [Publication(at, f, |frames|)] else m.log, at)
    case Fire(at) =>
      var f := m.pub.timer.value.state;
      Machine(Publisher(Some(f), None), m.frames, m.log + [Publication(at, f, |m.frames|)], at)
  }

  predicate Possible(m: Machine, events: seq<Event>, debounce: int)
    decreases |events|
  {
    events == [] || (Enabled(m, events[0]) && Possible(Next(m, events[0], debounce), events[1..], debounce))
  }

  function Run(m: Machine, events: seq<Event>, debounce: int): Machine
    requires Possible(m, events, debounce)
    decreases |events|
  {
    if events == [] then m else Run(Next(m, events[0], debounce), events[1..], debounce)
  }

  const START: Machine := Machine(Publisher(None, None), [], [], 0)

  /** What a subscriber may rely on: with no timer the last publication is the latest frame; with one they
      differ only in the disk LED, which is published ON. */
  predicate InStep(m: Machine) {
    if m.frames == [] then m.pub == Publisher(None, None)
    else
      var latest := m.frames[|m.frames| - 1].state;
      match m.pub.timer
      case None => m.pub.last == Some(latest)
      case Some(t) => t.state == latest && !latest.hdd && m.pub.last == Some(latest.(hdd := true))
  }

  /** From frame j on, up to the first `seen` frames, nothing but `state` was observed. */
  predicate Unbroken(frames: seq<Frame>, j: nat, seen: nat, state: Atx) {
    j < seen <= |frames| && forall k :: j <= k < seen ==> frames[k].state == state
  }

  ghost predicate QuietFor(frames: seq<Frame>, p: Publication, debounce: int) {
    exists j: nat :: Unbroken(frames, j, p.seen, p.state) && frames[j].at + debounce <= p.at
  }

  /** The rule for two publications in a row: they differ, and an OFF after an ON is published with a frame
      that changes the power LED, or after the disk LED stayed off for the whole debounce time. */
  ghost predicate LawfulPair(frames: seq<Frame>, before: Publication, after: Publication, debounce: int) {
    && after.state != before.state
    && 0 < after.seen <= |frames| && frames[after.seen - 1].state == after.state
    && (before.state.hdd && !after.state.hdd ==>
      (if after.state.power != before.state.power then frames[after.seen - 1].at == after.at
       else QuietFor(frames, after, debounce)))
  }

  ghost predicate LawfulLog(frames: seq<Frame>, log: seq<Publication>, debounce: int) {
    forall i :: 0 < i < |log| ==> LawfulPair(frames, log[i - 1], log[i], debounce)
  }

  ghost predicate TimerJustified(m: Machine, debounce: int) {
    m.pub.timer.Some? ==>
      exists j: nat :: Unbroken(m.frames, j, |m.frames|, m.pub.timer.value.state)
        && m.frames[j].at + debounce == m.pub.timer.value.deadline
  }

  ghost predicate Inv(m: Machine, debounce: int) {
    && InStep(m) && TimerJustified(m, debounce) && LawfulLog(m.frames, m.log, debounce)
    && (m.log == [] <==> m.frames == [])
    && (m.log != [] ==> m.pub.last == Some(m.log[|m.log| - 1].state))
  }

  lemma MoreFramesKeepPair(frames: seq<Frame>, f: Frame, a: Publication, b: Publication, debounce: int)
    requires LawfulPair(frames, a, b, debounce)
    ensures LawfulPair(frames + [f], a, b, debounce)
  {
    if QuietFor(frames, b, debounce) {
      var j: nat :| Unbroken(frames, j, b.seen, b.state) && frames[j].at + debounce <= b.at;
      assert Unbroken(frames + [f], j, b.seen, b.state);
    }
  }

  lemma MoreFramesKeepLog(frames: seq<Frame>, f: Frame, log: seq<Publication>, debounce: int)
    requires LawfulLog(frames, log, debounce)
    ensures LawfulLog(frames + [f], log, debounce)
  {
    forall i | 0 < i < |log|
      ensures LawfulPair(frames + [f], log[i - 1], log[i], debounce)
    {
      MoreFramesKeepPair(frames, f, log[i - 1], log[i], debounce);
    }
  }

  lemma FrameKeepsTimerJustified(m: Machine, e: Event, debounce: int)
    requires Inv(m, debounce) && Enabled(m, e) && e.Frame?
    ensures TimerJustified(Next(m, e, debounce), debounce)
  {
    var v := Next(m, e, debounce);
    if v.pub.timer.Some? {
      if m.pub.timer.Some? {
        var j: nat :| Unbroken(m.frames, j, |m.frames|, m.pub.timer.value.state)
          && m.frames[j].at + debounce == m.pub.timer.value.deadline;
        assert Unbroken(v.frames, j, |v.frames|, v.pub.timer.value.state);
      } else {
        assert Unbroken(v.frames, |m.frames|, |v.frames|, e.state);
      }
    }
  }

  lemma FrameKeepsInv(m: Machine, e: Event, debounce: int)
    requires Inv(m, debounce) && Enabled(m, e) && e.Frame?
    ensures Inv(Next(m, e, debounce), debounce)
  {
    FrameKeepsTimerJustified(m, e, debounce);
    MoreFramesKeepLog(m.frames, AcceptedFrame(e.at, e.state), m.log, debounce);
  }

  lemma {:induction false} RunKeepsInv(m: Machine, events: seq<Event>, debounce: int)
    requires Inv(m, debounce) && Possible(m, events, debounce)
    ensures Inv(Run(m, events, debounce), debounce)
    decreases |events|
  {
    if events != [] {
      if events[0].Frame? {
        FrameKeepsInv(m, events[0], debounce);
      }
      RunKeepsInv(Next(m, events[0], debounce), events[1..], debounce);
    }
  }

  /** Debounce safety, for every run with atomic cancellation and every debounce time: subscribers are in step with the
      latest accepted frame except for a disk LED still shown ON; publications alternate; and no OFF follows an ON
      early. */
  lemma DebounceIsSafe(events: seq<Event>, debounce: int)
    requires Possible(START, events, debounce)
    ensures var m := Run(START, events, debounce);
            InStep(m) && LawfulLog(m.frames, m.log, debounce)
  {
    RunKeepsInv(START, events, debounce);
  }
}
