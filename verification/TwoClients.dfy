/** The hold protocol with two clients, whose key events are not queued behind each other. */
module TwoClients {
  import opened Common
  import opened KeyBuffer
  import opened KeepAlive
  import opened KeyHold
  import Keyboard

  /** The world as the first client sees it, and the key event the second one is serving. */
  datatype Duo = Duo(w: World, second: Client)

  datatype DuoStep = First(s: Step) | Second(s: Step)

  function Swap(d: Duo): Duo {
    Duo(d.w.(client := d.second), d.w.client)
  }

  /** The world as the client that moves sees it. */
  function Own(d: Duo, e: DuoStep): World {
    if e.First? then d.w else Swap(d).w
  }

  function Other(d: Duo, e: DuoStep): Client {
    if e.First? then d.second else d.w.client
  }

  /** Neither client reports while the other one still announces its state. */
  predicate DuoEnabled(d: Duo, e: DuoStep) {
    Enabled(Own(d, e), e.s) && (TakesKeyboard(e.s) ==> !Other(d, e).Announcing?)
  }

  function DuoNext(d: Duo, e: DuoStep): Duo
    requires DuoEnabled(d, e)
  {
    var v := Next(Own(d, e), e.s);
    if e.First? then Duo(v, d.second) else Swap(Duo(v, d.w.client))
  }

  predicate DuoPossible(d: Duo, steps: seq<DuoStep>)
    decreases |steps|
  {
    steps == [] || (DuoEnabled(d, steps[0]) && DuoPossible(DuoNext(d, steps[0]), steps[1..]))
  }

  function DuoRun(d: Duo, steps: seq<DuoStep>): Duo
    requires DuoPossible(d, steps)
    decreases |steps|
  {
    if steps == [] then d else DuoRun(DuoNext(d, steps[0]), steps[1..])
  }

  const DUO_START: Duo := Duo(START, Idle)

  lemma DuoThen(d: Duo, e: DuoStep, rest: seq<DuoStep>, d': Duo)
    requires DuoEnabled(d, e) && DuoNext(d, e) == d' && DuoPossible(d', rest)
    ensures DuoPossible(d, [e] + rest) && DuoRun(d, [e] + rest) == DuoRun(d', rest)
  {
    assert ([e] + rest)[0] == e && ([e] + rest)[1..] == rest;
  }

  // ---------- who is responsible for a key ----------

  /** Someone is responsible for the key; either client may be about to schedule its timer. */
  predicate DuoCovered(d: Duo, k: byte) {
    Covered(d.w, k) || Pending(d.second) == Scheduling(k)
  }

  predicate DuoAbandoned(d: Duo, k: byte) {
    IsHeld(d.w, k) && !DuoCovered(d, k)
  }

  /** The step takes the last cover of a held key: it drops the only clear there is, or it is the end of a release of that
      key, which the other client has overtaken by pressing it again, with only the key's timer left. */
  predicate DuoLeaves(d: Duo, e: DuoStep, k: byte) {
    Pending(Other(d, e)) != Scheduling(k) && (k in LeftBy(Own(d, e), e.s) || CutsOff(Own(d, e), e.s, k))
  }

  ghost predicate DuoSane(d: Duo) {
    Sane(d.w) && ProperClient(d.second)
  }

  lemma OwnIsSane(d: Duo, e: DuoStep)
    requires DuoSane(d)
    ensures Sane(Own(d, e)) && ProperClient(Other(d, e))
  {
    var held :| PackedWith(d.w, held);
    assert PackedWith(Own(d, e), held);
  }

  lemma SaneAgain(v: World, other: Client, isFirst: bool)
    requires Sane(v) && ProperClient(other)
    ensures DuoSane(if isFirst then Duo(v, other) else Swap(Duo(v, other)))
  {
    var held :| PackedWith(v, held);
    assert PackedWith(v.(client := other), held);
  }

  lemma DuoNextIsSane(d: Duo, e: DuoStep)
    requires DuoSane(d) && DuoEnabled(d, e)
    ensures DuoSane(DuoNext(d, e))
  {
    OwnIsSane(d, e);
    NextIsSane(Own(d, e), e.s);
    SaneAgain(Next(Own(d, e), e.s), Other(d, e), e.First?);
  }

  lemma CoverOfOwn(w: World, other: Client, k: byte)
    ensures DuoCovered(Duo(w, other), k) <==> DuoCovered(Swap(Duo(w, other)), k)
  {
  }

  /** Whichever client moves, a held key has nobody responsible for it afterwards exactly if the step takes its last cover,
      or it had nobody before and the step takes it on neither. */
  lemma DuoStepStrandsIff(d: Duo, e: DuoStep, k: byte)
    requires DuoSane(d) && DuoEnabled(d, e) && IsHeld(DuoNext(d, e).w, k)
    ensures !DuoCovered(DuoNext(d, e), k) <==> DuoLeaves(d, e, k) || (DuoAbandoned(d, k) && !TakenOn(e.s, k))
  {
    var own, other := Own(d, e), Other(d, e);
    OwnIsSane(d, e);
    UncoveredIff(own, e.s, k);
    CoverOfOwn(own, other, k);
    CoverOfOwn(Next(own, e.s), other, k);
  }

  // ---------- whole runs ----------

  function DuoLeftAfter(d: Duo, left: set<byte>, e: DuoStep): set<byte>
    requires DuoEnabled(d, e)
  {
    set k | k in DuoNext(d, e).w.down.keys && (DuoLeaves(d, e, k) || (k in left && !TakenOn(e.s, k)))
  }

  /** The keys that have lost their last cover and not been released, pressed again or taken on by a clear since. */
  function DuoLeft(d: Duo, left: set<byte>, steps: seq<DuoStep>): set<byte>
    requires DuoPossible(d, steps)
    decreases |steps|
  {
    if steps == [] then left else DuoLeft(DuoNext(d, steps[0]), DuoLeftAfter(d, left, steps[0]), steps[1..])
  }

  ghost predicate DuoTracks(d: Duo, left: set<byte>) {
    forall k: byte :: k in left <==> DuoAbandoned(d, k)
  }

  lemma LeavesOnlyKeys(d: Duo, e: DuoStep, k: byte)
    requires DuoSane(d) && DuoLeaves(d, e, k)
    ensures k != 0
  {
    OwnIsSane(d, e);
  }

  lemma DuoAbandonedAfter(d: Duo, left: set<byte>, e: DuoStep, k: byte)
    requires DuoSane(d) && (k in left <==> DuoAbandoned(d, k)) && DuoEnabled(d, e)
    ensures k in DuoLeftAfter(d, left, e) <==> DuoAbandoned(DuoNext(d, e), k)
  {
    if DuoLeaves(d, e, k) {
      LeavesOnlyKeys(d, e, k);
    }
    if IsHeld(DuoNext(d, e).w, k) {
      DuoStepStrandsIff(d, e, k);
    }
  }

  lemma {:induction false} DuoRunTracks(d: Duo, left: set<byte>, steps: seq<DuoStep>)
    requires DuoSane(d) && DuoTracks(d, left) && DuoPossible(d, steps)
    ensures DuoSane(DuoRun(d, steps)) && DuoTracks(DuoRun(d, steps), DuoLeft(d, left, steps))
    decreases |steps|
  {
    if steps != [] {
      var v, now := DuoNext(d, steps[0]), DuoLeftAfter(d, left, steps[0]);
      forall k: byte
        ensures k in now <==> DuoAbandoned(v, k)
      {
        DuoAbandonedAfter(d, left, steps[0], k);
      }
      DuoNextIsSane(d, steps[0]);
      DuoRunTracks(v, now, steps[1..]);
    }
  }

  /** On every run of two clients the held keys without anybody responsible for their release are exactly those whose last
      cover a step has taken: a dropped clear, or the end of an overtaken release. So whenever everything is quiet
      they are all the keys that are down. */
  lemma DuoStuckIff(steps: seq<DuoStep>)
    requires DuoPossible(DUO_START, steps)
    ensures var d, left := DuoRun(DUO_START, steps), DuoLeft(DUO_START, {}, steps);
            && (forall k: byte :: k in left <==> DuoAbandoned(d, k))
            && (Quiescent(d.w) && d.second == Idle ==> forall k: byte :: k in left <==> IsHeld(d.w, k))
  {
    StartIsSafe();
    DuoRunTracks(DUO_START, {}, steps);
  }

  // ---------- two clients and one key ----------

  /** The key up or down at time 0, its timer running or not, and what the clients are doing. */
  function At(k: byte, isDown: bool, armed: bool, first: Client, second: Client): Duo {
    Duo(Moment(true, if isDown then [k] else [], if armed then map[k := Armed(Keyboard.AUTO_RELEASE)] else map[], first, 0),
        second)
  }

  /** The second client's press: admitted, reported, announced, its timer scheduled. */
  function SecondPress(k: byte, rest: seq<DuoStep>): seq<DuoStep> {
    [Second(Admit(k, true))] + ([Second(Report(k, true))] + ([Second(Announce)] + ([Second(Finish)] + rest)))
  }

  lemma SecondPressReported(k: byte)
    requires RealKey(k)
    ensures var d := At(k, false, true, Cancelling(k), Admitted(k, true));
            DuoEnabled(d, Second(Report(k, true))) &&
            DuoNext(d, Second(Report(k, true))) == At(k, true, true, Cancelling(k), Announcing(Scheduling(k)))
  {
    PressAlone(0, k);
    assert Buffer([k])[0] == k && Buffer([])[0] == 0;
  }

  lemma SecondSchedules(k: byte)
    ensures var d := At(k, true, true, Cancelling(k), Scheduling(k));
            DuoEnabled(d, Second(Finish)) && DuoNext(d, Second(Finish)) == At(k, true, true, Cancelling(k), Idle)
  {
    var armed := map[k := Armed(Keyboard.AUTO_RELEASE)];
    assert armed[k := Armed(Keyboard.AUTO_RELEASE)] == armed;
  }

  lemma SecondPressRuns(k: byte, rest: seq<DuoStep>)
    requires RealKey(k) && DuoPossible(At(k, true, true, Cancelling(k), Idle), rest)
    ensures var d := At(k, false, true, Cancelling(k), Idle);
            DuoPossible(d, SecondPress(k, rest))
            && DuoRun(d, SecondPress(k, rest)) == DuoRun(At(k, true, true, Cancelling(k), Idle), rest)
  {
    var c := Cancelling(k);
    SecondPressReported(k);
    SecondSchedules(k);
    DuoThen(At(k, true, true, c, Scheduling(k)), Second(Finish), rest, At(k, true, true, c, Idle));
    DuoThen(At(k, true, true, c, Announcing(Scheduling(k))), Second(Announce), [Second(Finish)] + rest,
            At(k, true, true, c, Scheduling(k)));
    var two := [Second(Announce)] + ([Second(Finish)] + rest);
    DuoThen(At(k, false, true, c, Admitted(k, true)), Second(Report(k, true)), two,
            At(k, true, true, c, Announcing(Scheduling(k))));
    DuoThen(At(k, false, true, c, Idle), Second(Admit(k, true)), [Second(Report(k, true))] + two,
            At(k, false, true, c, Admitted(k, true)));
  }

  /** The first client's release, up to its timer update. */
  function FirstRelease(k: byte, rest: seq<DuoStep>): seq<DuoStep> {
    [First(Admit(k, false))] + ([First(Report(k, false))] + ([First(Announce)] + rest))
  }

  lemma FirstReleaseReported(k: byte)
    requires RealKey(k)
    ensures var d := At(k, true, true, Admitted(k, false), Idle);
            DuoEnabled(d, First(Report(k, false))) &&
            DuoNext(d, First(Report(k, false))) == At(k, false, true, Announcing(Cancelling(k)), Idle)
  {
    ReleaseAlone(0, k);
    assert Buffer([k])[0] == k && Buffer([])[0] == 0;
  }

  lemma FirstReleaseRuns(k: byte, rest: seq<DuoStep>)
    requires RealKey(k) && DuoPossible(At(k, false, true, Cancelling(k), Idle), rest)
    ensures var d := At(k, true, true, Idle, Idle);
            DuoPossible(d, FirstRelease(k, rest))
            && DuoRun(d, FirstRelease(k, rest)) == DuoRun(At(k, false, true, Cancelling(k), Idle), rest)
  {
    FirstReleaseReported(k);
    DuoThen(At(k, false, true, Announcing(Cancelling(k)), Idle), First(Announce), rest,
            At(k, false, true, Cancelling(k), Idle));
    DuoThen(At(k, true, true, Admitted(k, false), Idle), First(Report(k, false)), [First(Announce)] + rest,
            At(k, false, true, Announcing(Cancelling(k)), Idle));
    DuoThen(At(k, true, true, Idle, Idle), First(Admit(k, false)), [First(Report(k, false))] + ([First(Announce)] + rest),
            At(k, true, true, Admitted(k, false), Idle));
  }

  function AsFirst(steps: seq<Step>): seq<DuoStep> {
    if steps == [] then [] else [First(steps[0])] + AsFirst(steps[1..])
  }

  lemma FirstMoves(w: World, s: Step)
    requires Enabled(w, s)
    ensures DuoEnabled(Duo(w, Idle), First(s)) && DuoNext(Duo(w, Idle), First(s)) == Duo(Next(w, s), Idle)
  {
  }

  lemma AsFirstUnfolds(s: Step, steps: seq<Step>, rest: seq<DuoStep>)
    ensures AsFirst([s] + steps) + rest == [First(s)] + (AsFirst(steps) + rest)
  {
    assert ([s] + steps)[1..] == steps;
  }

  /** A run of the first client alone. */
  lemma {:induction false} FirstAlone(w: World, steps: seq<Step>, rest: seq<DuoStep>)
    requires Possible(w, steps) && DuoPossible(Duo(Run(w, steps), Idle), rest)
    ensures DuoPossible(Duo(w, Idle), AsFirst(steps) + rest)
    ensures DuoRun(Duo(w, Idle), AsFirst(steps) + rest) == DuoRun(Duo(Run(w, steps), Idle), rest)
    decreases |steps|
  {
    if steps == [] {
      assert AsFirst(steps) + rest == rest;
    } else {
      var v := Next(w, steps[0]);
      FirstAlone(v, steps[1..], rest);
      FirstMoves(w, steps[0]);
      AsFirstUnfolds(steps[0], steps[1..], rest);
      assert [steps[0]] + steps[1..] == steps;
      DuoThen(Duo(w, Idle), First(steps[0]), AsFirst(steps[1..]) + rest, Duo(v, Idle));
    }
  }

  /** The first client presses the key and lets it go; between its release report and its timer update the second one
      presses the same key and schedules its timer. */
  function Overlap(k: byte): seq<DuoStep> {
    AsFirst(PressFirst(k, [])) + FirstRelease(k, SecondPress(k, [First(Finish)] + []))
  }

  /** The single input queue is needed: with two clients the key stays down with nobody responsible for it. */
  lemma TwoClientsCanStickAKey(k: byte)
    requires RealKey(k)
    ensures DuoPossible(DUO_START, Overlap(k))
    ensures var d := DuoRun(DUO_START, Overlap(k));
            Quiescent(d.w) && d.second == Idle && k in d.w.down.keys
  {
    assert map[k := Armed(Keyboard.AUTO_RELEASE)] - {k} == map[];
    DuoThen(At(k, true, true, Cancelling(k), Idle), First(Finish), [], At(k, true, false, Idle, Idle));
    SecondPressRuns(k, [First(Finish)] + []);
    FirstReleaseRuns(k, SecondPress(k, [First(Finish)] + []));
    PressFirstRuns(k, []);
    FirstAlone(START, PressFirst(k, []), FirstRelease(k, SecondPress(k, [First(Finish)] + [])));
    BufferMembers([k], k);
  }
}
