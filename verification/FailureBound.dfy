/** How many failures the limiter lets through: requests of one address that check, compare and record while others
    do the same, over whole runs. */
module FailureBound {
  import opened Common
  import opened RateLimit

  /** A request checks the limiter, compares the password with the limiter's lock free, and then records a failure, or
      goes away without recording one (a malformed body). */
  datatype Op = Check(ip: string, at: int) | Record(ip: string, at: int) | Abandon(ip: string, at: int) |
                Clean(at: int) | Success(ip: string, at: int)

  /** The table, the failures recorded so far for the address under study, the requests of that address that were
      allowed and are still comparing, and the clock. */
  datatype Ledger = Ledger(entries: Entries, failures: seq<int>, open: nat, clock: int)

  /** Time does not run backwards, only an allowed request records a failure, at most `limit` requests of the address
      are under way at once, and none of them succeeds. */
  predicate Timely(l: Ledger, ip: string, limit: nat, op: Op) {
    && l.clock <= op.at
    && (op.Check? && op.ip == ip && Allowed(l.entries, ip, op.at) ==> l.open < limit)
    && ((op.Record? || op.Abandon?) && op.ip == ip ==> l.open > 0)
    && (op.Success? ==> op.ip != ip)
  }

  function After(l: Ledger, ip: string, op: Op): Ledger {
    match op
    case Check(who, at) =>
      l.(open := if who == ip && Allowed(l.entries, ip, at) then l.open + 1 else l.open, clock := at)
    case Record(who, at) =>
      var entries := Fail(l.entries, who, at);
      if who == ip then Ledger(entries, l.failures + [at], if l.open > 0 then l.open - 1 else 0, at)
      else l.(entries := entries, clock := at)
    case Abandon(who, at) => l.(open := if who == ip && l.open > 0 then l.open - 1 else l.open, clock := at)
    case Clean(at) => l.(entries := Sweep(l.entries, at), clock := at)
    case Success(who, at) => l.(entries := l.entries - {who}, clock := at)
  }

  predicate TimelyRun(l: Ledger, ip: string, limit: nat, ops: seq<Op>)
    decreases |ops|
  {
    ops == [] || (Timely(l, ip, limit, ops[0]) && TimelyRun(After(l, ip, ops[0]), ip, limit, ops[1..]))
  }

  function Play(l: Ledger, ip: string, ops: seq<Op>): Ledger
    decreases |ops|
  {
    if ops == [] then l else Play(After(l, ip, ops[0]), ip, ops[1..])
  }

  const EMPTY: Ledger := Ledger(map[], [], 0, 0)

  /** The bound on the failures of one base window. */
  function Bound(limit: nat): nat {
    2 * limit + 6
  }

  /** One failure more than m never fits in less than one base window. */
  predicate Spaced(f: seq<int>, m: nat) {
    forall i :: 0 <= i < |f| - m ==> f[i + m] >= f[i] + BASE_WINDOW
  }

  predicate Ascending(f: seq<int>, last: int) {
    (forall i, j :: 0 <= i <= j < |f| ==> f[i] <= f[j]) && (forall i :: 0 <= i < |f| ==> f[i] <= last)
  }

  /** Of the failures, only the last n can be less than a base window before t. */
  predicate OnlyLast(f: seq<int>, n: int, t: int) {
    0 <= n < |f| ==> f[|f| - n - 1] + BASE_WINDOW <= t
  }

  /** While the lock holds, the last g failures are the recent ones, and with the requests still under way there can
      be no more of them than this: the fifth failure of a window locks it, and only requests allowed before that are
      still to come. A lock may also be renewed at the very instant it expires, which starts the count afresh. */
  predicate EraFits(e: Entry, f: seq<int>, open: int, limit: nat, g: int)
    requires e.attempts <= |f|
  {
    && 1 <= g <= e.attempts
    && if g == e.attempts then g + open <= limit + 4
       else g + open <= limit && OnlyLast(f, g, f[|f| - g])
  }

  ghost predicate LockFits(e: Entry, f: seq<int>, open: int, limit: nat)
    requires 1 <= e.attempts <= |f|
  {
    exists g :: EraFits(e, f, open, limit, g)
  }

  /** The entry's window holds its `attempts` latest failures; few others are recent when it starts; without a lock
      there are at most four, and a lock outlasts them all by a base window. */
  ghost predicate EntryFits(e: Entry, l: Ledger, limit: nat) {
    var f, a := l.failures, e.attempts;
    && 1 <= a <= |f| && f[|f| - a] == e.windowStart
    && OnlyLast(f[..|f| - a], limit + 2, e.windowStart)
    && (match e.lockedUntil
        case None => a < MAX_ATTEMPTS
        case Some(until) =>
          && a >= MAX_ATTEMPTS && until >= f[|f| - 1] + BASE_WINDOW
          && (l.clock < until ==> LockFits(e, f, l.open, limit)))
  }

  ghost predicate Inv(l: Ledger, ip: string, limit: nat) {
    && limit > 0 && l.open <= limit
    && Ascending(l.failures, l.clock) && Spaced(l.failures, Bound(limit))
    && (match Lookup(l.entries, ip)
        case Some(e) => EntryFits(e, l, limit)
        case None => OnlyLast(l.failures, limit + 2, l.clock))
  }

  lemma SpacedGrows(f: seq<int>, m: nat, t: int)
    requires m > 0 && Spaced(f, m) && OnlyLast(f, m - 1, t)
    ensures Spaced(f + [t], m)
  {
    var g := f + [t];
    forall i | 0 <= i < |g| - m
      ensures g[i + m] >= g[i] + BASE_WINDOW
    {
      if i + m < |f| {
        assert f[i + m] >= f[i] + BASE_WINDOW;
      }
    }
  }

  /** More failures than these are not recent when an allowed request records one. */
  lemma FewAreRecent(l: Ledger, ip: string, limit: nat, t: int)
    requires Inv(l, ip, limit) && l.open > 0 && l.clock <= t
    ensures OnlyLast(l.failures, Bound(limit) - 1, t)
  {
    if ip in l.entries && Locked(l.entries[ip], l.clock) {
      var e := l.entries[ip];
      var g :| EraFits(e, l.failures, l.open, limit, g);
    }
  }

  lemma AscendingGrows(f: seq<int>, last: int, t: int)
    requires Ascending(f, last) && last <= t
    ensures Ascending(f + [t], t)
  {
  }

  lemma FewBehindOverWindow(l: Ledger, ip: string, limit: nat, t: int)
    requires Inv(l, ip, limit) && l.open > 0 && l.clock <= t
    requires ip in l.entries ==> WindowOver(l.entries[ip], t)
    ensures OnlyLast(l.failures, limit + 2, t)
  {
    if ip in l.entries && Locked(l.entries[ip], l.clock) {
      var g :| EraFits(l.entries[ip], l.failures, l.open, limit, g);
    }
  }

  /** A failure that opens a window: there is no entry, or its window is over. */
  lemma WindowOpens(l: Ledger, ip: string, limit: nat, t: int)
    requires Inv(l, ip, limit) && l.open > 0 && l.clock <= t
    requires ip in l.entries ==> WindowOver(l.entries[ip], t)
    ensures Inv(After(l, ip, Record(ip, t)), ip, limit)
  {
    var f := l.failures;
    FewBehindOverWindow(l, ip, limit, t);
    FewAreRecent(l, ip, limit, t);
    SpacedGrows(f, Bound(limit), t);
    AscendingGrows(f, l.clock, t);
    assert (f + [t])[..|f|] == f;
  }

  /** A failure in an open window: below the limit, the fifth, one behind a lock, or one at the instant a lock ends. */
  lemma WindowContinues(l: Ledger, ip: string, limit: nat, t: int)
    requires Inv(l, ip, limit) && l.open > 0 && l.clock <= t
    requires ip in l.entries && !WindowOver(l.entries[ip], t)
    ensures Inv(After(l, ip, Record(ip, t)), ip, limit)
  {
    var f := l.failures;
    FewAreRecent(l, ip, limit, t);
    SpacedGrows(f, Bound(limit), t);
    AscendingGrows(f, l.clock, t);
    EntryContinues(l, ip, limit, t);
  }

  lemma EntryContinues(l: Ledger, ip: string, limit: nat, t: int)
    requires Inv(l, ip, limit) && l.open > 0 && l.clock <= t
    requires ip in l.entries && !WindowOver(l.entries[ip], t)
    ensures var l' := After(l, ip, Record(ip, t)); EntryFits(l'.entries[ip], l', limit)
  {
    var f, e := l.failures, l.entries[ip];
    assert (f + [t])[..|f + [t]| - (e.attempts + 1)] == f[..|f| - e.attempts];
    if e.attempts + 1 >= MAX_ATTEMPTS {
      LockStarts(l, ip, limit, t);
    }
  }

  lemma LockStarts(l: Ledger, ip: string, limit: nat, t: int)
    requires Inv(l, ip, limit) && l.open > 0 && l.clock <= t
    requires ip in l.entries && !WindowOver(l.entries[ip], t) && l.entries[ip].attempts + 1 >= MAX_ATTEMPTS
    ensures var l' := After(l, ip, Record(ip, t)); LockFits(l'.entries[ip], l'.failures, l'.open, limit)
  {
    var f, e := l.failures, l.entries[ip];
    var f', e' := f + [t], EntryAfterFailure(Some(e), t);
    if e.lockedUntil.None? {
      assert EraFits(e', f', l.open - 1, limit, e'.attempts);
    } else if l.clock < e.lockedUntil.value {
      var g :| EraFits(e, f, l.open, limit, g);
      EraGrows(e, e', f, t, l.open, limit, g);
    } else {
      assert EraFits(e', f', l.open - 1, limit, 1);
    }
  }

  lemma EraGrows(e: Entry, e': Entry, f: seq<int>, t: int, open: int, limit: nat, g: int)
    requires e.attempts <= |f| && EraFits(e, f, open, limit, g) && e'.attempts == e.attempts + 1
    ensures EraFits(e', f + [t], open - 1, limit, g + 1)
  {
    var f' := f + [t];
    assert g < e.attempts ==> f'[|f'| - (g + 1)] == f[|f| - g] && f'[|f'| - (g + 1) - 1] == f[|f| - g - 1];
  }

  lemma CleanKeepsInv(l: Ledger, ip: string, limit: nat, t: int)
    requires Inv(l, ip, limit) && l.clock <= t
    ensures Inv(After(l, ip, Clean(t)), ip, limit)
  {
    if ip in l.entries && Stale(l.entries[ip], t) {
      assert OnlyLast(l.failures, limit + 2, t);
    }
  }

  lemma FewerOpenFit(e: Entry, f: seq<int>, open: int, fewer: int, limit: nat)
    requires 1 <= e.attempts <= |f| && fewer <= open && LockFits(e, f, open, limit)
    ensures LockFits(e, f, fewer, limit)
  {
    var g :| EraFits(e, f, open, limit, g);
    assert EraFits(e, f, fewer, limit, g);
  }

  /** Checks and abandoned requests change the number under way only. */
  lemma RequestKeepsInv(l: Ledger, ip: string, limit: nat, op: Op)
    requires Inv(l, ip, limit) && Timely(l, ip, limit, op) && (op.Check? || op.Abandon?) && op.ip == ip
    ensures Inv(After(l, ip, op), ip, limit)
  {
    if ip in l.entries && Locked(l.entries[ip], op.at) {
      FewerOpenFit(l.entries[ip], l.failures, l.open, After(l, ip, op).open, limit);
    }
  }

  lemma RecordKeepsInv(l: Ledger, ip: string, limit: nat, op: Op)
    requires Inv(l, ip, limit) && Timely(l, ip, limit, op) && op.Record? && op.ip == ip
    ensures Inv(After(l, ip, op), ip, limit)
  {
    if ip in l.entries && !WindowOver(l.entries[ip], op.at) {
      WindowContinues(l, ip, limit, op.at);
    } else {
      WindowOpens(l, ip, limit, op.at);
    }
  }

  lemma OthersKeepInv(l: Ledger, ip: string, limit: nat, op: Op)
    requires Inv(l, ip, limit) && Timely(l, ip, limit, op) && !op.Clean? && op.ip != ip
    ensures Inv(After(l, ip, op), ip, limit)
  {
  }

  lemma StepKeepsInv(l: Ledger, ip: string, limit: nat, op: Op)
    requires Inv(l, ip, limit) && Timely(l, ip, limit, op)
    ensures Inv(After(l, ip, op), ip, limit)
  {
    if op.Clean? {
      CleanKeepsInv(l, ip, limit, op.at);
    } else if op.ip != ip {
      OthersKeepInv(l, ip, limit, op);
    } else if op.Record? {
      RecordKeepsInv(l, ip, limit, op);
    } else {
      RequestKeepsInv(l, ip, limit, op);
    }
  }

  lemma {:induction false} PlayKeepsInv(l: Ledger, ip: string, limit: nat, ops: seq<Op>)
    requires Inv(l, ip, limit) && TimelyRun(l, ip, limit, ops)
    ensures Inv(Play(l, ip, ops), ip, limit)
    decreases |ops|
  {
    if ops != [] {
      StepKeepsInv(l, ip, limit, ops[0]);
      PlayKeepsInv(After(l, ip, ops[0]), ip, limit, ops[1..]);
    }
  }

  /** How many of the failures fall in the half-open interval of one base window starting at s. */
  function CountFrom(f: seq<int>, s: int): nat {
    if f == [] then 0
    else (if s <= f[0] < s + BASE_WINDOW then 1 else 0) + CountFrom(f[1..], s)
  }

  lemma {:induction false} CountNone(f: seq<int>, s: int)
    requires forall i :: 0 <= i < |f| ==> !(s <= f[i] < s + BASE_WINDOW)
    ensures CountFrom(f, s) == 0
  {
    if f != [] {
      CountNone(f[1..], s);
    }
  }

  lemma {:induction false} CountAtMost(f: seq<int>, s: int, k: nat)
    requires forall i :: k <= i < |f| ==> f[i] >= s + BASE_WINDOW
    ensures CountFrom(f, s) <= k
    decreases |f|
  {
    if f != [] {
      if k == 0 {
        CountNone(f, s);
      } else {
        CountAtMost(f[1..], s, k - 1);
      }
    }
  }

  lemma {:induction false} SpacedCount(f: seq<int>, s: int, m: nat)
    requires m > 0 && Spaced(f, m) && forall i, j :: 0 <= i <= j < |f| ==> f[i] <= f[j]
    ensures CountFrom(f, s) <= m
    decreases |f|
  {
    if f != [] {
      if f[0] < s {
        forall i | 0 <= i < |f[1..]| - m
          ensures f[1..][i + m] >= f[1..][i] + BASE_WINDOW
        {
          assert f[(i + 1) + m] >= f[i + 1] + BASE_WINDOW;
        }
        SpacedCount(f[1..], s, m);
      } else {
        if |f| > m {
          assert f[0 + m] >= f[0] + BASE_WINDOW;
        }
        CountAtMost(f, s, m);
      }
    }
  }

  /** Sliding-window bound: on every run in which failures are recorded by allowed requests only, at most `limit`
      requests of the address are under way at once and none succeeds, with cleanups and other addresses interleaved
      anywhere, no half-open 15-minute interval holds more than 2 * limit + 6 of its failures. */
  lemma FailuresAreBounded(ip: string, limit: nat, ops: seq<Op>, s: int)
    requires limit > 0 && TimelyRun(EMPTY, ip, limit, ops)
    ensures CountFrom(Play(EMPTY, ip, ops).failures, s) <= 2 * limit + 6
  {
    PlayKeepsInv(EMPTY, ip, limit, ops);
    SpacedCount(Play(EMPTY, ip, ops).failures, s, Bound(limit));
  }

  /** With requests of the address that do not overlap, the bound is eight. */
  lemma AtMostEightFailures(ip: string, ops: seq<Op>, s: int)
    requires TimelyRun(EMPTY, ip, 1, ops)
    ensures CountFrom(Play(EMPTY, ip, ops).failures, s) <= 8
  {
    FailuresAreBounded(ip, 1, ops, s);
  }

  // ---------- the bound is reached ----------

  predicate Leads(l: Ledger, ip: string, limit: nat, ops: seq<Op>, l': Ledger) {
    TimelyRun(l, ip, limit, ops) && Play(l, ip, ops) == l'
  }

  lemma {:induction false} LeadsThen(l: Ledger, ip: string, limit: nat, a: seq<Op>, l1: Ledger, b: seq<Op>, l2: Ledger)
    requires Leads(l, ip, limit, a, l1) && Leads(l1, ip, limit, b, l2)
    ensures Leads(l, ip, limit, a + b, l2)
    decreases |a|
  {
    if a == [] {
      assert a + b == b;
    } else {
      assert (a + b)[1..] == a[1..] + b;
      LeadsThen(After(l, ip, a[0]), ip, limit, a[1..], l1, b, l2);
    }
  }

  lemma LeadsOne(l: Ledger, ip: string, limit: nat, op: Op)
    requires Timely(l, ip, limit, op)
    ensures Leads(l, ip, limit, [op], After(l, ip, op))
  {
    assert [op][1..] == [];
  }

  function Repeat<T>(x: T, n: nat): (r: seq<T>)
    ensures |r| == n && forall i :: 0 <= i < n ==> r[i] == x
  {
    seq(n, _ => x)
  }

  lemma RepeatMore<T>(x: T, n: nat)
    ensures Repeat(x, n + 1) == [x] + Repeat(x, n) && Repeat(x, 0) == []
  {
  }

  /** The address's entry, unlocked below five attempts, the requests under way, and the clock. */
  predicate Stands(l: Ledger, ip: string, attempts: int, start: int, open: nat, clock: int) {
    && ip in l.entries && l.entries[ip].attempts == attempts && l.entries[ip].windowStart == start
    && (attempts < MAX_ATTEMPTS ==> l.entries[ip].lockedUntil == None)
    && l.open == open && l.clock == clock
  }

  lemma {:induction false} ChecksOpen(l: Ledger, ip: string, limit: nat, n: nat)
    requires Allowed(l.entries, ip, l.clock) && l.open + n <= limit
    ensures Leads(l, ip, limit, Repeat(Check(ip, l.clock), n), l.(open := l.open + n))
    decreases n
  {
    if n > 0 {
      var op := Check(ip, l.clock);
      var l1 := After(l, ip, op);
      RepeatMore(op, n - 1);
      ChecksOpen(l1, ip, limit, n - 1);
      LeadsOne(l, ip, limit, op);
      LeadsThen(l, ip, limit, [op], l1, Repeat(op, n - 1), l.(open := l.open + n));
    }
  }

  lemma {:induction false} RecordsFail(l: Ledger, ip: string, limit: nat, n: nat, a: int, start: int) returns (l': Ledger)
    requires Stands(l, ip, a, start, l.open, l.clock) && n <= l.open && 0 <= l.clock - start <= BASE_WINDOW
    ensures Leads(l, ip, limit, Repeat(Record(ip, l.clock), n), l')
    ensures Stands(l', ip, a + n, start, l.open - n, l.clock) && l'.failures == l.failures + Repeat(l.clock, n)
    ensures l'.entries[ip].backoffLevel == l.entries[ip].backoffLevel
    decreases n
  {
    l' := l;
    if n > 0 {
      var op := Record(ip, l.clock);
      var l1 := After(l, ip, op);
      RepeatMore(op, n - 1);
      RepeatMore(l.clock, n - 1);
      l' := RecordsFail(l1, ip, limit, n - 1, a + 1, start);
      LeadsOne(l, ip, limit, op);
      LeadsThen(l, ip, limit, [op], l1, Repeat(op, n - 1), l');
      assert l.failures + [l.clock] + Repeat(l.clock, n - 1) == l.failures + Repeat(l.clock, n);
    }
  }

  /** Requests one at a time, each allowed and failed on the spot. */
  function InTurn(ip: string, at: int, n: nat): seq<Op> {
    if n == 0 then [] else [Check(ip, at)] + ([Record(ip, at)] + InTurn(ip, at, n - 1))
  }

  lemma {:induction false} InTurnFail(l: Ledger, ip: string, limit: nat, n: nat, a: int, start: int) returns (l': Ledger)
    requires limit > 0 && Stands(l, ip, a, start, 0, l.clock) && 0 <= l.clock - start <= BASE_WINDOW && a + n < MAX_ATTEMPTS
    ensures Leads(l, ip, limit, InTurn(ip, l.clock, n), l')
    ensures Stands(l', ip, a + n, start, 0, l.clock) && l'.failures == l.failures + Repeat(l.clock, n)
    ensures l'.entries[ip].backoffLevel == l.entries[ip].backoffLevel
    decreases n
  {
    l' := l;
    if n > 0 {
      var check, fail := Check(ip, l.clock), Record(ip, l.clock);
      var l1 := After(l, ip, check);
      var l2 := After(l1, ip, fail);
      var rest := InTurn(ip, l.clock, n - 1);
      RepeatMore(l.clock, n - 1);
      l' := InTurnFail(l2, ip, limit, n - 1, a + 1, start);
      LeadsOne(l1, ip, limit, fail);
      LeadsThen(l1, ip, limit, [fail], l2, rest, l');
      LeadsOne(l, ip, limit, check);
      LeadsThen(l, ip, limit, [check], l1, [fail] + rest, l');
      assert l.failures + [l.clock] + Repeat(l.clock, n - 1) == l.failures + Repeat(l.clock, n);
    }
  }

  /** From four failures on, `limit` requests at once are all allowed; the last `late` of them take their time. */
  function Rush(ip: string, at: int, limit: nat, late: nat): seq<Op>
    requires late <= limit
  {
    Repeat(Check(ip, at), limit) + Repeat(Record(ip, at), limit - late)
  }

  lemma RushFails(l: Ledger, ip: string, limit: nat, late: nat, start: int) returns (l': Ledger)
    requires late <= limit && Stands(l, ip, 4, start, 0, l.clock) && 0 <= l.clock - start <= BASE_WINDOW
    ensures Leads(l, ip, limit, Rush(ip, l.clock, limit, late), l')
    ensures Stands(l', ip, 4 + limit - late, start, late, l.clock)
    ensures l'.failures == l.failures + Repeat(l.clock, limit - late)
    ensures l'.entries[ip].backoffLevel == l.entries[ip].backoffLevel
  {
    ChecksOpen(l, ip, limit, limit);
    var l1 := l.(open := limit);
    l' := RecordsFail(l1, ip, limit, limit - late, 4, start);
    LeadsThen(l, ip, limit, Repeat(Check(ip, l.clock), limit), l1, Repeat(Record(ip, l.clock), limit - late), l');
  }

  /** A window opened at 0 is filled and rushed at its last instant, and its last request opens the next one. */
  function FirstWindow(ip: string, limit: nat): seq<Op>
    requires limit > 0
  {
    [Check(ip, 0)] + ([Record(ip, 0)] + ([Check(ip, BASE_WINDOW)] + ([Record(ip, BASE_WINDOW)] +
      (InTurn(ip, BASE_WINDOW, 2) + (Rush(ip, BASE_WINDOW, limit, 1) + [Record(ip, BASE_WINDOW + 1)])))))
  }

  /** And so is that one at once. */
  function WorstRun(ip: string, limit: nat): seq<Op>
    requires limit > 0
  {
    FirstWindow(ip, limit) + (InTurn(ip, BASE_WINDOW + 1, 3) + Rush(ip, BASE_WINDOW + 1, limit, 0))
  }

  lemma FirstWindowFails(ip: string, limit: nat) returns (l': Ledger)
    requires limit > 0
    ensures Leads(EMPTY, ip, limit, FirstWindow(ip, limit), l')
    ensures Stands(l', ip, 1, BASE_WINDOW + 1, 0, BASE_WINDOW + 1)
    ensures l'.failures == [0] + Repeat(BASE_WINDOW, limit + 2) + [BASE_WINDOW + 1]
  {
    var w := BASE_WINDOW;
    var l1 := After(EMPTY, ip, Check(ip, 0));
    var l2 := After(l1, ip, Record(ip, 0));
    var l3 := After(l2, ip, Check(ip, w));
    var l4 := After(l3, ip, Record(ip, w));
    var l5 := InTurnFail(l4, ip, limit, 2, 2, 0);
    var l6 := RushFails(l5, ip, limit, 1, 0);
    l' := After(l6, ip, Record(ip, w + 1));
    LeadsOne(l6, ip, limit, Record(ip, w + 1));
    LeadsThen(l5, ip, limit, Rush(ip, w, limit, 1), l6, [Record(ip, w + 1)], l');
    var rest := Rush(ip, w, limit, 1) + [Record(ip, w + 1)];
    LeadsThen(l4, ip, limit, InTurn(ip, w, 2), l5, rest, l');
    LeadsOne(l3, ip, limit, Record(ip, w));
    LeadsThen(l3, ip, limit, [Record(ip, w)], l4, InTurn(ip, w, 2) + rest, l');
    LeadsOne(l2, ip, limit, Check(ip, w));
    LeadsThen(l2, ip, limit, [Check(ip, w)], l3, [Record(ip, w)] + (InTurn(ip, w, 2) + rest), l');
    var more := [Check(ip, w)] + ([Record(ip, w)] + (InTurn(ip, w, 2) + rest));
    LeadsOne(l1, ip, limit, Record(ip, 0));
    LeadsThen(l1, ip, limit, [Record(ip, 0)], l2, more, l');
    LeadsOne(EMPTY, ip, limit, Check(ip, 0));
    LeadsThen(EMPTY, ip, limit, [Check(ip, 0)], l1, [Record(ip, 0)] + more, l');
    FirstFailures(w, limit, l4.failures, l5.failures, l6.failures);
  }

  lemma FirstFailures(w: int, limit: nat, f4: seq<int>, f5: seq<int>, f6: seq<int>)
    requires limit > 0 && f4 == [] + [0] + [w] && f5 == f4 + Repeat(w, 2) && f6 == f5 + Repeat(w, limit - 1)
    ensures f6 == [0] + Repeat(w, limit + 2)
  {
  }

  /** The bound is reached, for every number of requests under way at once. */
  lemma BoundIsReached(ip: string, limit: nat)
    requires limit > 0
    ensures TimelyRun(EMPTY, ip, limit, WorstRun(ip, limit))
    ensures CountFrom(Play(EMPTY, ip, WorstRun(ip, limit)).failures, BASE_WINDOW) == 2 * limit + 6
  {
    var w := BASE_WINDOW;
    var l1 := FirstWindowFails(ip, limit);
    var l2 := InTurnFail(l1, ip, limit, 3, 1, w + 1);
    var l3 := RushFails(l2, ip, limit, 0, w + 1);
    LeadsThen(l1, ip, limit, InTurn(ip, w + 1, 3), l2, Rush(ip, w + 1, limit, 0), l3);
    LeadsThen(EMPTY, ip, limit, FirstWindow(ip, limit), l1, InTurn(ip, w + 1, 3) + Rush(ip, w + 1, limit, 0), l3);
    WorstCount(w, limit, l3.failures);
  }

  lemma WorstCount(w: int, limit: nat, f: seq<int>)
    requires w == BASE_WINDOW
    requires f == [0] + Repeat(w, limit + 2) + [w + 1] + Repeat(w + 1, 3) + Repeat(w + 1, limit)
    ensures CountFrom(f, w) == 2 * limit + 6
  {
    assert |f| == 2 * limit + 7 && f[0] == 0 && forall i :: 1 <= i < |f| ==> w <= f[i] < w + BASE_WINDOW;
    CountAll(f[1..], w);
  }

  lemma {:induction false} CountAll(f: seq<int>, s: int)
    requires forall i :: 0 <= i < |f| ==> s <= f[i] < s + BASE_WINDOW
    ensures CountFrom(f, s) == |f|
    decreases |f|
  {
    if f != [] {
      CountAll(f[1..], s);
    }
  }

  // ---------- a cleanup in between ----------

  /** Five failures at once, and a sixth right behind the lockout. */
  function FiveFailures(ip: string): seq<Op> {
    [Check(ip, 0)] + ([Record(ip, 0)] + (InTurn(ip, 0, 3) + ([Check(ip, 0)] + [Record(ip, 0)])))
  }

  function NextFailure(ip: string): seq<Op> {
    [Check(ip, BASE_WINDOW + 1)] + [Record(ip, BASE_WINDOW + 1)]
  }

  lemma PairFails(l: Ledger, ip: string, at: int)
    requires l.clock <= at && l.open == 0 && Allowed(l.entries, ip, at)
    ensures Leads(l, ip, 1, [Check(ip, at)] + [Record(ip, at)], Ledger(Fail(l.entries, ip, at), l.failures + [at], 0, at))
  {
    var l1 := After(l, ip, Check(ip, at));
    LeadsOne(l, ip, 1, Check(ip, at));
    LeadsOne(l1, ip, 1, Record(ip, at));
    LeadsThen(l, ip, 1, [Check(ip, at)], l1, [Record(ip, at)], After(l1, ip, Record(ip, at)));
  }

  lemma FiveLock(ip: string) returns (l: Ledger)
    ensures Leads(EMPTY, ip, 1, FiveFailures(ip), l)
    ensures ip in l.entries && l.entries[ip] == Entry(5, 0, 0, Some(BASE_WINDOW)) && l.open == 0 && l.clock == 0
  {
    var l1 := After(EMPTY, ip, Check(ip, 0));
    var l2 := After(l1, ip, Record(ip, 0));
    var l3 := InTurnFail(l2, ip, 1, 3, 1, 0);
    l := Ledger(Fail(l3.entries, ip, 0), l3.failures + [0], 0, 0);
    PairFails(l3, ip, 0);
    var last := [Check(ip, 0)] + [Record(ip, 0)];
    LeadsThen(l2, ip, 1, InTurn(ip, 0, 3), l3, last, l);
    LeadsOne(l1, ip, 1, Record(ip, 0));
    LeadsThen(l1, ip, 1, [Record(ip, 0)], l2, InTurn(ip, 0, 3) + last, l);
    LeadsOne(EMPTY, ip, 1, Check(ip, 0));
    LeadsThen(EMPTY, ip, 1, [Check(ip, 0)], l1, [Record(ip, 0)] + (InTurn(ip, 0, 3) + last), l);
  }

  /** A run on which that matters: without a cleanup the window behind the first lockout is twice as long, with one
      it is as long as the first. */
  lemma SweptBackoffMatters(ip: string)
    ensures var kept := FiveFailures(ip) + NextFailure(ip);
            TimelyRun(EMPTY, ip, 1, kept) && ip in Play(EMPTY, ip, kept).entries
            && Window(Play(EMPTY, ip, kept).entries[ip].backoffLevel) == 2 * BASE_WINDOW
    ensures var swept := FiveFailures(ip) + ([Clean(BASE_WINDOW + 1)] + NextFailure(ip));
            TimelyRun(EMPTY, ip, 1, swept) && ip in Play(EMPTY, ip, swept).entries
            && Window(Play(EMPTY, ip, swept).entries[ip].backoffLevel) == BASE_WINDOW
  {
    var at := BASE_WINDOW + 1;
    var l := FiveLock(ip);
    PairFails(l, ip, at);
    LeadsThen(EMPTY, ip, 1, FiveFailures(ip), l, NextFailure(ip), Play(l, ip, NextFailure(ip)));
    var clean := After(l, ip, Clean(at));
    PairFails(clean, ip, at);
    LeadsOne(l, ip, 1, Clean(at));
    LeadsThen(l, ip, 1, [Clean(at)], clean, NextFailure(ip), Play(clean, ip, NextFailure(ip)));
    LeadsThen(EMPTY, ip, 1, FiveFailures(ip), l, [Clean(at)] + NextFailure(ip), Play(clean, ip, NextFailure(ip)));
  }
}
