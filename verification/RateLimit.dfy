/** The password rate limiter: failure windows, lockouts, exponential backoff and cleanup. */
module RateLimit {
  import opened Common

  const MAX_ATTEMPTS: int := 5
  const BASE_WINDOW: int := 15 * MINUTE
  const MAX_BACKOFF_LEVEL: int := 3

  /** lockedUntil is None for the zero time. */
  datatype Entry = Entry(attempts: int, windowStart: int, backoffLevel: int, lockedUntil: Option<int>)

  function Window(backoffLevel: int): (d: int)
    ensures d >= BASE_WINDOW
  {
    var level := if backoffLevel > MAX_BACKOFF_LEVEL then MAX_BACKOFF_LEVEL else backoffLevel;
    BASE_WINDOW * (if level <= 0 then 1 else if level == 1 then 2 else if level == 2 then 4 else 8)
  }

  predicate Locked(e: Entry, now: int) {
    e.lockedUntil.Some? && now < e.lockedUntil.value
  }

  predicate WindowOver(e: Entry, now: int) {
    now - e.windowStart > Window(e.backoffLevel)
  }

  predicate Stale(e: Entry, now: int) {
    (e.lockedUntil.Some? ==> now > e.lockedUntil.value) && WindowOver(e, now)
  }

  /** The next window of this entry escalates. */
  predicate Escalates(e: Entry) {
    e.backoffLevel > 0 || e.attempts >= MAX_ATTEMPTS
  }

  function EntryAfterFailure(e: Option<Entry>, now: int): Entry {
    match e
    case None => Entry(1, now, 0, None)
    case Some(e) =>
      if WindowOver(e, now) then
        Entry(1, now, if Escalates(e) then Min(e.backoffLevel + 1, MAX_BACKOFF_LEVEL) else e.backoffLevel, None)
      else if e.attempts + 1 >= MAX_ATTEMPTS then
        e.(attempts := e.attempts + 1, lockedUntil := Some(now + Window(e.backoffLevel)))
      else
        e.(attempts := e.attempts + 1)
  }

  type Entries = map<string, Entry>

  function Lookup(m: Entries, ip: string): Option<Entry> {
    if ip in m then Some(m[ip]) else None
  }

  predicate Allowed(m: Entries, ip: string, now: int) {
    ip in m ==> !Locked(m[ip], now)
  }

  function Fail(m: Entries, ip: string, now: int): Entries {
    m[ip := EntryAfterFailure(Lookup(m, ip), now)]
  }

  function Sweep(m: Entries, now: int): Entries {
    map ip | ip in m && !Stale(m[ip], now) :: m[ip]
  }

  class RateLimiter {
    var entries: Entries

    constructor ()
      ensures entries == map[]
    {
      entries := map[];
    }

    /** A refused caller is told a number of seconds after which it is allowed again, and no smaller whole
        number of seconds is more than one too many. */
    method IsAllowed(ip: string, now: int) returns (allowed: bool, retryAfter: int)
      ensures allowed <==> Allowed(entries, ip, now)
      ensures allowed ==> retryAfter == 0
      ensures !allowed ==> Allowed(entries, ip, now + retryAfter * SECOND)
      ensures !allowed ==> forall k :: 0 <= k < retryAfter - 1 ==> !Allowed(entries, ip, now + k * SECOND)
    {
      if ip !in entries {
        return true, 0;
      }
      var entry := entries[ip];
      if entry.lockedUntil.Some? && now < entry.lockedUntil.value {
        retryAfter := (entry.lockedUntil.value - now) / SECOND + 1;
        return false, retryAfter;
      }
      if now - entry.windowStart > Window(entry.backoffLevel) {
        return true, 0;
      }
      if entry.attempts < MAX_ATTEMPTS {
        return true, 0;
      }
      return true, 0;
    }

    method RecordFailure(ip: string, now: int)
      modifies this
      ensures entries == Fail(old(entries), ip, now)
    {
      if ip !in entries {
        entries := entries[ip := Entry(1, now, 0, None)];
        return;
      }
      var entry := entries[ip];
      if now - entry.windowStart > Window(entry.backoffLevel) {
        if entry.backoffLevel > 0 || entry.attempts >= MAX_ATTEMPTS {
          entry := entry.(backoffLevel := entry.backoffLevel + 1);
          if entry.backoffLevel > MAX_BACKOFF_LEVEL {
            entry := entry.(backoffLevel := MAX_BACKOFF_LEVEL);
          }
        }
        entries := entries[ip := entry.(attempts := 1, windowStart := now, lockedUntil := None)];
        return;
      }
      entry := entry.(attempts := entry.attempts + 1);
      if entry.attempts >= MAX_ATTEMPTS {
        entry := entry.(lockedUntil := Some(now + Window(entry.backoffLevel)));
      }
      entries := entries[ip := entry];
    }

    method RecordSuccess(ip: string)
      modifies this
      ensures entries == old(entries) - {ip}
    {
      entries := entries - {ip};
    }

    method Cleanup(now: int)
      modifies this
      ensures entries == Sweep(old(entries), now)
      ensures forall ip :: ip in old(entries) ==>
        var e := old(entries)[ip];
        (ip in entries <==>
          (e.lockedUntil.Some? && now <= e.lockedUntil.value) || now - e.windowStart <= Window(e.backoffLevel))
    {
      ghost var before := entries;
      var todo := entries.Keys;
      while todo != {}
        invariant todo <= before.Keys
        invariant entries == map ip | ip in before && (ip in todo || !Stale(before[ip], now)) :: before[ip]
        decreases |todo|
      {
        var ip :| ip in todo;
        if (entries[ip].lockedUntil.Some? ==> now > entries[ip].lockedUntil.value) &&
           now - entries[ip].windowStart > Window(entries[ip].backoffLevel)
        {
          entries := entries - {ip};
        }
        todo := todo - {ip};
      }
    }
  }

  // ---------- cleanup ----------

  /** Cleanup never changes an IsAllowed answer, now or later. */
  lemma CleanupKeepsAnswers(m: Entries, swept: int, ip: string, now: int)
    requires swept <= now
    ensures Allowed(Sweep(m, swept), ip, now) <==> Allowed(m, ip, now)
  {
  }

  /** Cleanup does change what later failures lead to: the next failure builds the same entry with and
      without it exactly when the entry was kept or had no escalation to carry over. */
  lemma CleanupForgetsBackoffIff(m: Entries, swept: int, ip: string, now: int)
    requires swept <= now && (ip in m ==> m[ip].backoffLevel >= 0)
    ensures Fail(Sweep(m, swept), ip, now)[ip] == Fail(m, ip, now)[ip] <==>
            ip in m && Stale(m[ip], swept) ==> !(m[ip].backoffLevel > 0 || m[ip].attempts >= MAX_ATTEMPTS)
  {
  }

  /** The first failure behind a window starts the next one, a level higher up to the third if the last one was locked at
      its fifth failure or its level was not zero; within a window the fifth failure and every later one lock it for its
      length. */
  lemma NextEntry(e: Entry, now: int)
    requires 0 <= e.backoffLevel <= 3
    ensures var r := EntryAfterFailure(Some(e), now);
            && 0 <= r.backoffLevel <= 3
            && (now - e.windowStart > Window(e.backoffLevel) ==>
                  && r.attempts == 1 && r.windowStart == now && r.lockedUntil == None
                  && r.backoffLevel == if e.backoffLevel == 3 then 3
                                       else if e.backoffLevel > 0 || e.attempts >= 5 then e.backoffLevel + 1 else 0)
            && (now - e.windowStart <= Window(e.backoffLevel) ==>
                  && r.attempts == e.attempts + 1 && r.windowStart == e.windowStart && r.backoffLevel == e.backoffLevel
                  && r.lockedUntil == if r.attempts >= 5 then Some(now + Window(e.backoffLevel)) else e.lockedUntil)
  {
  }

  /** The window is a quarter of an hour, and doubles with each level up to the third: half an hour, one hour, two. */
  lemma WindowDoubles(level: int)
    ensures var minutes := if level <= 0 then 15 else if level == 1 then 30 else if level == 2 then 60 else 120;
            Window(level) == minutes * 60 * 1_000_000_000
  {
  }
}
