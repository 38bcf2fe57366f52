/** The terminal end of the console: a sink that may be paused, and the bounded buffer that drops the
    oldest output while it is. */
module PausedTerminal {
  import opened Common
  import opened Normalize

  datatype Terminal = Screen(
    sink: bool, paused: bool, sent: seq<Bytes>, buf: seq<Bytes>, maxLines: int, maxBytes: int)

  function Total(buf: seq<Bytes>): nat {
    if buf == [] then 0 else |buf[0]| + Total(buf[1..])
  }

  predicate Fits(buf: seq<Bytes>, maxLines: int, maxBytes: int) {
    Total(buf) <= maxBytes && |buf| <= maxLines
  }

  /** What remains after dropping the oldest entries until both limits are met. */
  function Newest(buf: seq<Bytes>, maxLines: int, maxBytes: int): seq<Bytes> {
    if buf == [] || Fits(buf, maxLines, maxBytes) then buf else Newest(buf[1..], maxLines, maxBytes)
  }

  function Deliver(t: Terminal, s: Bytes): Terminal {
    if !t.sink || s == [] then t
    else if t.paused then t.(buf := Newest(t.buf + [s], t.maxLines, t.maxBytes))
    else t.(sent := t.sent + [s])
  }

  function DeliverAll(t: Terminal, texts: seq<Bytes>): Terminal
    decreases |texts|
  {
    if texts == [] then t else DeliverAll(Deliver(t, texts[0]), texts[1..])
  }

  /** Resuming sends what is buffered, in order; without a sink it is dropped. */
  function SetPaused(t: Terminal, v: bool): Terminal {
    if t.paused && !v then t.(paused := v, sent := if t.sink then t.sent + t.buf else t.sent, buf := [])
    else t.(paused := v)
  }

  /** A text reaches the sink at once, or is held back while the terminal is paused; without a sink, and if it is empty,
      it is dropped. Nothing held back is lost while it fits. */
  lemma DeliverIs(t: Terminal, s: Bytes)
    ensures var t' := Deliver(t, s);
            && t' == t.(sent := t'.sent, buf := t'.buf)
            && t'.sent == (if t.sink && !t.paused && s != [] then t.sent + [s] else t.sent)
            && (t.sink && t.paused && s != [] ==> t'.buf == Newest(t.buf + [s], t.maxLines, t.maxBytes))
            && (t.sink && t.paused && Total(t.buf + [s]) <= t.maxBytes && |t.buf| < t.maxLines && s != [] ==>
                  t'.buf == t.buf + [s])
            && (!t.sink || !t.paused || s == [] ==> t'.buf == t.buf)
  {
  }

  /** Pausing sends nothing; resuming sends what is held back, in order, and holds nothing any more. */
  lemma SetPausedIs(t: Terminal, v: bool)
    ensures var t' := SetPaused(t, v);
            && t' == t.(paused := v, sent := t'.sent, buf := t'.buf)
            && (v || !t.paused ==> t'.sent == t.sent && t'.buf == t.buf)
            && (t.paused && !v ==> t'.buf == [] && t'.sent == if t.sink then t.sent + t.buf else t.sent)
  {
  }

  lemma {:induction false} DeliverAllAppend(t: Terminal, a: seq<Bytes>, b: seq<Bytes>)
    ensures DeliverAll(t, a + b) == DeliverAll(DeliverAll(t, a), b)
    decreases |a|
  {
    if a == [] {
      assert a + b == b;
    } else {
      assert (a + b)[1..] == a[1..] + b;
      DeliverAllAppend(Deliver(t, a[0]), a[1..], b);
    }
  }

  lemma {:induction false} TotalAppend(a: seq<Bytes>, b: seq<Bytes>)
    ensures Total(a + b) == Total(a) + Total(b)
  {
    if a == [] {
      assert a + b == b;
    } else {
      assert (a + b)[1..] == a[1..] + b;
      TotalAppend(a[1..], b);
    }
  }

  /** Dropping before and after one more entry comes to the same as dropping once. */
  lemma {:induction false} NewestAppend(buf: seq<Bytes>, s: Bytes, maxLines: int, maxBytes: int)
    ensures Newest(Newest(buf, maxLines, maxBytes) + [s], maxLines, maxBytes) == Newest(buf + [s], maxLines, maxBytes)
    decreases |buf|
  {
    if buf != [] && !Fits(buf, maxLines, maxBytes) {
      NewestAppend(buf[1..], s, maxLines, maxBytes);
      TotalAppend(buf, [s]);
      assert (buf + [s])[1..] == buf[1..] + [s];
    }
  }

  /** Newest is the longest suffix within both limits (the empty one if no other is). */
  lemma {:induction false} NewestIsLongestSuffix(buf: seq<Bytes>, maxLines: int, maxBytes: int)
    ensures var r := Newest(buf, maxLines, maxBytes);
            && |r| <= |buf| && r == buf[|buf| - |r|..]
            && (r == [] || (Total(r) <= maxBytes && |r| <= maxLines))
            && forall i :: 0 <= i <= |buf| && Total(buf[i..]) <= maxBytes && |buf| - i <= maxLines ==> |buf| - i <= |r|
    decreases |buf|
  {
    if buf != [] && !Fits(buf, maxLines, maxBytes) {
      NewestIsLongestSuffix(buf[1..], maxLines, maxBytes);
      assert buf[0..] == buf;
      var r := Newest(buf, maxLines, maxBytes);
      forall i | 0 <= i <= |buf| && Fits(buf[i..], maxLines, maxBytes)
        ensures |buf| - i <= |r|
      {
        if i > 0 {
          assert buf[1..][i - 1..] == buf[i..];
        }
      }
    }
  }

  // ---------- whole runs ----------

  datatype Event = Write(text: Bytes) | Pause(v: bool)

  /** The terminal, every text written so far, the texts written since the terminal was last paused, and
      whether these ever exceeded the limits. */
  datatype Session = Session(t: Terminal, written: seq<Bytes>, segment: seq<Bytes>, exceeded: bool)

  function After(s: Session, e: Event): Session {
    match e
    case Pause(v) => Session(SetPaused(s.t, v), s.written, if s.t.paused && v then s.segment else [], s.exceeded)
    case Write(text) =>
      if text == [] then s else
      var segment := if s.t.paused then s.segment + [text] else [];
      Session(Deliver(s.t, text), s.written + [text], segment,
        s.exceeded || (s.t.paused && !Fits(segment, s.t.maxLines, s.t.maxBytes)))
  }

  function Play(s: Session, events: seq<Event>): Session
    decreases |events|
  {
    if events == [] then s else Play(After(s, events[0]), events[1..])
  }

  function Fresh(maxLines: int, maxBytes: int): Session {
    Session(Screen(true, false, [], [], maxLines, maxBytes), [], [], false)
  }

  predicate Inv(s: Session) {
    && s.t.sink
    && (if s.t.paused then s.t.buf == Newest(s.segment, s.t.maxLines, s.t.maxBytes) else s.t.buf == [])
    && (!s.exceeded ==> s.t.sent + s.t.buf == s.written &&
                        (s.segment == [] || Fits(s.segment, s.t.maxLines, s.t.maxBytes)))
  }

  lemma StepKeepsInv(s: Session, e: Event)
    requires Inv(s)
    ensures Inv(After(s, e))
  {
    match e
    case Pause(v) =>
    case Write(text) =>
      NewestAppend(s.segment, text, s.t.maxLines, s.t.maxBytes);
      var v := After(s, e);
      if text != [] && s.t.paused && !v.exceeded {
        TotalAppend(s.segment, [text]);
        assert s.t.buf == s.segment && v.t.buf == s.segment + [text];
        assert s.t.sent + (s.segment + [text]) == (s.t.sent + s.segment) + [text];
      } else if text != [] && !s.t.paused && !v.exceeded {
        assert v.t.sent + [] == v.t.sent && s.t.sent + [] == s.t.sent;
      }
  }

  lemma {:induction false} PlayKeepsInv(s: Session, events: seq<Event>)
    requires Inv(s)
    ensures Inv(Play(s, events))
    decreases |events|
  {
    if events != [] {
      StepKeepsInv(s, events[0]);
      PlayKeepsInv(After(s, events[0]), events[1..]);
    }
  }

  /** Pause buffer refinement: on every run of writes, pauses and resumes, a paused terminal holds the longest
      suffix of what was written since the pause that meets both limits; and as long as the limits were never
      exceeded, what the sink has received plus what is held is everything written, in order. */
  lemma PauseBufferRefines(events: seq<Event>, maxLines: int, maxBytes: int)
    ensures var s := Play(Fresh(maxLines, maxBytes), events);
            && (s.t.paused ==> s.t.buf == Newest(s.segment, s.t.maxLines, s.t.maxBytes))
            && (!s.exceeded ==> s.t.sent + s.t.buf == s.written)
            && (!s.t.paused ==> s.t.buf == [])
  {
    PlayKeepsInv(Fresh(maxLines, maxBytes), events);
  }
}
