/** How received data is cut into chunks does not matter to the console. */
module ConsoleChunks {
  import opened Common
  import opened Normalize
  import opened Lines
  import opened Console

  /** The bytes of a list of emitted texts. */
  function Flat(said: seq<Emit>): Bytes
    decreases |said|
  {
    if said == [] then []
    else Flat(said[..|said| - 1]) + (said[|said| - 1].prefix + said[|said| - 1].text)
  }

  lemma FlatSay(b: Broker, e: Emit)
    ensures Flat(Say(b, e).said) == Flat(b.said) + (e.prefix + e.text)
  {
    assert (b.said + [e])[..|b.said|] == b.said;
  }

  /** One end-of-line mark, or one byte of a line. */
  function StepLength(s: Bytes, mode: LineEnding): (n: nat)
    requires s != []
    ensures 1 <= n <= |s|
  {
    if EolLength(s, mode) > 0 then EolLength(s, mode) else 1
  }

  /** The received text with a label in front of each line, read byte by byte. */
  function Labelled(s: Bytes, atStart: bool, mode: LineEnding): Bytes
    decreases |s|
  {
    if s == [] then []
    else
      var n := StepLength(s, mode);
      ((if atStart then RX_LABEL else []) + s[..n]) + Labelled(s[n..], EolLength(s, mode) > 0, mode)
  }

  predicate EndsAtStart(s: Bytes, atStart: bool, mode: LineEnding)
    decreases |s|
  {
    if s == [] then atStart else EndsAtStart(s[StepLength(s, mode)..], EolLength(s, mode) > 0, mode)
  }

  /** One line's worth of labelling. */
  function LabelledFirst(s: Bytes, atStart: bool, mode: LineEnding): Bytes
    requires s != []
  {
    var k := LineLength(s, mode);
    ((if atStart then RX_LABEL else []) + s[..k]) + Labelled(s[k..], EndsWithEOL(s[..k], mode), mode)
  }

  lemma {:induction false} LabelledByte(s: Bytes, atStart: bool, mode: LineEnding)
    requires |s| > 1 && EolLength(s, mode) == 0
    requires Labelled(s[1..], false, mode) == LabelledFirst(s[1..], false, mode)
    ensures Labelled(s, atStart, mode) == LabelledFirst(s, atStart, mode)
  {
    var k := LineLength(s, mode);
    var t, pre := s[1..], if atStart then RX_LABEL else [];
    Tail(s, k);
    LongerSuffix(s, k, mode);
    Weave(pre, s[..1], t[..k - 1], Labelled(s[k..], EndsWithEOL(s[..k], mode), mode));
  }

  lemma Weave(pre: Bytes, x: Bytes, y: Bytes, z: Bytes)
    ensures (pre + x) + (([] + y) + z) == (pre + (x + y)) + z
  {
    assert [] + y == y;
    Assoc(pre + x, y, z);
    Assoc(pre, x, y);
  }

  lemma {:induction false} LabelledLine(s: Bytes, atStart: bool, mode: LineEnding)
    requires s != []
    ensures Labelled(s, atStart, mode) == LabelledFirst(s, atStart, mode)
    decreases |s|
  {
    if EolLength(s, mode) > 0 {
      EolIsLine(s, mode);
    } else if |s| > 1 {
      LabelledLine(s[1..], false, mode);
      LabelledByte(s, atStart, mode);
    }
  }

  lemma EndsAtStartEol(s: Bytes, atStart: bool, mode: LineEnding)
    requires EolLength(s, mode) > 0
    ensures var k := LineLength(s, mode);
            EndsAtStart(s, atStart, mode) == EndsAtStart(s[k..], EndsWithEOL(s[..k], mode), mode)
  {
    EolIsLine(s, mode);
  }

  lemma EndsAtStartByte(s: Bytes, atStart: bool, mode: LineEnding)
    requires |s| == 1 && EolLength(s, mode) == 0
    ensures LineLength(s, mode) == 1 && EndsAtStart(s, atStart, mode) == EndsWithEOL(s[..1], mode)
  {
    EndsWithEOLByLast(s[..1], mode);
  }

  lemma EndsAtStartStep(s: Bytes, atStart: bool, mode: LineEnding)
    requires |s| > 1 && EolLength(s, mode) == 0
    ensures EndsAtStart(s, atStart, mode) == EndsAtStart(s[1..], false, mode)
    ensures LineLength(s, mode) == 1 + LineLength(s[1..], mode)
  {
  }

  lemma {:induction false} EndsAtStartLine(s: Bytes, atStart: bool, mode: LineEnding, k: nat)
    requires s != [] && k == LineLength(s, mode)
    ensures EndsAtStart(s, atStart, mode) == EndsAtStart(s[k..], EndsWithEOL(s[..k], mode), mode)
    decreases |s|, 1
  {
    if EolLength(s, mode) > 0 {
      EndsAtStartEol(s, atStart, mode);
    } else if |s| > 1 {
      EndsAtStartMore(s, atStart, mode, k);
    } else {
      EndsAtStartByte(s, atStart, mode);
    }
  }

  lemma {:induction false} EndsAtStartMore(s: Bytes, atStart: bool, mode: LineEnding, k: nat)
    requires |s| > 1 && EolLength(s, mode) == 0 && k == LineLength(s, mode)
    ensures EndsAtStart(s, atStart, mode) == EndsAtStart(s[k..], EndsWithEOL(s[..k], mode), mode)
    decreases |s|, 0
  {
    EndsAtStartStep(s, atStart, mode);
    EndsAtStartLine(s[1..], false, mode, k - 1);
    Tail(s, k);
    LongerSuffix(s, k, mode);
  }

  lemma Tail(s: Bytes, k: nat)
    requires 1 <= k <= |s|
    ensures s[1..][k - 1..] == s[k..] && s[..k] == s[..1] + s[1..][..k - 1]
  {
  }

  /** A first byte that opens no end-of-line mark does not change how the line ends. */
  lemma LongerSuffix(s: Bytes, k: nat, mode: LineEnding)
    requires 2 <= k <= |s| && k == LineLength(s, mode) && EolLength(s, mode) == 0
    ensures EndsWithEOL(s[..k], mode) == EndsWithEOL(s[1..][..k - 1], mode)
  {
    var p, q := s[..k], s[1..][..k - 1];
    EndsWithEOLByLast(p, mode);
    EndsWithEOLByLast(q, mode);
    assert p[k - 1] == q[k - 2] && p[0] == s[0] && p[1] == s[1];
    assert k > 2 ==> p[k - 2] == q[k - 3];
  }

  lemma {:induction false} EndsAtStartIs(s: Bytes, atStart: bool, mode: LineEnding)
    requires s != []
    ensures EndsAtStart(s, atStart, mode) == EndsWithEOL(s, mode)
    decreases |s|
  {
    var k := LineLength(s, mode);
    EndsAtStartLine(s, atStart, mode, k);
    if k < |s| {
      EndsAtStartIs(s[k..], EndsWithEOL(s[..k], mode), mode);
      SuffixEnds(s, k, mode);
    } else {
      assert s[..k] == s && s[k..] == [];
    }
  }

  /** What the broker says for a received text is its byte-by-byte labelling. */
  lemma {:induction false} SayLinesIsLabelled(b: Broker, s: Bytes, mode: LineEnding)
    ensures var b' := SayLines(b, Pieces(s, mode), mode);
            && Flat(b'.said) == Flat(b.said) + Labelled(s, b.rxAtLineEnd, mode)
            && b' == b.(said := b'.said, rxAtLineEnd := EndsAtStart(s, b.rxAtLineEnd, mode))
    decreases |s|
  {
    if s != [] {
      var k := LineLength(s, mode);
      var e := Emit(FromRX, if b.rxAtLineEnd then RX_LABEL else [], s[..k]);
      var f := EndsWithEOL(s[..k], mode);
      var b1 := Say(b, e).(rxAtLineEnd := f);
      var ps := Pieces(s, mode);
      assert ps[0] == s[..k] && ps[1..] == Pieces(s[k..], mode);
      SayLinesIsLabelled(b1, s[k..], mode);
      FlatSay(b, e);
      LabelledLine(s, b.rxAtLineEnd, mode);
      EndsAtStartLine(s, b.rxAtLineEnd, mode, k);
      Assoc(Flat(b.said), e.prefix + e.text, Labelled(s[k..], f, mode));
    }
  }

  // ---------- cuts ----------

  /** No end-of-line mark lies across the cut. */
  predicate EolBoundary(s: Bytes, cut: nat, mode: LineEnding)
    decreases |s|
  {
    cut == 0 ||
    (s != [] && StepLength(s, mode) <= cut && EolBoundary(s[StepLength(s, mode)..], cut - StepLength(s, mode), mode))
  }

  lemma EolOfPart(a: Bytes, b: Bytes, mode: LineEnding)
    requires a != [] && StepLength(a + b, mode) <= |a|
    ensures EolLength(a, mode) == EolLength(a + b, mode)
  {
    var s := a + b;
    assert s[0] == a[0] && (|a| > 1 ==> s[1] == a[1]);
  }

  lemma {:induction false} LabelledSplits(a: Bytes, b: Bytes, atStart: bool, mode: LineEnding)
    requires EolBoundary(a + b, |a|, mode)
    ensures Labelled(a + b, atStart, mode) == Labelled(a, atStart, mode) + Labelled(b, EndsAtStart(a, atStart, mode), mode)
    ensures EndsAtStart(a + b, atStart, mode) == EndsAtStart(b, EndsAtStart(a, atStart, mode), mode)
    decreases |a|
  {
    if a == [] {
      assert a + b == b;
    } else {
      var n := StepLength(a + b, mode);
      EolOfPart(a, b, mode);
      CutInside(a, b, n);
      var f := EolLength(a, mode) > 0;
      LabelledSplits(a[n..], b, f, mode);
      Assoc((if atStart then RX_LABEL else []) + a[..n], Labelled(a[n..], f, mode),
            Labelled(b, EndsAtStart(a, atStart, mode), mode));
    }
  }

  lemma {:induction false} BoundaryAtEnd(s: Bytes, mode: LineEnding)
    ensures EolBoundary(s, |s|, mode)
    decreases |s|
  {
    if s != [] {
      BoundaryAtEnd(s[StepLength(s, mode)..], mode);
    }
  }

  lemma {:induction false} BoundaryAfterText(r: Bytes, tail: Bytes, mode: LineEnding)
    requires r != [] ==> !IsNewline(r[|r| - 1])
    ensures EolBoundary(r + tail, |r|, mode)
    decreases |r|
  {
    if r != [] {
      var s := r + tail;
      assert s[0] == r[0] && (|r| > 1 ==> s[1] == r[1]);
      var n := StepLength(s, mode);
      assert n <= |r|;
      CutInside(r, tail, n);
      assert r[n..] != [] ==> r[n..][|r| - n - 1] == r[|r| - 1];
      BoundaryAfterText(r[n..], tail, mode);
    }
  }

  lemma {:induction false} BoundaryBehind(s: Bytes, cut: nat, c: nat, mode: LineEnding)
    requires cut <= |s| && EolBoundary(s, cut, mode) && EolBoundary(s[cut..], c, mode)
    ensures EolBoundary(s, cut + c, mode)
    decreases |s|
  {
    if cut == 0 {
      assert s[cut..] == s;
    } else {
      var n := StepLength(s, mode);
      assert s[n..][cut - n..] == s[cut..];
      BoundaryBehind(s[n..], cut - n, c, mode);
    }
  }

  lemma BoundaryThen(a: Bytes, b: Bytes, c: nat, mode: LineEnding)
    requires EolBoundary(a + b, |a|, mode) && EolBoundary(b, c, mode)
    ensures EolBoundary(a + b, |a| + c, mode)
  {
    assert (a + b)[|a|..] == b;
    BoundaryBehind(a + b, |a|, c, mode);
  }

  /** A newline that ends at a boundary still does so behind some text. */
  lemma BoundaryBehindText(tag: Bytes, nl: Bytes, tail: Bytes, mode: LineEnding)
    requires (forall b :: b in tag ==> !IsNewline(b)) && EolBoundary(nl + tail, |nl|, mode)
    ensures EolBoundary((tag + nl) + tail, |tag + nl|, mode)
  {
    assert tag != [] ==> tag[|tag| - 1] in tag;
    BoundaryAfterText(tag, nl + tail, mode);
    BoundaryThen(tag, nl + tail, |nl|, mode);
    Assoc(tag, nl, tail);
  }

  lemma {:induction false} CsiEndsInText(s: Bytes, j: nat)
    requires j <= |s| && CsiEnd(s, j) < |s|
    ensures CsiEnd(s, j) > j && !IsNewline(s[CsiEnd(s, j) - 1])
    decreases |s| - j
  {
    if !(0x40 <= s[j] <= 0x7E) {
      CsiEndsInText(s, j + 1);
    }
  }

  lemma {:induction false} OscEndsInText(s: Bytes, j: nat)
    requires j <= |s| && OscEnd(s, j) < |s|
    ensures OscEnd(s, j) > j && !IsNewline(s[OscEnd(s, j) - 1])
    decreases |s| - j
  {
    if s[j] != BEL && !(j + 1 < |s| && s[j] == ESC && s[j + 1] == BACKSLASH) {
      OscEndsInText(s, j + 1);
    }
  }

  lemma NewlineBoundary(s: Bytes, opt: Options)
    requires CleanTabs(opt) && s != [] && IsNewline(s[0])
    ensures var k := TokenLength(s, opt);
            var nl := NewlineAs(s[..k], opt.lineEnding);
            EolBoundary(nl + Normalized(s[k..], opt), |nl|, opt.lineEnding)
  {
    var k := TokenLength(s, opt);
    var nl, tail := NewlineAs(s[..k], opt.lineEnding), Normalized(s[k..], opt);
    if tail != [] {
      FirstByte(s[k..], opt);
    }
    var t := nl + tail;
    assert t[0] == nl[0] && (|t| > 1 ==> t[1] == if |nl| > 1 then nl[1] else tail[0]);
    assert EolLength(t, opt.lineEnding) == |nl|;
  }

  /** Where the rendering of a token ends, seen in the normalised text it begins. */
  predicate RenderedApart(s: Bytes, opt: Options)
    requires s != []
  {
    var k := TokenLength(s, opt);
    EolBoundary(Render(s[..k], opt) + Normalized(s[k..], opt), |Render(s[..k], opt)|, opt.lineEnding)
  }

  lemma EscapeApart(s: Bytes, opt: Options)
    requires s != [] && StartsEscape(s, opt) && TokenLength(s, opt) < |s|
    ensures RenderedApart(s, opt)
  {
    var k := TokenLength(s, opt);
    if s[1] == 0x5B {
      CsiEndsInText(s, 2);
    } else {
      OscEndsInText(s, 2);
    }
    BoundaryAfterText(s[..k], Normalized(s[k..], opt), opt.lineEnding);
  }

  lemma NewlineApart(s: Bytes, opt: Options)
    requires CleanTabs(opt) && s != [] && IsNewline(s[0])
    ensures RenderedApart(s, opt)
  {
    var k := TokenLength(s, opt);
    var tail := Normalized(s[k..], opt);
    var tag := if opt.showNLTag then NewlineTag(s[..k]) else [];
    var nl := NewlineAs(s[..k], opt.lineEnding);
    NewlineBoundary(s, opt);
    BoundaryBehindText(tag, nl, tail, opt.lineEnding);
  }

  lemma TextApart(s: Bytes, opt: Options)
    requires CleanTabs(opt) && s != [] && !StartsEscape(s, opt) && !IsNewline(s[0])
    ensures RenderedApart(s, opt)
  {
    var k := TokenLength(s, opt);
    var r := Render(s[..k], opt);
    assert forall b :: b in r ==> !IsNewline(b);
    RenderHead(s[..k], opt);
    assert r[|r| - 1] in r;
    BoundaryAfterText(r, Normalized(s[k..], opt), opt.lineEnding);
  }

  /** No end-of-line mark lies across the end of a rendered token. */
  lemma RenderBoundary(s: Bytes, opt: Options)
    requires CleanTabs(opt) && s != []
    ensures RenderedApart(s, opt)
  {
    var k := TokenLength(s, opt);
    if k == |s| {
      var r := Render(s[..k], opt);
      assert r + Normalized(s[k..], opt) == r;
      BoundaryAtEnd(r, opt.lineEnding);
    } else if StartsEscape(s, opt) {
      EscapeApart(s, opt);
    } else if IsNewline(s[0]) {
      NewlineApart(s, opt);
    } else {
      TextApart(s, opt);
    }
  }

  lemma CutThen(r: Bytes, a: Bytes, b: Bytes, mode: LineEnding)
    requires EolBoundary(r + (a + b), |r|, mode) && EolBoundary(a + b, |a|, mode)
    ensures EolBoundary((r + a) + b, |r + a|, mode)
  {
    BoundaryThen(r, a + b, |a|, mode);
    Assoc(r, a, b);
  }

  /** A cut between tokens of the input is a cut between end-of-line marks of the normalised text. */
  lemma {:induction false} TokenCutIsEolCut(a: Bytes, b: Bytes, opt: Options)
    requires CleanTabs(opt) && TokenBoundary(a + b, |a|, opt)
    ensures EolBoundary(Normalized(a, opt) + Normalized(b, opt), |Normalized(a, opt)|, opt.lineEnding)
    decreases |a|
  {
    if a != [] {
      var k := FirstOfPart(a, b, opt);
      TokenCutIsEolCut(a[k..], b, opt);
      NormalizeSplits(a[k..], b, opt);
      RenderBoundary(a + b, opt);
      NormalizedHead(a, k, opt);
      CutThen(Render(a[..k], opt), Normalized(a[k..], opt), Normalized(b, opt), opt.lineEnding);
    }
  }

  lemma SayRxIsLabelled(b: Broker, s: Bytes, opt: Options)
    requires b.pending == None
    ensures var b' := SayRx(b, s, opt);
            var text := Normalized(s, opt);
            && Flat(b'.said) == Flat(b.said) + Labelled(text, b.rxAtLineEnd, opt.lineEnding)
            && b' == b.(said := b'.said, rxAtLineEnd := EndsAtStart(text, b.rxAtLineEnd, opt.lineEnding))
  {
    SayLinesIsLabelled(b, Normalized(s, opt), opt.lineEnding);
  }

  /** Chunk independence: with no transmission held back, receiving a and then c emits the same bytes and ends in
      the same state as receiving a + c at once, whenever the cut is not inside a CR/LF pair or an escape sequence. */
  lemma ChunksDoNotMatter(b: Broker, a: Bytes, c: Bytes, opt: Options)
    requires CleanTabs(opt) && b.pending == None && TokenBoundary(a + c, |a|, opt)
    ensures var two := RxStep(RxStep(b, a, opt), c, opt);
            var one := RxStep(b, a + c, opt);
            Flat(two.said) == Flat(one.said) && two.(said := one.said) == one
  {
    if a == [] {
      assert a + c == c;
    } else if c == [] {
      assert a + c == a;
    } else {
      var b1, mode := BreakTx(b, opt), opt.lineEnding;
      var ta, tc := Normalized(a, opt), Normalized(c, opt);
      SayRxIsLabelled(b1, a, opt);
      SayRxIsLabelled(SayRx(b1, a, opt), c, opt);
      SayRxIsLabelled(b1, a + c, opt);
      NormalizeSplits(a, c, opt);
      TokenCutIsEolCut(a, c, opt);
      LabelledSplits(ta, tc, b1.rxAtLineEnd, mode);
      Assoc(Flat(b1.said), Labelled(ta, b1.rxAtLineEnd, mode),
            Labelled(tc, EndsAtStart(ta, b1.rxAtLineEnd, mode), mode));
    }
  }
}
