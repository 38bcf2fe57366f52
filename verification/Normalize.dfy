/** The serial console's byte normaliser: line endings, tabs and control bytes are rewritten,
    ANSI escape sequences may be preserved. */
module Normalize {
  import opened Common

  type Bytes = seq<byte>

  const BEL: byte := 0x07
  const TAB: byte := 0x09
  const LF: byte := 0x0A
  const CR: byte := 0x0D
  const ESC: byte := 0x1B
  const BACKSLASH: byte := 0x5C

  datatype Mode = Caret | Names | Hex

  datatype LineEnding = AsIs | ToLF | ToCR | ToCRLF | ToLFCR

  datatype Options =
    Options(mode: Mode, lineEnding: LineEnding, tabRender: Bytes, preserveANSI: bool, showNLTag: bool)

  // ---------- rendering of one token ----------

  predicate Plain(b: byte) {
    b >= 0x20 && b != 0x7F
  }

  predicate AllPlain(s: Bytes) {
    forall b :: b in s ==> Plain(b)
  }

  predicate IsNewline(b: byte) {
    b == CR || b == LF
  }

  function Ascii(s: string): (r: Bytes)
    requires forall i :: 0 <= i < |s| ==> ' ' <= s[i] <= '~'
    ensures |r| == |s| && AllPlain(r)
    ensures forall i :: 0 <= i < |s| ==> r[i] == s[i] as int
  {
    if s == "" then [] else [s[0] as int] + Ascii(s[1..])
  }

  function HexDigit(n: nat): byte
    requires n < 16
  {
    if n < 10 then 0x30 + n else 0x41 + n - 10
  }

  function ControlName(b: byte): (name: string)
    ensures 0 < |name| <= 3 && forall i :: 0 <= i < |name| ==> ' ' <= name[i] <= '~'
  {
    match b
    case 0 => "NUL" case 1 => "SOH" case 2 => "STX" case 3 => "ETX"
    case 4 => "EOT" case 5 => "ENQ" case 6 => "ACK" case 7 => "BEL"
    case 8 => "BS" case 9 => "TAB" case 10 => "LF" case 11 => "VT"
    case 12 => "FF" case 13 => "CR" case 14 => "SO" case 15 => "SI"
    case 16 => "DLE" case 17 => "DC1" case 18 => "DC2" case 19 => "DC3"
    case 20 => "DC4" case 21 => "NAK" case 22 => "SYN" case 23 => "ETB"
    case 24 => "CAN" case 25 => "EM" case 26 => "SUB" case 27 => "ESC"
    case 28 => "FS" case 29 => "GS" case 30 => "RS" case 31 => "US"
    case _ => "DEL"
  }

  /** A control byte made visible. */
  function RenderControl(b: byte, mode: Mode): (r: Bytes)
    requires !Plain(b)
    ensures r != [] && AllPlain(r)
  {
    match mode
    case Caret => [0x5E, if b == 0x7F then 0x3F else 0x40 + b]
    case Names => [0x3C] + Ascii(ControlName(b)) + [0x3E]
    case Hex => [BACKSLASH, 0x78, HexDigit(b / 16), HexDigit(b % 16)]
  }

  function NewlineTag(tok: Bytes): (r: Bytes)
    requires tok != []
    ensures AllPlain(r) && |r| >= 4
  {
    if |tok| == 2 then (if tok[0] == CR then Ascii("<CRLF>") else Ascii("<LFCR>"))
    else if tok[0] == CR then Ascii("<CR>") else Ascii("<LF>")
  }

  function NewlineAs(tok: Bytes, ending: LineEnding): Bytes {
    match ending
    case AsIs => tok
    case ToLF => [LF]
    case ToCR => [CR]
    case ToCRLF => [CR, LF]
    case ToLFCR => [LF, CR]
  }

  /** What one token becomes. A token longer than one byte is a preserved escape sequence or a CR/LF pair. */
  function Render(tok: Bytes, opt: Options): Bytes
    requires tok != []
  {
    if tok[0] == ESC && |tok| > 1 then tok
    else if IsNewline(tok[0]) then
      (if opt.showNLTag then NewlineTag(tok) else []) + NewlineAs(tok, opt.lineEnding)
    else if tok[0] == TAB then (if opt.tabRender != [] then opt.tabRender else [TAB])
    else if !Plain(tok[0]) then RenderControl(tok[0], opt.mode)
    else tok
  }

  // ---------- tokens ----------

  /** Where a CSI sequence scanned from j ends: behind its final byte, or at the end of the input. */
  function CsiEnd(s: Bytes, j: nat): (k: nat)
    requires j <= |s|
    ensures j <= k <= |s|
    decreases |s| - j
  {
    if j == |s| then j else if 0x40 <= s[j] <= 0x7E then j + 1 else CsiEnd(s, j + 1)
  }

  /** Where an OSC sequence scanned from j ends: behind BEL or ST, or at the end of the input. */
  function OscEnd(s: Bytes, j: nat): (k: nat)
    requires j <= |s|
    ensures j <= k <= |s|
    decreases |s| - j
  {
    if j == |s| then j
    else if s[j] == BEL then j + 1
    else if j + 1 < |s| && s[j] == ESC && s[j + 1] == BACKSLASH then j + 2
    else OscEnd(s, j + 1)
  }

  predicate IsPair(a: byte, b: byte) {
    (a == CR && b == LF) || (a == LF && b == CR)
  }

  predicate StartsEscape(s: Bytes, opt: Options) {
    opt.preserveANSI && |s| > 1 && s[0] == ESC && (s[1] == 0x5B || s[1] == 0x5D)
  }

  /** The length of the first token. */
  function TokenLength(s: Bytes, opt: Options): (k: nat)
    requires s != []
    ensures 1 <= k <= |s|
  {
    if StartsEscape(s, opt) then (if s[1] == 0x5B then CsiEnd(s, 2) else OscEnd(s, 2))
    else if |s| > 1 && IsPair(s[0], s[1]) then 2
    else 1
  }

  function Normalized(s: Bytes, opt: Options): Bytes
    decreases |s|
  {
    if s == [] then []
    else
      var k := TokenLength(s, opt);
      Render(s[..k], opt) + Normalized(s[k..], opt)
  }

  /** How many newline tokens the input has. */
  function Newlines(s: Bytes, opt: Options): nat
    decreases |s|
  {
    if s == [] then 0
    else (if IsNewline(s[0]) then 1 else 0) + Newlines(s[TokenLength(s, opt)..], opt)
  }

  // ---------- the program's loop ----------

  lemma {:induction false} CsiEndShift(s: Bytes, i: nat, j: nat)
    requires i <= j <= |s|
    ensures CsiEnd(s[i..], j - i) == CsiEnd(s, j) - i
    decreases |s| - j
  {
    if j < |s| && !(0x40 <= s[j] <= 0x7E) {
      CsiEndShift(s, i, j + 1);
    }
  }

  lemma {:induction false} OscEndShift(s: Bytes, i: nat, j: nat)
    requires i <= j <= |s|
    ensures OscEnd(s[i..], j - i) == OscEnd(s, j) - i
    decreases |s| - j
  {
    if j < |s| && s[j] != BEL && !(j + 1 < |s| && s[j] == ESC && s[j + 1] == BACKSLASH) {
      OscEndShift(s, i, j + 1);
    }
  }

  method ScanCsi(input: Bytes, i: nat) returns (j: nat)
    requires i + 2 <= |input|
    ensures j == i + CsiEnd(input[i..], 2)
  {
    j := i + 2;
    CsiEndShift(input, i, j);
    while j < |input|
      invariant i + 2 <= j <= |input| && CsiEnd(input, j) == CsiEnd(input, i + 2)
    {
      var c := input[j];
      if c >= 0x40 && c <= 0x7E {
        j := j + 1;
        break;
      }
      j := j + 1;
    }
  }

  method ScanOsc(input: Bytes, i: nat) returns (j: nat)
    requires i + 2 <= |input|
    ensures j == i + OscEnd(input[i..], 2)
  {
    j := i + 2;
    OscEndShift(input, i, j);
    while j < |input|
      invariant i + 2 <= j <= |input| && OscEnd(input, j) == OscEnd(input, i + 2)
    {
      if input[j] == BEL {
        j := j + 1;
        break;
      }
      if j + 1 < |input| && input[j] == ESC && input[j + 1] == BACKSLASH {
        j := j + 2;
        break;
      }
      j := j + 1;
    }
  }

  /** Where the token starting at i ends. */
  method NextToken(input: Bytes, i: nat, opt: Options) returns (j: nat)
    requires i < |input|
    ensures j == i + TokenLength(input[i..], opt)
  {
    var b := input[i];
    j := i + 1;
    if opt.preserveANSI && b == ESC && i + 1 < |input| && input[i + 1] == 0x5B {
      j := ScanCsi(input, i);
    } else if opt.preserveANSI && b == ESC && i + 1 < |input| && input[i + 1] == 0x5D {
      j := ScanOsc(input, i);
    } else if IsNewline(b) && i + 1 < |input| && IsPair(b, input[i + 1]) {
      j := i + 2;
    }
  }

  /** One pass over the input, as the program makes it. */
  method NormalizeText(input: Bytes, opt: Options) returns (out: Bytes)
    ensures out == Normalized(input, opt)
  {
    out := [];
    var i := 0;
    while i < |input|
      invariant 0 <= i <= |input| && Normalized(input, opt) == out + Normalized(input[i..], opt)
    {
      var j := NextToken(input, i, opt);
      NormalizedStep(input, i, j, opt);
      out := out + Render(input[i..j], opt);
      i := j;
    }
  }

  lemma NormalizedStep(input: Bytes, i: nat, j: nat, opt: Options)
    requires i < |input| && j == i + TokenLength(input[i..], opt)
    ensures Normalized(input[i..], opt) == Render(input[i..j], opt) + Normalized(input[j..], opt)
  {
    var rest, k := input[i..], j - i;
    assert input[i..j] == rest[..k] && input[j..] == rest[k..];
  }

  // ---------- idempotence ----------

  /** No control byte in the tab rendering. */
  predicate CleanTabs(opt: Options) {
    AllPlain(opt.tabRender)
  }

  function Untagged(opt: Options): Options {
    opt.(showNLTag := false)
  }

  lemma HeadTail(p: Bytes, rest: Bytes)
    requires p != []
    ensures p + rest == [p[0]] + (p[1..] + rest)
  {
  }

  lemma PlainHead(b: byte, rest: Bytes, opt: Options)
    requires Plain(b)
    ensures Normalized([b] + rest, opt) == [b] + Normalized(rest, opt)
    ensures Newlines([b] + rest, opt) == Newlines(rest, opt)
  {
    var s := [b] + rest;
    assert TokenLength(s, opt) == 1;
    assert s[..1] == [b] && s[1..] == rest;
    assert Render([b], opt) == [b];
  }

  lemma {:induction false} PlainPrefix(p: Bytes, rest: Bytes, opt: Options)
    requires AllPlain(p)
    ensures Normalized(p + rest, opt) == p + Normalized(rest, opt)
    ensures Newlines(p + rest, opt) == Newlines(rest, opt)
    decreases |p|
  {
    if p == [] {
      assert p + rest == rest;
    } else {
      var tail := p[1..] + rest;
      assert p[0] in p && forall b :: b in p[1..] ==> b in p;
      PlainPrefix(p[1..], rest, opt);
      PlainHead(p[0], tail, opt);
      HeadTail(p, rest);
      calc {
        Normalized(p + rest, opt);
        Normalized([p[0]] + tail, opt);
        [p[0]] + Normalized(tail, opt);
        [p[0]] + (p[1..] + Normalized(rest, opt));
        { HeadTail(p, Normalized(rest, opt)); }
        p + Normalized(rest, opt);
      }
    }
  }

  lemma {:induction false} CsiEndAgrees(s: Bytes, t: Bytes, j: nat)
    requires j <= |s| && j <= |t| && CsiEnd(s, j) <= |t|
    requires forall i :: j <= i < CsiEnd(s, j) ==> s[i] == t[i]
    requires CsiEnd(s, j) < |s| || CsiEnd(s, j) == |t|
    ensures CsiEnd(t, j) == CsiEnd(s, j)
    decreases |s| - j
  {
    if j < |s| && !(0x40 <= s[j] <= 0x7E) {
      CsiEndAgrees(s, t, j + 1);
    }
  }

  lemma {:induction false} OscEndAgrees(s: Bytes, t: Bytes, j: nat)
    requires j <= |s| && j <= |t| && OscEnd(s, j) <= |t|
    requires forall i :: j <= i < OscEnd(s, j) ==> s[i] == t[i]
    requires OscEnd(s, j) < |s| || OscEnd(s, j) == |t|
    ensures OscEnd(t, j) == OscEnd(s, j)
    decreases |s| - j
  {
    if j < |s| && s[j] != BEL && !(j + 1 < |s| && s[j] == ESC && s[j + 1] == BACKSLASH) {
      OscEndAgrees(s, t, j + 1);
    }
  }

  /** A token is found again in any text that starts with it, provided that text goes on only where the
      first one did. */
  lemma EscapeAgrees(s: Bytes, t: Bytes, opt: Options)
    requires StartsEscape(s, opt)
    requires TokenLength(s, opt) <= |t| && s[..TokenLength(s, opt)] == t[..TokenLength(s, opt)]
    requires TokenLength(s, opt) < |s| || TokenLength(s, opt) == |t|
    ensures TokenLength(t, opt) == TokenLength(s, opt) && StartsEscape(t, opt)
  {
    var k := TokenLength(s, opt);
    assert t[0] == t[..k][0] && t[1] == t[..k][1];
    forall i | 0 <= i < k
      ensures s[i] == t[i]
    {
      assert s[..k][i] == t[..k][i];
    }
    if s[1] == 0x5B {
      CsiEndAgrees(s, t, 2);
    } else {
      OscEndAgrees(s, t, 2);
    }
  }

  /** Normalised text never starts with the second half of a newline it would have to pair with. */
  lemma FirstByte(s: Bytes, opt: Options)
    requires CleanTabs(opt) && Normalized(s, opt) != []
    ensures var b := Normalized(s, opt)[0];
            && (IsNewline(b) ==> !opt.showNLTag && (opt.lineEnding == AsIs ==> s[0] == b))
            && ((opt.lineEnding == ToLF || opt.lineEnding == ToLFCR) ==> b != CR)
            && ((opt.lineEnding == ToCR || opt.lineEnding == ToCRLF) ==> b != LF)
  {
    var k := TokenLength(s, opt);
    var r := Render(s[..k], opt);
    RenderHead(s[..k], opt);
    assert Normalized(s, opt)[0] == r[0];
  }

  lemma RenderHead(tok: Bytes, opt: Options)
    requires CleanTabs(opt) && tok != []
    ensures var r := Render(tok, opt);
            && r != []
            && (IsNewline(r[0]) ==> IsNewline(tok[0]) && !opt.showNLTag && r[0] == NewlineAs(tok, opt.lineEnding)[0])
  {
    var r := Render(tok, opt);
    if r != [] {
      assert r[0] in r;
    }
  }

  /** One token of a text, cut off by its length. */
  lemma TokenCut(tok: Bytes, rest: Bytes, opt: Options)
    requires tok != [] && TokenLength(tok + rest, opt) == |tok|
    ensures Normalized(tok + rest, opt) == Render(tok, opt) + Normalized(rest, opt)
    ensures Newlines(tok + rest, opt) == (if IsNewline(tok[0]) then 1 else 0) + Newlines(rest, opt)
  {
    Cut(tok, rest);
  }

  lemma Cut(a: Bytes, b: Bytes)
    ensures (a + b)[..|a|] == a && (a + b)[|a|..] == b
  {
  }

  lemma NewlineIsToken(nl: Bytes, tail: Bytes, opt: Options)
    requires (|nl| == 1 && IsNewline(nl[0])) || (|nl| == 2 && IsPair(nl[0], nl[1]))
    requires |nl| == 1 && tail != [] ==> !IsPair(nl[0], tail[0])
    ensures TokenLength(nl + tail, opt) == |nl|
  {
    var t := nl + tail;
    assert t[0] == nl[0];
    if |t| > 1 {
      assert t[1] == if |nl| == 2 then nl[1] else tail[0];
    }
  }

  /** The newline a token became pairs with nothing that the following normalised text can start with. */
  lemma NewlineStandsAlone(s: Bytes, opt: Options)
    requires CleanTabs(opt) && s != [] && IsNewline(s[0])
    ensures var k := TokenLength(s, opt);
            TokenLength(NewlineAs(s[..k], opt.lineEnding) + Normalized(s[k..], opt), Untagged(opt)) ==
            |NewlineAs(s[..k], opt.lineEnding)|
  {
    var k := TokenLength(s, opt);
    var tail := Normalized(s[k..], opt);
    if tail != [] {
      FirstByte(s[k..], opt);
    }
    NewlineIsToken(NewlineAs(s[..k], opt.lineEnding), tail, Untagged(opt));
  }

  /** A rendered newline followed by normalised text is one token that renders as itself. */
  lemma NewlineStable(s: Bytes, opt: Options)
    requires CleanTabs(opt) && s != [] && IsNewline(s[0])
    ensures var k := TokenLength(s, opt);
            var nl := NewlineAs(s[..k], opt.lineEnding);
            var tail := Normalized(s[k..], opt);
            && Normalized(nl + tail, Untagged(opt)) == nl + Normalized(tail, Untagged(opt))
            && Newlines(nl + tail, Untagged(opt)) == 1 + Newlines(tail, Untagged(opt))
  {
    var k := TokenLength(s, opt);
    var nl := NewlineAs(s[..k], opt.lineEnding);
    NewlineStandsAlone(s, opt);
    NewlineRendersItself(s[..k], opt);
    TokenCut(nl, Normalized(s[k..], opt), Untagged(opt));
  }

  lemma NewlineRendersItself(tok: Bytes, opt: Options)
    requires tok != [] && IsNewline(tok[0])
    ensures var nl := NewlineAs(tok, opt.lineEnding);
            nl != [] && IsNewline(nl[0]) && Render(nl, Untagged(opt)) == nl
  {
  }

  lemma EscapeStable(s: Bytes, opt: Options)
    requires s != [] && StartsEscape(s, opt)
    ensures var k := TokenLength(s, opt);
            var tail := Normalized(s[k..], opt);
            && Normalized(s[..k] + tail, Untagged(opt)) == s[..k] + Normalized(tail, Untagged(opt))
            && Newlines(s[..k] + tail, Untagged(opt)) == Newlines(tail, Untagged(opt))
  {
    var k := TokenLength(s, opt);
    var tail := Normalized(s[k..], opt);
    Cut(s[..k], tail);
    EscapeAgrees(s, s[..k] + tail, Untagged(opt));
    TokenCut(s[..k], tail, Untagged(opt));
  }

  /** Rendering one token leaves text that a second, untagged pass does not change. */
  lemma RenderStable(s: Bytes, opt: Options)
    requires CleanTabs(opt) && s != []
    ensures var k := TokenLength(s, opt);
            var r, tail := Render(s[..k], opt), Normalized(s[k..], opt);
            && Normalized(r + tail, Untagged(opt)) == r + Normalized(tail, Untagged(opt))
            && Newlines(r + tail, Untagged(opt)) == (if IsNewline(s[0]) then 1 else 0) + Newlines(tail, Untagged(opt))
  {
    var k := TokenLength(s, opt);
    var tok, tail, u := s[..k], Normalized(s[k..], opt), Untagged(opt);
    var r := Render(tok, opt);
    if StartsEscape(s, opt) {
      EscapeStable(s, opt);
    } else if IsNewline(s[0]) {
      var tag := if opt.showNLTag then NewlineTag(tok) else [];
      var nl := NewlineAs(tok, opt.lineEnding);
      NewlineStable(s, opt);
      PlainPrefix(tag, nl + tail, u);
      Assoc(tag, nl, tail);
      Assoc(tag, nl, Normalized(tail, u));
    } else if s[0] == TAB && opt.tabRender == [] {
      assert r == [TAB] && TokenLength(r + tail, u) == 1;
      TokenCut(r, tail, u);
    } else {
      RenderedPlain(tok, opt);
      PlainPrefix(r, tail, u);
    }
  }

  lemma Assoc<T>(a: seq<T>, b: seq<T>, c: seq<T>)
    ensures (a + b) + c == a + (b + c)
  {
  }

  lemma RenderedPlain(tok: Bytes, opt: Options)
    requires CleanTabs(opt) && |tok| == 1 && !IsNewline(tok[0]) && !(tok[0] == TAB && opt.tabRender == [])
    ensures AllPlain(Render(tok, opt))
  {
  }

  /** A second pass without tags never changes anything, and sees the newlines the first one saw. */
  lemma {:induction false} SecondPass(s: Bytes, opt: Options)
    requires CleanTabs(opt)
    ensures Normalized(Normalized(s, opt), Untagged(opt)) == Normalized(s, opt)
    ensures Newlines(Normalized(s, opt), Untagged(opt)) == Newlines(s, opt)
    decreases |s|
  {
    if s != [] {
      RenderStable(s, opt);
      SecondPass(s[TokenLength(s, opt)..], opt);
    }
  }

  /** normalize is idempotent: for every input, line-ending mode and control mode, with ANSI sequences
      preserved or not, when no newline tags are shown and the tab rendering holds no control byte. */
  lemma NormalizeIsIdempotent(s: Bytes, opt: Options)
    requires CleanTabs(opt) && !opt.showNLTag
    ensures Normalized(Normalized(s, opt), opt) == Normalized(s, opt)
  {
    SecondPass(s, opt);
    assert Untagged(opt) == opt;
  }

  /** Tags only add bytes, at least four for each newline. */
  lemma {:induction false} TagsLengthen(s: Bytes, opt: Options)
    requires opt.showNLTag
    ensures |Normalized(s, opt)| >= |Normalized(s, Untagged(opt))| + 4 * Newlines(s, opt)
    ensures Newlines(s, opt) == Newlines(s, Untagged(opt))
    ensures Newlines(s, opt) == 0 ==> Normalized(s, opt) == Normalized(s, Untagged(opt))
    decreases |s|
  {
    if s != [] {
      TagsLengthen(s[TokenLength(s, opt)..], opt);
      var k := TokenLength(s, opt);
      assert TokenLength(s, Untagged(opt)) == k;
      TagLengthens(s[..k], opt);
    }
  }

  lemma TagLengthens(tok: Bytes, opt: Options)
    requires opt.showNLTag && tok != []
    ensures |Render(tok, opt)| >= |Render(tok, Untagged(opt))| + (if IsNewline(tok[0]) then 4 else 0)
    ensures !IsNewline(tok[0]) ==> Render(tok, opt) == Render(tok, Untagged(opt))
  {
  }

  /** With visible newline tags a second pass changes the text exactly when it holds a newline. */
  lemma TaggedIdempotentIff(s: Bytes, opt: Options)
    requires CleanTabs(opt) && opt.showNLTag
    ensures Normalized(Normalized(s, opt), opt) == Normalized(s, opt) <==> Newlines(s, opt) == 0
  {
    SecondPass(s, opt);
    TagsLengthen(Normalized(s, opt), opt);
  }

  // ---------- chunk independence ----------

  /** The cut lies between two tokens: not inside a CR/LF pair and not inside an escape sequence. */
  predicate TokenBoundary(s: Bytes, cut: nat, opt: Options)
    decreases |s|
  {
    cut == 0 ||
    (s != [] && TokenLength(s, opt) <= cut && TokenBoundary(s[TokenLength(s, opt)..], cut - TokenLength(s, opt), opt))
  }

  lemma TokenOfPart(a: Bytes, b: Bytes, opt: Options)
    requires a != [] && TokenLength(a + b, opt) <= |a|
    ensures TokenLength(a, opt) == TokenLength(a + b, opt)
  {
    var k := TokenLength(a + b, opt);
    if StartsEscape(a + b, opt) {
      if b == [] {
        assert a + b == a;
      } else {
        assert (a + b)[..k] == a[..k];
        EscapeAgrees(a + b, a, opt);
      }
    }
  }

  lemma NormalizedHead(s: Bytes, k: nat, opt: Options)
    requires s != [] && k == TokenLength(s, opt)
    ensures Normalized(s, opt) == Render(s[..k], opt) + Normalized(s[k..], opt)
  {
  }

  /** The first token of a text cut between tokens is that of its first part. */
  lemma FirstOfPart(a: Bytes, b: Bytes, opt: Options) returns (k: nat)
    requires a != [] && TokenBoundary(a + b, |a|, opt)
    ensures 0 < k == TokenLength(a, opt) == TokenLength(a + b, opt) <= |a|
    ensures (a + b)[..k] == a[..k] && (a + b)[k..] == a[k..] + b && TokenBoundary(a[k..] + b, |a[k..]|, opt)
  {
    k := TokenLength(a + b, opt);
    TokenOfPart(a, b, opt);
    CutInside(a, b, k);
  }

  lemma SplitBehind(a: Bytes, b: Bytes, k: nat, opt: Options)
    requires a != [] && k == TokenLength(a, opt) == TokenLength(a + b, opt)
    requires (a + b)[..k] == a[..k] && (a + b)[k..] == a[k..] + b
    requires Normalized(a[k..] + b, opt) == Normalized(a[k..], opt) + Normalized(b, opt)
    ensures Normalized(a + b, opt) == Normalized(a, opt) + Normalized(b, opt)
  {
    NormalizedHead(a + b, k, opt);
    NormalizedHead(a, k, opt);
    Assoc(Render(a[..k], opt), Normalized(a[k..], opt), Normalized(b, opt));
  }

  /** Normalising is a homomorphism on cuts at token boundaries. */
  lemma {:induction false} NormalizeSplits(a: Bytes, b: Bytes, opt: Options)
    requires TokenBoundary(a + b, |a|, opt)
    ensures Normalized(a + b, opt) == Normalized(a, opt) + Normalized(b, opt)
    decreases |a|
  {
    if a == [] {
      assert a + b == b;
    } else {
      var k := FirstOfPart(a, b, opt);
      NormalizeSplits(a[k..], b, opt);
      SplitBehind(a, b, k, opt);
    }
  }

  lemma CutInside(a: Bytes, b: Bytes, k: nat)
    requires k <= |a|
    ensures (a + b)[..k] == a[..k] && (a + b)[k..] == a[k..] + b
  {
  }
}
