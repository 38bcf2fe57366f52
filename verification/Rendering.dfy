/** What the reader of the console sees of each kind of input, told without the normaliser's own tables. */
module Rendering {
  import opened Common
  import opened Normalize

  /** The text as bytes. */
  predicate Spells(shown: Bytes, text: string) {
    |shown| == |text| && forall i :: 0 <= i < |text| ==> shown[i] == text[i] as int
  }

  /** The value of an upper-case hexadecimal digit, -1 for any other byte. */
  function DigitValue(d: byte): int {
    if '0' as int <= d <= '9' as int then d - '0' as int
    else if 'A' as int <= d <= 'F' as int then d - 'A' as int + 10
    else -1
  }

  /** The control characters' names in ASCII, from zero. */
  const CONTROL_NAMES: seq<string> :=
    ["NUL", "SOH", "STX", "ETX", "EOT", "ENQ", "ACK", "BEL", "BS", "TAB", "LF", "VT", "FF", "CR", "SO", "SI",
     "DLE", "DC1", "DC2", "DC3", "DC4", "NAK", "SYN", "ETB", "CAN", "EM", "SUB", "ESC", "FS", "GS", "RS", "US"]

  /** The name in angle brackets. */
  predicate InBrackets(shown: Bytes, name: string) {
    && |shown| == |name| + 2 && shown[0] == '<' as int && shown[|name| + 1] == '>' as int
    && Spells(shown[1..|name| + 1], name)
  }

  predicate IsControl(b: byte) {
    b < 0x20 || b == 0x7F
  }

  /** The visible form of a control byte: a caret and the byte with its seventh bit turned over, its ASCII name in angle
      brackets, or its value as two hexadecimal digits. */
  predicate Shows(shown: Bytes, b: byte, mode: Mode)
    requires IsControl(b)
  {
    match mode
    case Caret => |shown| == 2 && shown[0] == '^' as int && shown[1] == (b + 0x40) % 0x80
    case Names => InBrackets(shown, if b == 0x7F then "DEL" else CONTROL_NAMES[b])
    case Hex =>
      && |shown| == 4 && shown[0] == '\\' as int && shown[1] == 'x' as int
      && DigitValue(shown[2]) >= 0 && DigitValue(shown[3]) >= 0
      && 16 * DigitValue(shown[2]) + DigitValue(shown[3]) == b
  }

  /** The input begins with an escape sequence that is to be kept. */
  predicate KeepsEscape(s: Bytes, opt: Options) {
    opt.preserveANSI && |s| > 1 && s[0] == 0x1B && (s[1] == '[' as int || s[1] == ']' as int)
  }

  lemma NamesAre(b: byte)
    requires b < 0x20
    ensures ControlName(b) == CONTROL_NAMES[b]
  {
  }

  lemma NameShown(b: byte, name: string)
    requires IsControl(b) && name == ControlName(b)
    ensures InBrackets(RenderControl(b, Names), name)
  {
    var shown := RenderControl(b, Names);
    assert shown[1..|name| + 1] == Ascii(name);
  }

  lemma NamedShows(b: byte)
    requires IsControl(b)
    ensures Shows(RenderControl(b, Names), b, Names)
  {
    NameShown(b, ControlName(b));
    if b < 0x20 {
      NamesAre(b);
    }
  }

  lemma HexShows(b: byte)
    requires IsControl(b)
    ensures Shows(RenderControl(b, Hex), b, Hex)
  {
    assert 16 * (b / 16) + b % 16 == b;
  }

  lemma OneToken(s: Bytes, opt: Options)
    requires s != [] && TokenLength(s, opt) == 1
    ensures Normalized(s, opt) == Render([s[0]], opt) + Normalized(s[1..], opt)
  {
    assert s[..1] == [s[0]];
  }

  /** A control byte in front of any text is shown in its visible form, and the rest as the rest would be. */
  lemma ControlShown(s: Bytes, opt: Options) returns (shown: Bytes)
    requires s != [] && IsControl(s[0]) && s[0] != 0x09 && s[0] != 0x0A && s[0] != 0x0D && !KeepsEscape(s, opt)
    ensures Shows(shown, s[0], opt.mode) && Normalized(s, opt) == shown + Normalized(s[1..], opt)
  {
    shown := RenderControl(s[0], opt.mode);
    OneToken(s, opt);
    if opt.mode == Names {
      NamedShows(s[0]);
    } else if opt.mode == Hex {
      HexShows(s[0]);
    }
  }

  /** A tab is shown as the configured text, or stays a tab if there is none; every other byte from a space upwards but
      DEL stays as it is. */
  lemma TextShown(s: Bytes, opt: Options)
    requires s != [] && (s[0] == 0x09 || (s[0] >= 0x20 && s[0] != 0x7F))
    ensures Normalized(s, opt) ==
            (if s[0] == 0x09 && opt.tabRender != [] then opt.tabRender else [s[0]]) + Normalized(s[1..], opt)
  {
    OneToken(s, opt);
  }

  /** A line end that is CR LF or LF CR is one line end. */
  predicate TwoByteEnd(s: Bytes) {
    |s| > 1 && ((s[0] == 0x0D && s[1] == 0x0A) || (s[0] == 0x0A && s[1] == 0x0D))
  }

  /** A line end becomes that of the mode, or stays as it is in as-is mode, behind a tag naming what was seen if tags are
      asked for. */
  lemma LineEndShown(s: Bytes, opt: Options) returns (tag: Bytes, mark: Bytes)
    requires s != [] && (s[0] == 0x0D || s[0] == 0x0A)
    ensures var k := if TwoByteEnd(s) then 2 else 1;
            && Normalized(s, opt) == tag + mark + Normalized(s[k..], opt)
            && Spells(tag, if !opt.showNLTag then ""
                           else if k == 2 then (if s[0] == 0x0D then "<CRLF>" else "<LFCR>")
                           else if s[0] == 0x0D then "<CR>" else "<LF>")
            && mark == match opt.lineEnding
                       case AsIs => s[..k]
                       case ToLF => [0x0A]
                       case ToCR => [0x0D]
                       case ToCRLF => [0x0D, 0x0A]
                       case ToLFCR => [0x0A, 0x0D]
  {
    var k := TokenLength(s, opt);
    tag := if opt.showNLTag then NewlineTag(s[..k]) else [];
    mark := NewlineAs(s[..k], opt.lineEnding);
    NormalizedHead(s, k, opt);
  }

  /** A control sequence ends behind its first byte from @ to ~, an operating system command behind the first BEL or the
      first ESC and backslash. */
  predicate EndsEscape(s: Bytes, e: nat)
    requires 2 <= e <= |s|
  {
    if s[1] == '[' as int then e > 2 && '@' as int <= s[e - 1] <= '~' as int
    else (e > 2 && s[e - 1] == 0x07) || (e > 3 && s[e - 2] == 0x1B && s[e - 1] == '\\' as int)
  }

  lemma {:induction false} CsiEndIs(s: Bytes, j: nat)
    requires 2 <= j <= |s| && s[1] == 0x5B
    ensures CsiEnd(s, j) == |s| || EndsEscape(s, CsiEnd(s, j))
    ensures forall e :: j < e < CsiEnd(s, j) ==> !EndsEscape(s, e)
    decreases |s| - j
  {
    if j < |s| && !(0x40 <= s[j] <= 0x7E) {
      CsiEndIs(s, j + 1);
    }
  }

  lemma {:induction false} OscEndIs(s: Bytes, j: nat)
    requires 2 <= j <= |s| && s[1] == 0x5D
    requires j == 2 || s[j - 1] != 0x1B || j == |s| || s[j] != 0x5C
    ensures OscEnd(s, j) == |s| || EndsEscape(s, OscEnd(s, j))
    ensures forall e :: j < e < OscEnd(s, j) ==> !EndsEscape(s, e)
    decreases |s| - j
  {
    if j < |s| && s[j] != BEL && !(j + 1 < |s| && s[j] == ESC && s[j + 1] == BACKSLASH) {
      OscEndIs(s, j + 1);
    }
  }

  /** A kept escape sequence is shown byte for byte, to its first end or to the end of the input. */
  lemma EscapeShown(s: Bytes, opt: Options) returns (k: nat)
    requires KeepsEscape(s, opt)
    ensures 2 <= k <= |s| && (k == |s| || EndsEscape(s, k)) && forall e :: 2 <= e < k ==> !EndsEscape(s, e)
    ensures Normalized(s, opt) == s[..k] + Normalized(s[k..], opt)
  {
    k := TokenLength(s, opt);
    if s[1] == 0x5B {
      CsiEndIs(s, 2);
    } else {
      OscEndIs(s, 2);
    }
    NormalizedHead(s, k, opt);
  }
}
