/** Splitting console text into lines that keep their end-of-line marks. */
module Lines {
  import opened Common
  import opened Normalize

  /** The length of the end-of-line mark at the start of s, 0 if there is none. As-is text takes
      CR, LF, CRLF and LFCR, the longest first; a normalised text takes its own separator only. */
  function EolLength(s: Bytes, mode: LineEnding): (n: nat)
    ensures n <= |s|
  {
    if s == [] then 0
    else match mode
      case AsIs => if !IsNewline(s[0]) then 0 else if |s| > 1 && IsPair(s[0], s[1]) then 2 else 1
      case ToLF => if s[0] == LF then 1 else 0
      case ToCR => if s[0] == CR then 1 else 0
      case ToCRLF => if |s| > 1 && s[0] == CR && s[1] == LF then 2 else 0
      case ToLFCR => if |s| > 1 && s[0] == LF && s[1] == CR then 2 else 0
  }

  predicate HasSuffix(s: Bytes, suffix: Bytes) {
    |s| >= |suffix| && s[|s| - |suffix|..] == suffix
  }

  predicate EndsWithEOL(s: Bytes, mode: LineEnding) {
    match mode
    case ToCRLF => HasSuffix(s, [CR, LF])
    case ToLFCR => HasSuffix(s, [LF, CR])
    case ToLF => HasSuffix(s, [LF])
    case ToCR => HasSuffix(s, [CR])
    case AsIs => HasSuffix(s, [CR, LF]) || HasSuffix(s, [LF, CR]) || HasSuffix(s, [LF]) || HasSuffix(s, [CR])
  }

  /** The same test, read off the last two bytes. */
  predicate EolByLast(s: Bytes, mode: LineEnding) {
    s != [] &&
    match mode
    case ToLF => s[|s| - 1] == LF
    case ToCR => s[|s| - 1] == CR
    case AsIs => IsNewline(s[|s| - 1])
    case ToCRLF => |s| > 1 && s[|s| - 2] == CR && s[|s| - 1] == LF
    case ToLFCR => |s| > 1 && s[|s| - 2] == LF && s[|s| - 1] == CR
  }

  lemma LastByte(s: Bytes, b: byte)
    ensures HasSuffix(s, [b]) <==> s != [] && s[|s| - 1] == b
  {
    if s != [] {
      assert s[|s| - 1..] == [s[|s| - 1]];
    }
  }

  lemma LastTwoBytes(s: Bytes, a: byte, b: byte)
    ensures HasSuffix(s, [a, b]) <==> |s| > 1 && s[|s| - 2] == a && s[|s| - 1] == b
  {
    if |s| > 1 {
      assert s[|s| - 2..] == [s[|s| - 2], s[|s| - 1]];
    }
  }

  lemma EndsWithEOLByLast(s: Bytes, mode: LineEnding)
    ensures EndsWithEOL(s, mode) <==> EolByLast(s, mode)
  {
    LastByte(s, LF);
    LastByte(s, CR);
    LastTwoBytes(s, CR, LF);
    LastTwoBytes(s, LF, CR);
  }

  /** The length of the first line, its end-of-line mark included. */
  function LineLength(s: Bytes, mode: LineEnding): (k: nat)
    requires s != []
    ensures 1 <= k <= |s|
  {
    var e := EolLength(s, mode);
    if e > 0 then e else if |s| == 1 then 1 else 1 + LineLength(s[1..], mode)
  }

  function Pieces(s: Bytes, mode: LineEnding): (r: seq<Bytes>)
    ensures r == [] <==> s == []
    ensures forall p :: p in r ==> p != []
    decreases |s|
  {
    if s == [] then []
    else var k := LineLength(s, mode); [s[..k]] + Pieces(s[k..], mode)
  }

  function Concat(pieces: seq<Bytes>): Bytes {
    if pieces == [] then [] else pieces[0] + Concat(pieces[1..])
  }

  // ---------- the splitter ----------

  function Separator(mode: LineEnding): Bytes
    requires mode != AsIs
  {
    NewlineAs([], mode)
  }

  /** The library's SplitAfter: cut behind every occurrence of sep, keep what is left as the last piece. */
  function SplitAfter(s: Bytes, sep: Bytes): (r: seq<Bytes>)
    requires sep != []
    ensures r != []
    decreases |s|
  {
    var i := IndexOf(s, sep);
    if i == |s| then [s] else [s[..i + |sep|]] + SplitAfter(s[i + |sep|..], sep)
  }

  /** The first position where sep occurs, |s| if it does not. */
  function IndexOf(s: Bytes, sep: Bytes): (i: nat)
    requires sep != []
    ensures i <= |s| && (i < |s| ==> i + |sep| <= |s| && s[i..i + |sep|] == sep)
  {
    if s == [] || (|sep| <= |s| && s[..|sep|] == sep) then 0
    else 1 + IndexOf(s[1..], sep)
  }

  lemma {:induction false} IndexOfIsFirst(s: Bytes, sep: Bytes, j: nat)
    requires sep != [] && j + |sep| <= |s| && s[j..j + |sep|] == sep
    ensures IndexOf(s, sep) <= j
    decreases j
  {
    if j > 0 {
      assert s[1..][j - 1..j - 1 + |sep|] == s[j..j + |sep|];
      IndexOfIsFirst(s[1..], sep, j - 1);
    }
  }

  lemma {:induction false} IndexOfIsLine(s: Bytes, mode: LineEnding)
    requires mode != AsIs && s != []
    ensures var sep := Separator(mode);
            var i := IndexOf(s, sep);
            LineLength(s, mode) == if i < |s| then i + |sep| else |s|
    decreases |s|
  {
    var sep := Separator(mode);
    assert EolLength(s, mode) > 0 <==> |sep| <= |s| && s[..|sep|] == sep by {
      if |sep| <= |s| && s[..|sep|] == sep {
        assert s[0] == sep[0] && (|sep| == 2 ==> s[1] == s[..2][1]);
      }
    }
    if EolLength(s, mode) == 0 && |s| > 1 {
      IndexOfIsLine(s[1..], mode);
    }
  }

  lemma SeparatorEnds(s: Bytes, mode: LineEnding)
    requires mode != AsIs
    ensures EndsWithEOL(s, mode) <==> HasSuffix(s, Separator(mode))
  {
  }

  lemma SuffixIsFound(s: Bytes, sep: Bytes)
    requires sep != []
    ensures HasSuffix(s, sep) ==> IndexOf(s, sep) < |s|
  {
    if HasSuffix(s, sep) {
      IndexOfIsFirst(s, sep, |s| - |sep|);
    }
  }

  lemma SplitWithoutEnd(s: Bytes, mode: LineEnding)
    requires mode != AsIs && s != [] && IndexOf(s, Separator(mode)) == |s|
    ensures LineLength(s, mode) == |s| && SplitAfter(s, Separator(mode)) == [s] && !EndsWithEOL(s, mode)
  {
    var sep := Separator(mode);
    IndexOfIsLine(s, mode);
    SeparatorEnds(s, mode);
    SuffixIsFound(s, sep);
  }

  lemma SplitAtEnd(s: Bytes, mode: LineEnding)
    requires mode != AsIs && s != []
    requires var i := IndexOf(s, Separator(mode)); i < |s| && i + |Separator(mode)| == |s|
    ensures LineLength(s, mode) == |s| && SplitAfter(s, Separator(mode)) == [s, []] && EndsWithEOL(s, mode)
  {
    IndexOfIsLine(s, mode);
    SeparatorEnds(s, mode);
    FoundAtEnd(s, Separator(mode));
  }

  lemma FoundAtEnd(s: Bytes, sep: Bytes)
    requires sep != [] && s != [] && IndexOf(s, sep) < |s| && IndexOf(s, sep) + |sep| == |s|
    ensures SplitAfter(s, sep) == [s, []] && HasSuffix(s, sep)
  {
    var i := IndexOf(s, sep);
    assert s[..i + |sep|] == s && s[i + |sep|..] == [];
    assert IndexOf([], sep) == 0;
    assert s[i..] == s[i..i + |sep|];
  }

  lemma WholeLine(s: Bytes, mode: LineEnding)
    requires s != [] && LineLength(s, mode) == |s|
    ensures Pieces(s, mode) == [s]
  {
    assert s[..|s|] == s && s[|s|..] == [];
  }

  /** The line ends where the first separator does, and so does the library's first piece. */
  lemma SplitInside(s: Bytes, mode: LineEnding, k: nat)
    requires mode != AsIs && s != []
    requires var i := IndexOf(s, Separator(mode)); i < |s| && k == i + |Separator(mode)| && k < |s|
    ensures k == LineLength(s, mode)
    ensures SplitAfter(s, Separator(mode)) == [s[..k]] + SplitAfter(s[k..], Separator(mode))
  {
    IndexOfIsLine(s, mode);
  }

  lemma FirstPiece(s: Bytes, mode: LineEnding, k: nat)
    requires s != [] && k == LineLength(s, mode)
    ensures Pieces(s, mode) == [s[..k]] + Pieces(s[k..], mode)
  {
  }

  /** On a normalised text the library call yields the lines, plus an empty piece when the text ends in a line end. */
  lemma {:induction false} SplitAfterIsPieces(s: Bytes, mode: LineEnding)
    requires mode != AsIs && s != []
    ensures SplitAfter(s, Separator(mode)) ==
            Pieces(s, mode) + if EndsWithEOL(s, mode) then [[]] else []
    decreases |s|, 1
  {
    var sep := Separator(mode);
    var i := IndexOf(s, sep);
    if i == |s| {
      SplitWithoutEnd(s, mode);
      WholeLine(s, mode);
    } else if i + |sep| == |s| {
      SplitAtEnd(s, mode);
      WholeLine(s, mode);
    } else {
      SplitAfterMore(s, mode, i + |sep|);
    }
  }

  lemma {:induction false} SplitAfterMore(s: Bytes, mode: LineEnding, k: nat)
    requires mode != AsIs && s != []
    requires var i := IndexOf(s, Separator(mode)); i < |s| && k == i + |Separator(mode)| && k < |s|
    ensures SplitAfter(s, Separator(mode)) ==
            Pieces(s, mode) + if EndsWithEOL(s, mode) then [[]] else []
    decreases |s|, 0
  {
    SplitInside(s, mode, k);
    FirstPiece(s, mode, k);
    SplitAfterIsPieces(s[k..], mode);
    SuffixEnds(s, k, mode);
    Assoc([s[..k]], Pieces(s[k..], mode), if EndsWithEOL(s, mode) then [[]] else []);
  }

  lemma EolIsLine(s: Bytes, mode: LineEnding)
    requires EolLength(s, mode) > 0
    ensures LineLength(s, mode) == EolLength(s, mode) && EndsWithEOL(s[..EolLength(s, mode)], mode)
  {
    EndsWithEOLByLast(s[..EolLength(s, mode)], mode);
  }

  lemma PrefixTail(s: Bytes, k: nat)
    requires 1 <= k <= |s|
    ensures s[..k][1..] == s[1..][..k - 1]
  {
  }

  /** A line that is not the whole text ends in an end-of-line mark. */
  lemma {:induction false} LineEnds(s: Bytes, mode: LineEnding)
    requires s != [] && LineLength(s, mode) < |s|
    ensures EndsWithEOL(s[..LineLength(s, mode)], mode)
    decreases |s|
  {
    if EolLength(s, mode) > 0 {
      EolIsLine(s, mode);
    } else {
      var k := LineLength(s, mode);
      LineEnds(s[1..], mode);
      PrefixTail(s, k);
      SuffixMore(s[..k], mode);
    }
  }

  lemma SuffixMore(p: Bytes, mode: LineEnding)
    requires p != [] && EndsWithEOL(p[1..], mode)
    ensures EndsWithEOL(p, mode)
  {
    EndsWithEOLByLast(p, mode);
    EndsWithEOLByLast(p[1..], mode);
  }

  /** Whether a text ends in a line end is decided by what follows its first line, if anything does. */
  lemma SuffixEnds(s: Bytes, k: nat, mode: LineEnding)
    requires s != [] && k == LineLength(s, mode) && k < |s|
    ensures EndsWithEOL(s, mode) <==> EndsWithEOL(s[k..], mode)
  {
    LineEnds(s, mode);
    EndsWithEOLByLast(s, mode);
    EndsWithEOLByLast(s[k..], mode);
    EndsWithEOLByLast(s[..k], mode);
    LastOfTail(s, k, mode);
  }

  lemma LastOfTail(s: Bytes, k: nat, mode: LineEnding)
    requires 0 < k < |s| && EolByLast(s[..k], mode)
    ensures EolByLast(s, mode) <==> EolByLast(s[k..], mode)
  {
    var t := s[k..];
    assert t[|t| - 1] == s[|s| - 1] && s[..k][k - 1] == s[k - 1];
    assert |t| > 1 ==> t[|t| - 2] == s[|s| - 2];
  }

  /** The as-is scan's parts are the lines up to start. */
  ghost predicate SplitUpTo(text: Bytes, parts: seq<Bytes>, start: nat)
    requires start <= |text|
  {
    Pieces(text, AsIs) == parts + Pieces(text[start..], AsIs)
  }

  /** The splitter: the as-is scan, or the library call on a normalised text. */
  method SplitAfterAnyEOL(text: Bytes, mode: LineEnding) returns (parts: seq<Bytes>)
    ensures parts == if mode != AsIs && EndsWithEOL(text, mode) then Pieces(text, mode) + [[]] else Pieces(text, mode)
  {
    if text == [] {
      return [];
    }
    if mode != AsIs {
      SplitAfterIsPieces(text, mode);
      return SplitAfter(text, Separator(mode));
    }
    parts := [];
    assert text[0..] == text;
    var start, i := 0, 0;
    while i < |text|
      invariant 0 <= start <= i <= |text|
      invariant SplitUpTo(text, parts, start)
      invariant forall j :: start <= j < i ==> !IsNewline(text[j])
    {
      if IsNewline(text[i]) {
        var j := i + 1;
        if j < |text| && IsPair(text[i], text[j]) {
          j := j + 1;
        }
        OneMoreLine(text, parts, start, i, j);
        parts := parts + [text[start..j]];
        start := j;
        i := j - 1;
      }
      i := i + 1;
    }
    SplitDone(text, parts, start);
    if start < |text| {
      parts := parts + [text[start..]];
    }
  }

  lemma SplitDone(text: Bytes, parts: seq<Bytes>, start: nat)
    requires start <= |text| && SplitUpTo(text, parts, start)
    requires forall k :: start <= k < |text| ==> !IsNewline(text[k])
    ensures Pieces(text, AsIs) == if start < |text| then parts + [text[start..]] else parts
  {
    if start < |text| {
      LastLineIs(text, start);
    }
  }

  lemma {:induction false} LineLengthIs(s: Bytes, i: nat)
    requires i < |s| && IsNewline(s[i]) && forall j :: 0 <= j < i ==> !IsNewline(s[j])
    ensures LineLength(s, AsIs) == i + EolLength(s[i..], AsIs)
    decreases i
  {
    if i > 0 {
      assert s[1..][i - 1..] == s[i..];
      LineLengthIs(s[1..], i - 1);
    } else {
      assert s[i..] == s;
    }
  }

  lemma LineIs(text: Bytes, start: nat, i: nat, j: nat)
    requires start <= i < j <= |text| && IsNewline(text[i]) && j == i + EolLength(text[i..], AsIs)
    requires forall k :: start <= k < i ==> !IsNewline(text[k])
    ensures Pieces(text[start..], AsIs) == [text[start..j]] + Pieces(text[j..], AsIs)
  {
    var rest := text[start..];
    assert LineLength(rest, AsIs) == j - start by {
      Slices(text, start, i);
      LineLengthIs(rest, i - start);
    }
    Slices(text, start, j);
  }

  lemma OneMoreLine(text: Bytes, parts: seq<Bytes>, start: nat, i: nat, j: nat)
    requires start <= i < j <= |text| && IsNewline(text[i])
    requires j == if i + 1 < |text| && IsPair(text[i], text[i + 1]) then i + 2 else i + 1
    requires forall k :: start <= k < i ==> !IsNewline(text[k])
    requires SplitUpTo(text, parts, start)
    ensures SplitUpTo(text, parts + [text[start..j]], j)
  {
    LineIs(text, start, i, j);
    Assoc(parts, [text[start..j]], Pieces(text[j..], AsIs));
  }

  lemma Slices(text: Bytes, start: nat, j: nat)
    requires start <= j <= |text|
    ensures text[start..][..j - start] == text[start..j] && text[start..][j - start..] == text[j..]
  {
  }

  lemma {:induction false} NoLineEnd(s: Bytes)
    requires s != [] && forall j :: 0 <= j < |s| ==> !IsNewline(s[j])
    ensures LineLength(s, AsIs) == |s|
    decreases |s|
  {
    if |s| > 1 {
      NoLineEnd(s[1..]);
    }
  }

  lemma LastLineIs(text: Bytes, start: nat)
    requires start < |text| && forall k :: start <= k < |text| ==> !IsNewline(text[k])
    ensures Pieces(text[start..], AsIs) == [text[start..]]
  {
    var rest := text[start..];
    NoLineEnd(rest);
    assert rest[..|rest|] == rest && rest[|rest|..] == [];
  }

  // ---------- the partition law ----------

  lemma {:induction false} PiecesConcat(s: Bytes, mode: LineEnding)
    ensures Concat(Pieces(s, mode)) == s
    decreases |s|
  {
    if s != [] {
      PiecesConcat(s[LineLength(s, mode)..], mode);
    }
  }

  predicate ClosedAt(p: Bytes, next: Bytes, n: nat) {
    && n < |p| && (forall i :: 0 <= i < n ==> !IsNewline(p[i])) && IsNewline(p[n])
    && (if |p| == n + 2 then IsPair(p[n], p[n + 1])
        else |p| == n + 1 && (next != [] ==> !IsPair(p[n], next[0])))
  }

  /** A line body without newline bytes, closed by one greedy end-of-line mark: the mark is a pair, or the
      byte that follows does not complete it to one. */
  ghost predicate ClosedLine(p: Bytes, next: Bytes) {
    exists n: nat :: ClosedAt(p, next, n)
  }

  predicate OpenLine(p: Bytes) {
    forall i :: 0 <= i < |p| ==> !IsNewline(p[i])
  }

  lemma {:induction false} FirstLineClosed(s: Bytes)
    requires s != []
    ensures var k := LineLength(s, AsIs);
            ClosedLine(s[..k], s[k..]) || (k == |s| && OpenLine(s))
    decreases |s|
  {
    var k := LineLength(s, AsIs);
    if EolLength(s, AsIs) > 0 {
      assert ClosedAt(s[..k], s[k..], 0);
    } else if |s| > 1 {
      var t := s[1..];
      FirstLineClosed(t);
      assert t[..k - 1] == s[..k][1..] && t[k - 1..] == s[k..];
      if ClosedLine(t[..k - 1], t[k - 1..]) {
        ClosedGrows(s[..k], s[k..]);
      }
    }
  }

  lemma ClosedGrows(p: Bytes, next: Bytes)
    requires p != [] && !IsNewline(p[0]) && ClosedLine(p[1..], next)
    ensures ClosedLine(p, next)
  {
    var n: nat :| ClosedAt(p[1..], next, n);
    assert forall i :: 0 <= i < |p[1..]| ==> p[i + 1] == p[1..][i];
    forall i | 0 <= i < n + 1
      ensures !IsNewline(p[i])
    {
      assert i > 0 ==> p[i] == p[1..][i - 1];
    }
    assert ClosedAt(p, next, n + 1);
  }

  lemma ClosedByFirst(p: Bytes, next: Bytes, next': Bytes)
    requires ClosedLine(p, next) && next != [] && next' != [] && next[0] == next'[0]
    ensures ClosedLine(p, next')
  {
    var n: nat :| ClosedAt(p, next, n);
    assert ClosedAt(p, next', n);
  }

  /** Every piece but the last is closed by one greedy end-of-line mark, the last is closed or open. */
  lemma {:induction false} PiecesClosed(s: Bytes, i: nat)
    requires i < |Pieces(s, AsIs)|
    ensures var ps := Pieces(s, AsIs);
            if i < |ps| - 1 then ClosedLine(ps[i], ps[i + 1]) else ClosedLine(ps[i], []) || OpenLine(ps[i])
    decreases |s|
  {
    var k := LineLength(s, AsIs);
    var ps, rest := Pieces(s, AsIs), Pieces(s[k..], AsIs);
    assert ps == [s[..k]] + rest;
    if i > 0 {
      PiecesClosed(s[k..], i - 1);
      assert ps[i] == rest[i - 1] && (i < |ps| - 1 ==> ps[i + 1] == rest[i]);
    } else {
      FirstLineClosed(s);
      if k < |s| {
        assert ps[1] == rest[0] && rest[0] != [] && rest[0][0] == s[k..][0];
        ClosedByFirst(s[..k], s[k..], rest[0]);
      } else {
        assert s[..k] == s && s[k..] == [];
      }
    }
  }

  lemma LastPiece(s: Bytes, mode: LineEnding, k: nat)
    requires s != [] && k == LineLength(s, mode)
    ensures var ps, rest := Pieces(s, mode), Pieces(s[k..], mode);
            ps != [] && ps[|ps| - 1] == if k < |s| then rest[|rest| - 1] else s
  {
    if k == |s| {
      WholeLine(s, mode);
    }
  }

  /** The text ends in a line end exactly when its last line does, in every mode. */
  lemma {:induction false} LastPieceEnds(s: Bytes, mode: LineEnding)
    requires s != []
    ensures var ps := Pieces(s, mode);
            EndsWithEOL(s, mode) <==> EndsWithEOL(ps[|ps| - 1], mode)
    decreases |s|
  {
    var k := LineLength(s, mode);
    LastPiece(s, mode, k);
    if k < |s| {
      LastPieceEnds(s[k..], mode);
      SuffixEnds(s, k, mode);
    }
  }

  /** The splitter's law in as-is mode: the pieces concatenate to the input; every piece but possibly the last
      is a body without newline bytes closed by one greedy end-of-line mark; and the text ends in a line end
      exactly when its last piece does. */
  lemma PiecesPartition(s: Bytes)
    ensures var ps := Pieces(s, AsIs);
            && Concat(ps) == s
            && (forall i :: 0 <= i < |ps| - 1 ==> ClosedLine(ps[i], ps[i + 1]))
            && (s != [] ==> ClosedLine(ps[|ps| - 1], []) || OpenLine(ps[|ps| - 1]))
            && (s != [] ==> (EndsWithEOL(s, AsIs) <==> EndsWithEOL(ps[|ps| - 1], AsIs)))
  {
    var ps := Pieces(s, AsIs);
    PiecesConcat(s, AsIs);
    forall i | 0 <= i < |ps| - 1
      ensures ClosedLine(ps[i], ps[i + 1])
    {
      PiecesClosed(s, i);
    }
    if s != [] {
      PiecesClosed(s, |ps| - 1);
      LastPieceEnds(s, AsIs);
    }
  }
}
