/** The console as its reader sees it: physical terminal lines, and who wrote on them. */
module ConsolePage {
  import opened Common
  import opened Normalize
  import opened Lines
  import opened Console
  import opened ConsoleChunks

  datatype Kind = RxLabel | RxText | TxLabel | TxText | Gap

  datatype Ink = Ink(kind: Kind, b: byte)

  type Row = seq<Ink>

  /** The finished physical lines, each with its end-of-line mark, and the line the cursor is on. */
  datatype Page = Page(rows: seq<Row>, cursor: Row)

  /** Writes one byte, or one of the mode's end-of-line marks, which ends the line. */
  function PutNext(p: Page, s: Bytes, kind: Kind, mode: LineEnding): Page
    requires s != []
  {
    var n := EolLength(s, mode);
    if n > 0 then Page(p.rows + [p.cursor + Inks(s[..n], kind)], []) else p.(cursor := p.cursor + [Ink(kind, s[0])])
  }

  function Put(p: Page, s: Bytes, kind: Kind, mode: LineEnding): Page
    decreases |s|
  {
    if s == [] then p else Put(PutNext(p, s, kind, mode), s[StepLength(s, mode)..], kind, mode)
  }

  function TextKind(source: Source): Kind {
    match source case FromRX => RxText case FromTX => TxText case Break => Gap
  }

  function Show(p: Page, e: Emit, mode: LineEnding): Page {
    Put(Put(p, e.prefix, if e.source == FromRX then RxLabel else TxLabel, mode), e.text, TextKind(e.source), mode)
  }

  function ShowAll(said: seq<Emit>, mode: LineEnding): Page
    decreases |said|
  {
    if said == [] then Page([], []) else Show(ShowAll(said[..|said| - 1], mode), said[|said| - 1], mode)
  }

  /** What a broker has said so far. */
  function PageOf(b: Broker, mode: LineEnding): Page {
    ShowAll(b.said, mode)
  }

  lemma ShowSay(b: Broker, e: Emit, mode: LineEnding)
    ensures PageOf(Say(b, e), mode) == Show(PageOf(b, mode), e, mode)
  {
    assert (b.said + [e])[..|b.said|] == b.said;
  }

  // ---------- clean rows ----------

  predicate IsRx(ink: Ink) {
    ink.kind == RxLabel || ink.kind == RxText
  }

  predicate NoRx(row: Row) {
    forall i :: 0 <= i < |row| ==> !IsRx(row[i])
  }

  function Inks(s: Bytes, kind: Kind): (r: Row)
    ensures |r| == |s| && forall i :: 0 <= i < |s| ==> r[i] == Ink(kind, s[i])
  {
    seq(|s|, i requires 0 <= i < |s| => Ink(kind, s[i]))
  }

  /** One label, at the start, then received text only. */
  predicate RxOpen(row: Row) {
    |row| >= 4 && forall i :: 0 <= i < |row| ==>
      if i < 4 then row[i] == Ink(RxLabel, "RX: "[i] as int) else row[i].kind == RxText
  }

  /** A row with received text on it: the label, received text, and an end-of-line mark from either side. */
  predicate RxRow(row: Row) {
    RxOpen(row) || exists k :: 0 <= k < |row| && EndedRx(row, k)
  }

  predicate EndedRx(row: Row, k: nat)
    requires k <= |row|
  {
    RxOpen(row[..k]) && forall i :: k <= i < |row| ==> row[i].kind == Gap
  }

  /** A clean row either has nothing received on it, or exactly one RX label, at its start, and otherwise
      nothing but received text. */
  predicate Clean(row: Row) {
    NoRx(row) || RxRow(row)
  }

  predicate CleanRows(p: Page) {
    forall i :: 0 <= i < |p.rows| ==> Clean(p.rows[i])
  }

  predicate CleanPage(p: Page) {
    CleanRows(p) && Clean(p.cursor)
  }

  // ---------- what writing does ----------

  lemma NoMarkAtText(s: Bytes, mode: LineEnding)
    requires s != [] && !IsNewline(s[0])
    ensures EolLength(s, mode) == 0
  {
  }

  lemma InksOneMore(row: Row, s: Bytes, kind: Kind)
    requires s != []
    ensures (row + [Ink(kind, s[0])]) + Inks(s[1..], kind) == row + Inks(s, kind)
  {
  }

  lemma {:induction false} PutText(p: Page, s: Bytes, kind: Kind, mode: LineEnding)
    requires forall i :: 0 <= i < |s| ==> !IsNewline(s[i])
    ensures Put(p, s, kind, mode) == Page(p.rows, p.cursor + Inks(s, kind))
    decreases |s|
  {
    if s == [] {
      assert p.cursor + Inks(s, kind) == p.cursor;
    } else {
      NoMarkAtText(s, mode);
      PutText(PutNext(p, s, kind, mode), s[1..], kind, mode);
      InksOneMore(p.cursor, s, kind);
    }
  }

  lemma PutLabel(p: Page, mode: LineEnding)
    requires p.cursor == []
    ensures Put(p, RX_LABEL, RxLabel, mode) == Page(p.rows, Inks(RX_LABEL, RxLabel)) && RxOpen(Inks(RX_LABEL, RxLabel))
  {
    PutText(p, RX_LABEL, RxLabel, mode);
    LabelIsOpen();
    OnFreeLine(Inks(RX_LABEL, RxLabel));
  }

  lemma LabelIsOpen()
    ensures RxOpen(Inks(RX_LABEL, RxLabel))
  {
    assert RX_LABEL == ['R' as int, 'X' as int, ':' as int, ' ' as int];
  }

  lemma OnFreeLine(row: Row)
    ensures [] + row == row
  {
  }

  lemma PutNextOther(p: Page, s: Bytes, kind: Kind, mode: LineEnding)
    requires CleanRows(p) && NoRx(p.cursor) && kind != RxLabel && kind != RxText && s != []
    ensures var q := PutNext(p, s, kind, mode);
            CleanRows(q) && NoRx(q.cursor) && (q.cursor == [] <==> EolLength(s, mode) > 0)
  {
    if EolLength(s, mode) > 0 {
      assert NoRx(p.cursor + Inks(s[..EolLength(s, mode)], kind));
    }
  }

  /** Anything but received text keeps a page clean on a row without received text, and leaves a free line exactly if
      it ends in a line end. */
  lemma {:induction false} PutOther(p: Page, s: Bytes, kind: Kind, mode: LineEnding)
    requires CleanRows(p) && NoRx(p.cursor) && kind != RxLabel && kind != RxText
    ensures var q := Put(p, s, kind, mode);
            CleanRows(q) && NoRx(q.cursor) && (q.cursor == [] <==> EndsAtStart(s, p.cursor == [], mode))
    decreases |s|
  {
    if s != [] {
      PutNextOther(p, s, kind, mode);
      PutOther(PutNext(p, s, kind, mode), s[StepLength(s, mode)..], kind, mode);
    }
  }

  /** A line of text, its end-of-line mark last if it has one. */
  predicate IsLine(s: Bytes, mode: LineEnding) {
    s != [] && LineLength(s, mode) == |s|
  }

  lemma RxEnds(row: Row, s: Bytes)
    requires RxOpen(row)
    ensures RxOpen(row + Inks(s, RxText))
  {
  }

  lemma {:induction false} PutLine(p: Page, s: Bytes, mode: LineEnding)
    requires CleanRows(p) && RxOpen(p.cursor) && IsLine(s, mode)
    ensures var q := Put(p, s, RxText, mode);
            CleanRows(q) && if EndsAtStart(s, false, mode) then q.cursor == [] else RxOpen(q.cursor)
    decreases |s|
  {
    var n, rest := EolLength(s, mode), s[StepLength(s, mode)..];
    assert EndsAtStart(s, false, mode) == EndsAtStart(rest, n > 0, mode);
    if n > 0 {
      RxEnds(p.cursor, s[..n]);
      assert rest == [];
    } else {
      RxEnds(p.cursor, [s[0]]);
      assert Inks([s[0]], RxText) == [Ink(RxText, s[0])];
      if rest != [] {
        PutLine(PutNext(p, s, RxText, mode), rest, mode);
      }
    }
  }

  /** The broker's line break is one end-of-line mark of the mode. */
  lemma BreakIsMark(mode: LineEnding)
    ensures LineSep(mode) != [] && EolLength(LineSep(mode), mode) == |LineSep(mode)|
  {
  }

  lemma PutBreak(p: Page, mode: LineEnding)
    requires CleanRows(p) && (NoRx(p.cursor) || RxOpen(p.cursor))
    ensures var q := Put(p, LineSep(mode), Gap, mode);
            CleanRows(q) && q.cursor == []
  {
    var sep := LineSep(mode);
    BreakIsMark(mode);
    assert sep[|sep|..] == [] && sep[..|sep|] == sep;
    var row := p.cursor + Inks(sep, Gap);
    if RxOpen(p.cursor) {
      assert row[..|p.cursor|] == p.cursor;
      assert EndedRx(row, |p.cursor|);
    } else {
      assert NoRx(row);
    }
  }

  // ---------- the invariant ----------

  predicate Closes(tx: Tx, opt: Options) {
    tx.origin == System || Normalized(tx.data, opt) == [] || EndsWithEOL(Normalized(tx.data, opt), opt.lineEnding)
  }

  predicate IsTx(ink: Ink) {
    ink.kind == TxLabel || ink.kind == TxText
  }

  /** The line of an echo that has no end yet. */
  predicate TxRow(row: Row) {
    row != [] && IsTx(row[0]) && NoRx(row)
  }

  /** The rows are clean and the broker's idea of the cursor is right; if stranded it is wrong in one way: the broker
      takes the line for free, but a released echo is still on it. */
  predicate Inv(b: Broker, stranded: bool, mode: LineEnding) {
    var p := PageOf(b, mode);
    CleanRows(p) &&
    if stranded then b.rxAtLineEnd && !b.txLineActive && b.pending == None && TxRow(p.cursor)
    else
      && (if !b.rxAtLineEnd then RxOpen(p.cursor) && !b.txLineActive
          else if b.txLineActive then NoRx(p.cursor) && b.pending == None
          else p.cursor == [])
      && (b.pending.Some? ==> !b.rxAtLineEnd)
  }

  predicate ClearOfRx(b: Broker, mode: LineEnding) {
    CleanRows(PageOf(b, mode)) && NoRx(PageOf(b, mode).cursor)
  }

  /** The same for a broker that knows whether an echo is on the line. */
  predicate OnTxSide(b: Broker, mode: LineEnding) {
    ClearOfRx(b, mode) && (!b.txLineActive ==> PageOf(b, mode).cursor == [])
  }

  lemma SayBreak(b: Broker, opt: Options)
    requires var p := PageOf(b, opt.lineEnding); CleanRows(p) && (NoRx(p.cursor) || RxOpen(p.cursor))
    ensures var p := PageOf(Say(b, BreakLine(opt)), opt.lineEnding);
            CleanRows(p) && p.cursor == []
  {
    ShowSay(b, BreakLine(opt), opt.lineEnding);
    PutBreak(PageOf(b, opt.lineEnding), opt.lineEnding);
  }

  lemma SayEcho(b: Broker, prefix: Bytes, text: Bytes, mode: LineEnding)
    requires ClearOfRx(b, mode) && text != []
    ensures var p := PageOf(Say(b, Emit(FromTX, prefix, text)), mode);
            CleanRows(p) && NoRx(p.cursor) && (p.cursor == [] <==> EndsWithEOL(text, mode))
  {
    var p := PageOf(b, mode);
    ShowSay(b, Emit(FromTX, prefix, text), mode);
    PutOther(p, prefix, TxLabel, mode);
    var q := Put(p, prefix, TxLabel, mode);
    PutOther(q, text, TxText, mode);
    EndsAtStartIs(text, q.cursor == [], mode);
  }

  lemma SayTxStaysClean(b: Broker, tx: Tx, text: Bytes, opt: Options)
    requires ClearOfRx(b, opt.lineEnding) && text != []
    ensures var b' := SayTx(b, tx, text, opt);
            && ClearOfRx(b', opt.lineEnding)
            && (EndsWithEOL(text, opt.lineEnding) ==> PageOf(b', opt.lineEnding).cursor == [])
            && b'.txLineActive && b'.pending == b.pending && (!b.txLineActive || b.rxAtLineEnd ==> b'.rxAtLineEnd)
  {
    var b1 := if !b.rxAtLineEnd && !b.txLineActive then Say(b, BreakLine(opt)).(rxAtLineEnd := true) else b;
    var prefix := if b.txLineActive then [] else if tx.origin == System then TX_SYSTEM_LABEL else TX_LABEL;
    SayBreak(b, opt);
    SayEcho(b1, prefix, text, opt.lineEnding);
  }

  lemma CloseTxStaysClean(b: Broker, tx: Tx, text: Bytes, opt: Options)
    requires ClearOfRx(b, opt.lineEnding) && b.txLineActive
    requires EndsWithEOL(text, opt.lineEnding) ==> PageOf(b, opt.lineEnding).cursor == []
    ensures var b' := CloseTx(b, tx, text, opt);
            && OnTxSide(b', opt.lineEnding) && b'.pending == b.pending && b'.rxAtLineEnd == b.rxAtLineEnd
            && (tx.origin == System || EndsWithEOL(text, opt.lineEnding) ==> !b'.txLineActive)
  {
    SayBreak(b, opt);
  }

  lemma EchoStaysClean(b: Broker, tx: Tx, opt: Options)
    requires ClearOfRx(b, opt.lineEnding) && Normalized(tx.data, opt) != []
    ensures var b' := EmitTx(b, tx, opt);
            && OnTxSide(b', opt.lineEnding) && b'.pending == b.pending && (b.rxAtLineEnd ==> b'.rxAtLineEnd)
            && (Closes(tx, opt) ==> !b'.txLineActive)
  {
    var text := Normalized(tx.data, opt);
    SayTxStaysClean(b, tx, text, opt);
    CloseTxStaysClean(SayTx(b, tx, text, opt), tx, text, opt);
  }

  lemma {:induction false} PutTxText(p: Page, s: Bytes, kind: Kind, mode: LineEnding)
    requires (kind == TxLabel || kind == TxText) && (p.cursor == [] || IsTx(p.cursor[0]))
    ensures var q := Put(p, s, kind, mode); q.cursor == [] || IsTx(q.cursor[0])
    decreases |s|
  {
    if s != [] {
      PutTxText(PutNext(p, s, kind, mode), s[StepLength(s, mode)..], kind, mode);
    }
  }

  /** An echo that does not close its line is still on it. */
  lemma OpenEchoOnCursor(b: Broker, tx: Tx, opt: Options)
    requires OnTxSide(b, opt.lineEnding) && !b.txLineActive && !Closes(tx, opt)
    ensures TxRow(PageOf(EmitTx(b, tx, opt), opt.lineEnding).cursor)
  {
    var text, mode := Normalized(tx.data, opt), opt.lineEnding;
    var b1 := if !b.rxAtLineEnd then Say(b, BreakLine(opt)).(rxAtLineEnd := true) else b;
    SayBreak(b, opt);
    ShowSay(b1, Emit(FromTX, TX_LABEL, text), mode);
    SayEcho(b1, TX_LABEL, text, mode);
    PutTxText(PageOf(b1, mode), TX_LABEL, TxLabel, mode);
    PutTxText(Put(PageOf(b1, mode), TX_LABEL, TxLabel, mode), text, TxText, mode);
  }

  /** A released echo leaves a free line exactly if it closes it. */
  lemma FlushLeaves(b: Broker, tx: Tx, opt: Options)
    requires OnTxSide(b, opt.lineEnding) && !b.txLineActive && b.pending == Some(tx)
    ensures var b' := Flush(b, opt);
            var p := PageOf(b', opt.lineEnding);
            && CleanRows(p) && !b'.txLineActive && b'.pending == None && (b.rxAtLineEnd ==> b'.rxAtLineEnd)
            && if Closes(tx, opt) then p.cursor == [] else TxRow(p.cursor)
  {
    if Normalized(tx.data, opt) != [] {
      EchoStaysClean(b, tx, opt);
      if !Closes(tx, opt) {
        OpenEchoOnCursor(b, tx, opt);
      }
    }
  }

  lemma SayLineStaysClean(b: Broker, line: Bytes, mode: LineEnding)
    requires IsLine(line, mode) && CleanRows(PageOf(b, mode))
    requires if b.rxAtLineEnd then PageOf(b, mode).cursor == [] else RxOpen(PageOf(b, mode).cursor)
    ensures var p := PageOf(Say(b, Emit(FromRX, if b.rxAtLineEnd then RX_LABEL else [], line)), mode);
            CleanRows(p) && if EndsWithEOL(line, mode) then p.cursor == [] else RxOpen(p.cursor)
  {
    var p := PageOf(b, mode);
    ShowSay(b, Emit(FromRX, if b.rxAtLineEnd then RX_LABEL else [], line), mode);
    EndsAtStartIs(line, false, mode);
    if b.rxAtLineEnd {
      PutLabel(p, mode);
      PutLine(Page(p.rows, Inks(RX_LABEL, RxLabel)), line, mode);
    } else {
      PutLine(p, line, mode);
    }
  }

  /** No transmitted text on the current line, which is the broker's idea of it. */
  predicate OnRxSide(b: Broker, mode: LineEnding) {
    && CleanRows(PageOf(b, mode)) && !b.txLineActive
    && if b.rxAtLineEnd then PageOf(b, mode).cursor == [] else RxOpen(PageOf(b, mode).cursor)
  }

  lemma {:induction false} SayLinesStaysClean(b: Broker, lines: seq<Bytes>, mode: LineEnding)
    requires (forall s :: s in lines ==> IsLine(s, mode)) && OnRxSide(b, mode)
    ensures OnRxSide(SayLines(b, lines, mode), mode) && SayLines(b, lines, mode).pending == b.pending
    decreases |lines|
  {
    if lines != [] {
      assert lines[0] in lines && forall s :: s in lines[1..] ==> s in lines;
      SayLineStaysClean(b, lines[0], mode);
      var b1 := Say(b, Emit(FromRX, if b.rxAtLineEnd then RX_LABEL else [], lines[0]));
      SayLinesStaysClean(b1.(rxAtLineEnd := EndsWithEOL(lines[0], mode)), lines[1..], mode);
    }
  }

  lemma {:induction false} FirstLineIsLine(s: Bytes, mode: LineEnding)
    requires s != []
    ensures IsLine(s[..LineLength(s, mode)], mode)
    decreases |s|
  {
    var k := LineLength(s, mode);
    var line := s[..k];
    if EolLength(s, mode) > 0 {
      assert EolLength(line, mode) == EolLength(s, mode);
    } else if |s| > 1 {
      FirstLineIsLine(s[1..], mode);
      PrefixTail(s, k);
      assert line[0] == s[0] && line[1] == s[1];
      assert EolLength(line, mode) == 0;
    }
  }

  lemma {:induction false} PiecesAreLines(s: Bytes, mode: LineEnding)
    ensures forall p :: p in Pieces(s, mode) ==> IsLine(p, mode)
    decreases |s|
  {
    if s != [] {
      FirstLineIsLine(s, mode);
      PiecesAreLines(s[LineLength(s, mode)..], mode);
    }
  }

  // ---------- events ----------

  datatype Event = Receive(data: Bytes) | Echo(tx: Tx) | Quiet

  function Step(b: Broker, e: Event, opt: Options): Broker {
    match e
    case Receive(data) => RxStep(b, data, opt)
    case Echo(tx) => TxStep(b, tx, opt)
    case Quiet => QuietStep(b, opt)
  }

  function TextOf(e: Event, opt: Options): Bytes {
    match e
    case Receive(data) => Normalized(data, opt)
    case Echo(tx) => Normalized(tx.data, opt)
    case Quiet => []
  }

  /** The held-back echo that an event releases. */
  function Released(b: Broker, e: Event, opt: Options): Option<Tx> {
    if b.pending.Some? && Step(b, e, opt).pending.None? then b.pending else None
  }

  /** Whether the last text shown is a released echo that does not close its line. */
  predicate StrandedAfter(b: Broker, stranded: bool, e: Event, opt: Options) {
    match Released(b, e, opt)
    case Some(tx) => !Closes(tx, opt)
    case None => stranded && TextOf(e, opt) == []
  }

  lemma FlushKeepsInv(b: Broker, opt: Options)
    requires OnRxSide(b, opt.lineEnding) && b.rxAtLineEnd
    ensures Inv(Flush(b, opt), b.pending.Some? && !Closes(b.pending.value, opt), opt.lineEnding)
    ensures Flush(b, opt).pending == None
  {
    if b.pending.Some? {
      FlushLeaves(b, b.pending.value, opt);
    }
  }

  lemma SayRxKeepsInv(b: Broker, data: Bytes, opt: Options)
    requires OnRxSide(b, opt.lineEnding) && (b.pending.Some? ==> !b.rxAtLineEnd)
    ensures var b' := SayRx(b, data, opt);
            && (b'.pending.Some? ==> b'.pending == b.pending)
            && Inv(b', b.pending.Some? && b'.pending.None? && !Closes(b.pending.value, opt), opt.lineEnding)
  {
    var text, mode := Normalized(data, opt), opt.lineEnding;
    var b' := SayLines(b, Pieces(text, mode), mode);
    PiecesAreLines(text, mode);
    SayLinesStaysClean(b, Pieces(text, mode), mode);
    if text != [] && b'.rxAtLineEnd {
      FlushKeepsInv(b', opt);
    }
  }

  lemma ReceiveKeepsInv(b: Broker, data: Bytes, opt: Options)
    requires Inv(b, false, opt.lineEnding)
    ensures Inv(RxStep(b, data, opt), StrandedAfter(b, false, Receive(data), opt), opt.lineEnding)
  {
    if data != [] {
      SayBreak(b, opt);
      SayRxKeepsInv(BreakTx(b, opt), data, opt);
    }
  }

  lemma EchoKeepsInv(b: Broker, stranded: bool, tx: Tx, opt: Options)
    requires Inv(b, stranded, opt.lineEnding)
    ensures Inv(TxStep(b, tx, opt), StrandedAfter(b, stranded, Echo(tx), opt), opt.lineEnding)
  {
    if b.rxAtLineEnd && b.pending.None? && Normalized(tx.data, opt) != [] {
      EchoStaysClean(b, tx, opt);
    }
  }

  lemma QuietKeepsInv(b: Broker, stranded: bool, opt: Options)
    requires Inv(b, stranded, opt.lineEnding)
    ensures Inv(QuietStep(b, opt), StrandedAfter(b, stranded, Quiet, opt), opt.lineEnding)
  {
    if b.pending.Some? {
      SayBreak(b, opt);
      FlushLeaves(Say(b, BreakLine(opt)), b.pending.value, opt);
    }
  }

  /** Every event but text received onto a stranded echo keeps the page clean. */
  lemma StepKeepsInv(b: Broker, stranded: bool, e: Event, opt: Options)
    requires Inv(b, stranded, opt.lineEnding) && !(stranded && e.Receive? && TextOf(e, opt) != [])
    ensures Inv(Step(b, e, opt), StrandedAfter(b, stranded, e, opt), opt.lineEnding)
  {
    match e
    case Receive(data) =>
      if !stranded {
        ReceiveKeepsInv(b, data, opt);
      }
    case Echo(tx) => EchoKeepsInv(b, stranded, tx, opt);
    case Quiet => QuietKeepsInv(b, stranded, opt);
  }

  // ---------- mixed rows ----------

  predicate Mixed(row: Row) {
    row != [] && IsTx(row[0]) && exists i :: 0 <= i < |row| && IsRx(row[i])
  }

  predicate HasMixed(p: Page) {
    Mixed(p.cursor) || exists i :: 0 <= i < |p.rows| && Mixed(p.rows[i])
  }

  lemma MixedIsNotClean(p: Page)
    requires HasMixed(p)
    ensures !CleanPage(p)
  {
    forall row: Row | Mixed(row)
      ensures !Clean(row)
    {
    }
  }

  lemma MixedGrows(row: Row, more: Row)
    requires Mixed(row)
    ensures Mixed(row + more)
  {
    var i :| 0 <= i < |row| && IsRx(row[i]);
    assert (row + more)[i] == row[i];
  }

  lemma PutNextKeepsMixed(p: Page, s: Bytes, kind: Kind, mode: LineEnding)
    requires HasMixed(p) && s != []
    ensures HasMixed(PutNext(p, s, kind, mode))
  {
    var q, n := PutNext(p, s, kind, mode), EolLength(s, mode);
    if Mixed(p.cursor) {
      MixedGrows(p.cursor, if n > 0 then Inks(s[..n], kind) else [Ink(kind, s[0])]);
      assert n > 0 ==> q.rows[|p.rows|] == p.cursor + Inks(s[..n], kind);
    } else {
      var i :| 0 <= i < |p.rows| && Mixed(p.rows[i]);
      assert q.rows[i] == p.rows[i];
    }
  }

  lemma {:induction false} PutKeepsMixed(p: Page, s: Bytes, kind: Kind, mode: LineEnding)
    requires HasMixed(p)
    ensures HasMixed(Put(p, s, kind, mode))
    decreases |s|
  {
    if s != [] {
      PutNextKeepsMixed(p, s, kind, mode);
      PutKeepsMixed(PutNext(p, s, kind, mode), s[StepLength(s, mode)..], kind, mode);
    }
  }

  lemma SayKeepsMixed(b: Broker, e: Emit, mode: LineEnding)
    requires HasMixed(PageOf(b, mode))
    ensures HasMixed(PageOf(Say(b, e), mode))
  {
    ShowSay(b, e, mode);
    var kind := if e.source == FromRX then RxLabel else TxLabel;
    PutKeepsMixed(PageOf(b, mode), e.prefix, kind, mode);
    PutKeepsMixed(Put(PageOf(b, mode), e.prefix, kind, mode), e.text, TextKind(e.source), mode);
  }

  lemma {:induction false} SayLinesKeepsMixed(b: Broker, lines: seq<Bytes>, mode: LineEnding)
    requires HasMixed(PageOf(b, mode))
    ensures HasMixed(PageOf(SayLines(b, lines, mode), mode))
    decreases |lines|
  {
    if lines != [] {
      var e := Emit(FromRX, if b.rxAtLineEnd then RX_LABEL else [], lines[0]);
      SayKeepsMixed(b, e, mode);
      SayLinesKeepsMixed(Say(b, e).(rxAtLineEnd := EndsWithEOL(lines[0], mode)), lines[1..], mode);
    }
  }

  lemma SayTxKeepsMixed(b: Broker, tx: Tx, text: Bytes, opt: Options)
    requires HasMixed(PageOf(b, opt.lineEnding))
    ensures HasMixed(PageOf(SayTx(b, tx, text, opt), opt.lineEnding))
  {
    var prefix := if b.txLineActive then [] else if tx.origin == System then TX_SYSTEM_LABEL else TX_LABEL;
    if !b.rxAtLineEnd && !b.txLineActive {
      SayKeepsMixed(b, BreakLine(opt), opt.lineEnding);
      SayKeepsMixed(Say(b, BreakLine(opt)).(rxAtLineEnd := true), Emit(FromTX, prefix, text), opt.lineEnding);
    } else {
      SayKeepsMixed(b, Emit(FromTX, prefix, text), opt.lineEnding);
    }
  }

  lemma CloseTxKeepsMixed(b: Broker, tx: Tx, text: Bytes, opt: Options)
    requires HasMixed(PageOf(b, opt.lineEnding))
    ensures HasMixed(PageOf(CloseTx(b, tx, text, opt), opt.lineEnding))
  {
    if tx.origin == System && !EndsWithEOL(text, opt.lineEnding) {
      SayKeepsMixed(b, BreakLine(opt), opt.lineEnding);
    }
  }

  lemma EmitTxKeepsMixed(b: Broker, tx: Tx, opt: Options)
    requires HasMixed(PageOf(b, opt.lineEnding))
    ensures HasMixed(PageOf(EmitTx(b, tx, opt), opt.lineEnding))
  {
    var text := Normalized(tx.data, opt);
    if text != [] {
      SayTxKeepsMixed(b, tx, text, opt);
      CloseTxKeepsMixed(SayTx(b, tx, text, opt), tx, text, opt);
    }
  }

  lemma FlushKeepsMixed(b: Broker, opt: Options)
    requires HasMixed(PageOf(b, opt.lineEnding))
    ensures HasMixed(PageOf(Flush(b, opt), opt.lineEnding))
  {
    if b.pending.Some? {
      EmitTxKeepsMixed(b, b.pending.value, opt);
    }
  }

  /** A mixed row stays on the page. */
  lemma StepKeepsMixed(b: Broker, e: Event, opt: Options)
    requires HasMixed(PageOf(b, opt.lineEnding))
    ensures HasMixed(PageOf(Step(b, e, opt), opt.lineEnding))
  {
    SayKeepsMixed(b, BreakLine(opt), opt.lineEnding);
    match e
    case Receive(data) =>
      var b1, pieces := BreakTx(b, opt), Pieces(Normalized(data, opt), opt.lineEnding);
      SayLinesKeepsMixed(b1, pieces, opt.lineEnding);
      FlushKeepsMixed(SayLines(b1, pieces, opt.lineEnding), opt);
    case Echo(tx) => EmitTxKeepsMixed(b, tx, opt);
    case Quiet => FlushKeepsMixed(Say(b, BreakLine(opt)), opt);
  }

  lemma LabelGlues(p: Page, text: Bytes, mode: LineEnding)
    requires TxRow(p.cursor)
    ensures HasMixed(Put(Put(p, RX_LABEL, RxLabel, mode), text, RxText, mode))
  {
    PutText(p, RX_LABEL, RxLabel, mode);
    var glued := p.cursor + Inks(RX_LABEL, RxLabel);
    assert IsRx(glued[|p.cursor|]) && Mixed(glued);
    PutKeepsMixed(Page(p.rows, glued), text, RxText, mode);
  }

  lemma LinesGluedToTxRow(b: Broker, lines: seq<Bytes>, mode: LineEnding)
    requires b.rxAtLineEnd && lines != [] && TxRow(PageOf(b, mode).cursor)
    ensures HasMixed(PageOf(SayLines(b, lines, mode), mode))
  {
    var e := Emit(FromRX, RX_LABEL, lines[0]);
    ShowSay(b, e, mode);
    LabelGlues(PageOf(b, mode), lines[0], mode);
    SayLinesKeepsMixed(Say(b, e).(rxAtLineEnd := EndsWithEOL(lines[0], mode)), lines[1..], mode);
  }

  /** Text received onto a stranded echo is glued to its line. */
  lemma ReceiveGlues(b: Broker, data: Bytes, opt: Options)
    requires Inv(b, true, opt.lineEnding) && Normalized(data, opt) != []
    ensures HasMixed(PageOf(RxStep(b, data, opt), opt.lineEnding))
  {
    var pieces := Pieces(Normalized(data, opt), opt.lineEnding);
    LinesGluedToTxRow(b, pieces, opt.lineEnding);
    FlushKeepsMixed(SayLines(b, pieces, opt.lineEnding), opt);
  }

  // ---------- whole runs ----------

  function Run(b: Broker, events: seq<Event>, opt: Options): Broker
    decreases |events|
  {
    if events == [] then b else Run(Step(b, events[0], opt), events[1..], opt)
  }

  /** Somewhere in the run text is received while the last text shown is a released echo that does not close its line. */
  predicate Glues(b: Broker, stranded: bool, events: seq<Event>, opt: Options)
    decreases |events|
  {
    events != [] &&
    (|| (stranded && events[0].Receive? && TextOf(events[0], opt) != [])
     || Glues(Step(b, events[0], opt), StrandedAfter(b, stranded, events[0], opt), events[1..], opt))
  }

  const START: Broker := Broker(true, false, None, [])

  lemma {:induction false} RunKeepsMixed(b: Broker, events: seq<Event>, opt: Options)
    requires HasMixed(PageOf(b, opt.lineEnding))
    ensures HasMixed(PageOf(Run(b, events, opt), opt.lineEnding))
    decreases |events|
  {
    if events != [] {
      StepKeepsMixed(b, events[0], opt);
      RunKeepsMixed(Step(b, events[0], opt), events[1..], opt);
    }
  }

  lemma {:induction false} RunCleanIff(b: Broker, stranded: bool, events: seq<Event>, opt: Options)
    requires Inv(b, stranded, opt.lineEnding)
    ensures CleanPage(PageOf(Run(b, events, opt), opt.lineEnding)) <==> !Glues(b, stranded, events, opt)
    decreases |events|
  {
    if events != [] {
      var e := events[0];
      if stranded && e.Receive? && TextOf(e, opt) != [] {
        ReceiveGlues(b, e.data, opt);
        RunKeepsMixed(Step(b, e, opt), events[1..], opt);
        MixedIsNotClean(PageOf(Run(b, events, opt), opt.lineEnding));
      } else {
        StepKeepsInv(b, stranded, e, opt);
        RunCleanIff(Step(b, e, opt), StrandedAfter(b, stranded, e, opt), events[1..], opt);
      }
    }
  }

  /** When lines mix: in every line-ending mode, for any sequence of received chunks, echoes and quiet timeouts, the page
      is clean (no physical line holds both received and transmitted text, and each line of received text carries exactly
      one RX label, at its start) exactly if every released echo that received text follows closes its line. */
  lemma CleanIffNothingGlued(events: seq<Event>, opt: Options)
    ensures CleanPage(PageOf(Run(START, events, opt), opt.lineEnding)) <==> !Glues(START, false, events, opt)
  {
    RunCleanIff(START, false, events, opt);
  }

  /** Every echo that has to wait for a received line ends in a line end. */
  predicate QueuedEchoesClose(b: Broker, events: seq<Event>, opt: Options)
    decreases |events|
  {
    events == [] ||
    ((events[0].Echo? && !b.rxAtLineEnd ==> Closes(events[0].tx, opt))
     && QueuedEchoesClose(Step(b, events[0], opt), events[1..], opt))
  }

  lemma {:induction false} ClosedEchoesNeverGlue(b: Broker, events: seq<Event>, opt: Options)
    requires Inv(b, false, opt.lineEnding) && QueuedEchoesClose(b, events, opt)
    requires b.pending.Some? ==> Closes(b.pending.value, opt)
    ensures !Glues(b, false, events, opt)
    decreases |events|
  {
    if events != [] {
      var e := events[0];
      StepKeepsInv(b, false, e, opt);
      StepKeepsPending(b, e, opt);
      ClosedEchoesNeverGlue(Step(b, e, opt), events[1..], opt);
    }
  }

  lemma {:induction false} PendingStays(b: Broker, lines: seq<Bytes>, mode: LineEnding)
    ensures SayLines(b, lines, mode).pending == b.pending
    decreases |lines|
  {
    if lines != [] {
      var e := Emit(FromRX, if b.rxAtLineEnd then RX_LABEL else [], lines[0]);
      PendingStays(Say(b, e).(rxAtLineEnd := EndsWithEOL(lines[0], mode)), lines[1..], mode);
    }
  }

  /** What is held back is what was, or the echo just asked for while a received line is open. */
  lemma StepKeepsPending(b: Broker, e: Event, opt: Options)
    requires b.pending.Some? ==> !b.rxAtLineEnd
    ensures var now := Step(b, e, opt).pending;
            now == b.pending || now == None || (e.Echo? && now == Some(e.tx) && !b.rxAtLineEnd)
  {
    if e.Receive? {
      PendingStays(BreakTx(b, opt), Pieces(Normalized(e.data, opt), opt.lineEnding), opt.lineEnding);
    }
  }

  /** No mixed lines: in every line-ending mode, for any sequence of received chunks, echoes and quiet timeouts in which
      every echo that has to wait ends in a line end, no physical line holds both received and transmitted text,
      and each line of received text carries exactly one RX label, at its start. */
  lemma NoMixedLines(events: seq<Event>, opt: Options)
    requires QueuedEchoesClose(START, events, opt)
    ensures CleanPage(PageOf(Run(START, events, opt), opt.lineEnding))
  {
    ClosedEchoesNeverGlue(START, events, opt);
    CleanIffNothingGlued(events, opt);
  }

  // ---------- one held-back echo ----------

  lemma {:induction false} RunInv(b: Broker, stranded: bool, events: seq<Event>, opt: Options)
    requires Inv(b, stranded, opt.lineEnding) && !Glues(b, stranded, events, opt)
    ensures Inv(Run(b, events, opt), true, opt.lineEnding) || Inv(Run(b, events, opt), false, opt.lineEnding)
    decreases |events|
  {
    if events != [] {
      StepKeepsInv(b, stranded, events[0], opt);
      RunInv(Step(b, events[0], opt), StrandedAfter(b, stranded, events[0], opt), events[1..], opt);
    }
  }

  predicate EndsLine(chunk: Bytes, opt: Options) {
    Normalized(chunk, opt) != [] && EndsWithEOL(Normalized(chunk, opt), opt.lineEnding)
  }

  lemma {:induction false} SayLinesEnds(b: Broker, lines: seq<Bytes>, mode: LineEnding)
    requires lines != []
    ensures var b' := SayLines(b, lines, mode);
            b'.pending == b.pending && (b'.rxAtLineEnd <==> EndsWithEOL(lines[|lines| - 1], mode))
    decreases |lines|
  {
    var b1 := Say(b, Emit(FromRX, if b.rxAtLineEnd then RX_LABEL else [], lines[0]));
    if |lines| > 1 {
      SayLinesEnds(b1.(rxAtLineEnd := EndsWithEOL(lines[0], mode)), lines[1..], mode);
    }
  }

  /** A waiting echo is released exactly by a chunk whose text ends the open line. */
  lemma LineEndReleases(b: Broker, chunk: Bytes, opt: Options)
    requires b.pending.Some?
    ensures RxStep(b, chunk, opt).pending == None <==> EndsLine(chunk, opt)
  {
    var text, mode := Normalized(chunk, opt), opt.lineEnding;
    if text != [] {
      LastPieceEnds(text, mode);
      SayLinesEnds(BreakTx(b, opt), Pieces(text, mode), mode);
    }
  }

  lemma TwoChunks(b: Broker, chunk: Bytes, more: Bytes, opt: Options)
    requires Normalized(more, opt) != []
    ensures var two := [Receive(chunk)] + [Receive(more)];
            && Run(b, two, opt) == RxStep(RxStep(b, chunk, opt), more, opt)
            && (Glues(b, false, two, opt) <==> StrandedAfter(b, false, Receive(chunk), opt))
  {
    var two, b1 := [Receive(chunk)] + [Receive(more)], Step(b, Receive(chunk), opt);
    assert two[0] == Receive(chunk) && two[1..] == [Receive(more)] && [Receive(more)][1..] == [];
    assert Run(b, two, opt) == Run(b1, [Receive(more)], opt) == Run(Step(b1, Receive(more), opt), [], opt);
    assert Glues(b, false, two, opt) <==>
           Glues(b1, StrandedAfter(b, false, Receive(chunk), opt), [Receive(more)], opt);
  }

  lemma EchoThenText(b: Broker, tx: Tx, chunk: Bytes, more: Bytes, opt: Options)
    requires Inv(b, false, opt.lineEnding) && b.pending == Some(tx)
    requires EndsLine(chunk, opt) && Normalized(more, opt) != []
    ensures CleanPage(PageOf(RxStep(RxStep(b, chunk, opt), more, opt), opt.lineEnding)) <==> Closes(tx, opt)
  {
    LineEndReleases(b, chunk, opt);
    TwoChunks(b, chunk, more, opt);
    RunCleanIff(b, false, [Receive(chunk)] + [Receive(more)], opt);
  }

  /** After any run with a clean page that left an echo waiting, let a chunk come that ends the open line, and then more
      text: the page is still clean exactly if the echo ends in a line end, is a system message, or is empty. */
  lemma QueuedEchoCleanIff(before: seq<Event>, tx: Tx, chunk: Bytes, more: Bytes, opt: Options)
    requires EndsLine(chunk, opt) && Normalized(more, opt) != []
    requires var b := Run(START, before, opt); CleanPage(PageOf(b, opt.lineEnding)) && b.pending == Some(tx)
    ensures var b := RxStep(RxStep(Run(START, before, opt), chunk, opt), more, opt);
            CleanPage(PageOf(b, opt.lineEnding)) <==> Closes(tx, opt)
  {
    CleanIffNothingGlued(before, opt);
    RunInv(START, false, before, opt);
    EchoThenText(Run(START, before, opt), tx, chunk, more, opt);
  }

  // ---------- the failing run ----------

  lemma {:induction false} PlainByte(x: byte, opt: Options)
    requires Plain(x)
    ensures Normalized([x], opt) == [x] && Pieces([x], opt.lineEnding) == [[x]] && !EndsWithEOL([x], opt.lineEnding)
  {
    assert TokenLength([x], opt) == 1 && [x][..1] == [x] && [x][1..] == [];
    assert LineLength([x], opt.lineEnding) == 1;
    EndsWithEOLByLast([x], opt.lineEnding);
  }

  /** A line feed ends the line, as whatever mark and behind whatever tag it is shown. */
  lemma {:induction false} LineFeedEnds(opt: Options)
    ensures EndsLine([LF], opt)
  {
    var tag := if opt.showNLTag then NewlineTag([LF]) else [];
    var mark := NewlineAs([LF], opt.lineEnding);
    assert TokenLength([LF], opt) == 1 && [LF][..1] == [LF] && [LF][1..] == [];
    assert Normalized([LF], opt) == tag + mark;
    EndsWithEOLByLast(tag + mark, opt.lineEnding);
  }

  lemma GluesLater(b: Broker, e: Event, rest: seq<Event>, opt: Options)
    requires Released(b, e, opt) == None
    ensures Glues(b, false, [e] + rest, opt) <==> Glues(Step(b, e, opt), false, rest, opt)
  {
    assert ([e] + rest)[0] == e && ([e] + rest)[1..] == rest;
  }

  lemma GluesNow(b: Broker, e: Event, last: Event, opt: Options)
    requires last.Receive? && TextOf(last, opt) != [] && StrandedAfter(b, false, e, opt)
    ensures Glues(b, false, [e] + [last], opt)
  {
    assert ([e] + [last])[0] == e && ([e] + [last])[1..] == [last];
  }

  lemma OneLine(b: Broker, line: Bytes, mode: LineEnding)
    ensures SayLines(b, [line], mode) ==
            Say(b, Emit(FromRX, if b.rxAtLineEnd then RX_LABEL else [], line)).(rxAtLineEnd := EndsWithEOL(line, mode))
  {
    assert [line][1..] == [];
  }

  lemma OutputStep(output: byte, opt: Options)
    requires Plain(output)
    ensures var b := Step(START, Receive([output]), opt);
            !b.rxAtLineEnd && !b.txLineActive && b.pending == None
  {
    PlainByte(output, opt);
    OneLine(START, [output], opt.lineEnding);
  }

  lemma EchoStep(b: Broker, tx: Tx, opt: Options)
    requires !b.rxAtLineEnd && b.pending == None && tx.data != []
    ensures Step(b, Echo(tx), opt) == b.(pending := Some(tx)) && Released(b, Echo(tx), opt) == None
  {
  }

  /** The line end releases the waiting keystroke, which does not close its line. */
  lemma LineEndStrands(b: Broker, key: byte, opt: Options)
    requires Plain(key) && b.pending == Some(Tx([key], User))
    ensures StrandedAfter(b, false, Receive([LF]), opt)
  {
    LineFeedEnds(opt);
    LineEndReleases(b, [LF], opt);
    PlainByte(key, opt);
  }

  function MixedEvents(output: byte, key: byte, more: byte): seq<Event> {
    [Receive([output])] + ([Echo(Tx([key], User))] + ([Receive([LF])] + [Receive([more])]))
  }

  lemma MixedGlues(output: byte, key: byte, more: byte, opt: Options)
    requires Plain(output) && Plain(key) && Plain(more)
    ensures Glues(START, false, MixedEvents(output, key, more), opt)
  {
    var tx, ending := Tx([key], User), [Receive([LF])] + [Receive([more])];
    var b1 := Step(START, Receive([output]), opt);
    OutputStep(output, opt);
    EchoStep(b1, tx, opt);
    var b2 := b1.(pending := Some(tx));
    LineEndStrands(b2, key, opt);
    PlainByte(more, opt);
    GluesNow(b2, Receive([LF]), Receive([more]), opt);
    GluesLater(b1, Echo(tx), ending, opt);
    GluesLater(START, Receive([output]), [Echo(tx)] + ending, opt);
  }

  /** Some output without a line end, a keystroke echoed meanwhile, the line end, more output: the last of it is
      shown on one line with the keystroke. */
  lemma MixedRun(output: byte, key: byte, more: byte, opt: Options)
    requires Plain(output) && Plain(key) && Plain(more)
    ensures !CleanPage(PageOf(Run(START, MixedEvents(output, key, more), opt), opt.lineEnding))
  {
    MixedGlues(output, key, more, opt);
    CleanIffNothingGlued(MixedEvents(output, key, more), opt);
  }
}
