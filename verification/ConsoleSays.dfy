/** What the console broker says at each step, byte for byte: its labels and its line breaks. */
module ConsoleSays {
  import opened Common
  import opened Normalize
  import opened Lines
  import opened Console
  import opened ConsolePage
  import opened Rendering

  /** A line break of the broker's own: one end-of-line mark of the mode, a line feed in as-is mode, and no label. */
  predicate IsBreak(e: Emit, mode: LineEnding) {
    && e.source == Break && e.prefix == []
    && e.text == match mode
                 case ToCRLF => [0x0D, 0x0A]
                 case ToLFCR => [0x0A, 0x0D]
                 case ToCR => [0x0D]
                 case ToLF => [0x0A]
                 case AsIs => [0x0A]
  }

  predicate IsTxLabel(prefix: Bytes, origin: Origin) {
    Spells(prefix, if origin == System then "TX[System]: " else "TX: ")
  }

  /** Received text is labelled as such or not at all, and so is transmitted text. */
  predicate Proper(e: Emit, mode: LineEnding) {
    match e.source
    case Break => IsBreak(e, mode)
    case FromRX => e.prefix == [] || Spells(e.prefix, "RX: ")
    case FromTX => e.prefix == [] || IsTxLabel(e.prefix, User) || IsTxLabel(e.prefix, System)
  }

  /** What was said stays said, and what is new is proper. */
  predicate SaysProperly(before: Broker, after: Broker, mode: LineEnding) {
    before.said <= after.said && forall i :: |before.said| <= i < |after.said| ==> Proper(after.said[i], mode)
  }

  lemma SaysOne(b0: Broker, b: Broker, e: Emit, mode: LineEnding)
    requires SaysProperly(b0, b, mode) && Proper(e, mode)
    ensures SaysProperly(b0, Say(b, e), mode)
  {
  }

  lemma BreakIsBreak(opt: Options)
    ensures IsBreak(BreakLine(opt), opt.lineEnding)
  {
  }

  lemma LabelsSpell()
    ensures Spells(RX_LABEL, "RX: ") && IsTxLabel(TX_LABEL, User) && IsTxLabel(TX_SYSTEM_LABEL, System)
  {
  }

  lemma EmitTxSays(b0: Broker, b: Broker, tx: Tx, opt: Options)
    requires SaysProperly(b0, b, opt.lineEnding)
    ensures SaysProperly(b0, EmitTx(b, tx, opt), opt.lineEnding)
  {
    var text, mode := Normalized(tx.data, opt), opt.lineEnding;
    if text != [] {
      BreakIsBreak(opt);
      LabelsSpell();
      var prefix := if b.txLineActive then [] else if tx.origin == System then TX_SYSTEM_LABEL else TX_LABEL;
      var b1 := if !b.rxAtLineEnd && !b.txLineActive then Say(b, BreakLine(opt)).(rxAtLineEnd := true) else b;
      assert SaysProperly(b0, b1, mode);
      SaysOne(b0, b1, Emit(FromTX, prefix, text), mode);
      SaysOne(b0, SayTx(b, tx, text, opt), BreakLine(opt), mode);
    }
  }

  lemma FlushSays(b0: Broker, b: Broker, opt: Options)
    requires SaysProperly(b0, b, opt.lineEnding)
    ensures SaysProperly(b0, Flush(b, opt), opt.lineEnding)
  {
    if b.pending.Some? {
      EmitTxSays(b0, b, b.pending.value, opt);
    }
  }

  lemma {:induction false} SayLinesSays(b0: Broker, b: Broker, lines: seq<Bytes>, mode: LineEnding)
    requires SaysProperly(b0, b, mode)
    ensures SaysProperly(b0, SayLines(b, lines, mode), mode)
    decreases |lines|
  {
    if lines != [] {
      LabelsSpell();
      var e := Emit(FromRX, if b.rxAtLineEnd then RX_LABEL else [], lines[0]);
      SaysOne(b0, b, e, mode);
      SayLinesSays(b0, Say(b, e).(rxAtLineEnd := EndsWithEOL(lines[0], mode)), lines[1..], mode);
    }
  }

  /** In every mode and at every step the broker only adds to what it has said, every line break of its own is one mark of
      the mode without a label, and every label is one of the three. */
  lemma StepSays(b: Broker, e: Event, opt: Options)
    ensures SaysProperly(b, Step(b, e, opt), opt.lineEnding)
  {
    BreakIsBreak(opt);
    var mode := opt.lineEnding;
    match e
    case Receive(data) =>
      var b1 := BreakTx(b, opt);
      SaysOne(b, b, BreakLine(opt), mode);
      SayLinesSays(b, b1, Pieces(Normalized(data, opt), mode), mode);
      FlushSays(b, SayLines(b1, Pieces(Normalized(data, opt), mode), mode), opt);
    case Echo(tx) => EmitTxSays(b, b, tx, opt);
    case Quiet =>
      SaysOne(b, b, BreakLine(opt), mode);
      FlushSays(b, Say(b, BreakLine(opt)), opt);
  }

  /** What an echo says: a line break if a received line is open; the text, labelled by its origin unless an echo's line
      is open; and a line break if it is a system message that does not end in a line end. */
  predicate SaysEcho(before: Broker, tx: Tx, opt: Options, said: seq<Emit>, br: Emit, name: Bytes) {
    var text := Normalized(tx.data, opt);
    && IsBreak(br, opt.lineEnding) && IsTxLabel(name, tx.origin)
    && said == before.said + (if !before.rxAtLineEnd && !before.txLineActive then [br] else [])
               + [Emit(FromTX, if before.txLineActive then [] else name, text)]
               + (if tx.origin == System && !EndsWithEOL(text, opt.lineEnding) then [br] else [])
  }

  lemma EmitTxIsEcho(b: Broker, tx: Tx, opt: Options) returns (br: Emit, name: Bytes)
    requires Normalized(tx.data, opt) != []
    ensures SaysEcho(b, tx, opt, EmitTx(b, tx, opt).said, br, name)
  {
    br, name := BreakLine(opt), if tx.origin == System then TX_SYSTEM_LABEL else TX_LABEL;
    BreakIsBreak(opt);
    LabelsSpell();
  }

  /** An echo on a free line is said at once; one that is not waits, and nothing is said. */
  lemma EchoSays(b: Broker, tx: Tx, opt: Options) returns (br: Emit, name: Bytes)
    requires Normalized(tx.data, opt) != []
    ensures var said := TxStep(b, tx, opt).said;
            if b.rxAtLineEnd && b.pending == None then SaysEcho(b, tx, opt, said, br, name) else said == b.said
  {
    br, name := EmitTxIsEcho(b, tx, opt);
  }

  /** The quiet timeout breaks the line and says the echo that was held back; which, with a received line open, breaks the
      line once more. */
  lemma QuietSays(b: Broker, opt: Options) returns (br: Emit, name: Bytes)
    requires b.pending.Some?
    ensures var tx, said := b.pending.value, QuietStep(b, opt).said;
            && IsBreak(br, opt.lineEnding)
            && if Normalized(tx.data, opt) == [] then said == b.said + [br]
               else SaysEcho(b.(said := b.said + [br]), tx, opt, said, br, name)
  {
    BreakIsBreak(opt);
    br, name := BreakLine(opt), [];
    if Normalized(b.pending.value.data, opt) != [] {
      br, name := EmitTxIsEcho(Say(b, BreakLine(opt)), b.pending.value, opt);
      assert br == BreakLine(opt);
    }
  }

  /** Received data ends an echo's open line with a line break before anything else. */
  lemma ReceiveBreaks(b: Broker, data: Bytes, opt: Options)
    requires data != [] && b.txLineActive
    ensures var said := RxStep(b, data, opt).said;
            |said| > |b.said| && IsBreak(said[|b.said|], opt.lineEnding)
  {
    var b1 := BreakTx(b, opt);
    BreakIsBreak(opt);
    assert b1.said[|b.said|] == BreakLine(opt);
    RxKeepsSaid(b1, data, opt);
  }

  lemma RxKeepsSaid(b: Broker, data: Bytes, opt: Options)
    ensures b.said <= SayRx(b, data, opt).said
  {
    var text, mode := Normalized(data, opt), opt.lineEnding;
    SayLinesSays(b, b, Pieces(text, mode), mode);
    FlushSays(b, SayLines(b, Pieces(text, mode), mode), opt);
  }
}
