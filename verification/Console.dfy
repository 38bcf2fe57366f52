/** The console broker: received bytes and echoed transmissions are merged into one labelled stream. */
module Console {
  import opened Common
  import opened Normalize
  import opened Lines
  import opened PausedTerminal

  datatype Origin = User | System

  datatype Tx = Tx(data: Bytes, origin: Origin)

  datatype Source = FromRX | FromTX | Break

  /** One text handed to the terminal: an optional label and the text proper, with where it comes from. */
  datatype Emit = Emit(source: Source, prefix: Bytes, text: Bytes)

  /** Where the broker believes the cursor is, the transmission it holds back, and all it has said so far. */
  datatype Broker = Broker(rxAtLineEnd: bool, txLineActive: bool, pending: Option<Tx>, said: seq<Emit>)

  const RX_LABEL: Bytes := [0x52, 0x58, 0x3A, 0x20]
  const TX_LABEL: Bytes := [0x54, 0x58, 0x3A, 0x20]
  const TX_SYSTEM_LABEL: Bytes := [0x54, 0x58, 0x5B, 0x53, 0x79, 0x73, 0x74, 0x65, 0x6D, 0x5D, 0x3A, 0x20]

  function LineSep(mode: LineEnding): Bytes {
    match mode
    case ToCRLF => [CR, LF]
    case ToLFCR => [LF, CR]
    case ToCR => [CR]
    case _ => [LF]
  }

  function BreakLine(opt: Options): Emit {
    Emit(Break, [], LineSep(opt.lineEnding))
  }

  function Texts(emits: seq<Emit>): seq<Bytes> {
    if emits == [] then [] else [emits[0].prefix + emits[0].text] + Texts(emits[1..])
  }

  function Say(b: Broker, e: Emit): Broker {
    b.(said := b.said + [e])
  }

  /** Echoed text: on a line of its own if received text is on the current one, labelled unless it
      continues a TX line. */
  function SayTx(b: Broker, tx: Tx, text: Bytes, opt: Options): Broker {
    var prefix := if b.txLineActive then [] else if tx.origin == System then TX_SYSTEM_LABEL else TX_LABEL;
    var b1 := if !b.rxAtLineEnd && !b.txLineActive then Say(b, BreakLine(opt)).(rxAtLineEnd := true) else b;
    Say(b1, Emit(FromTX, prefix, text)).(txLineActive := true)
  }

  /** A line end closes the TX line; a system message never leaves it open. */
  function CloseTx(b: Broker, tx: Tx, text: Bytes, opt: Options): Broker {
    var ended := EndsWithEOL(text, opt.lineEnding);
    var b1 := if tx.origin == System && !ended then Say(b, BreakLine(opt)) else b;
    if tx.origin == System || ended then b1.(txLineActive := false) else b1
  }

  function EmitTx(b: Broker, tx: Tx, opt: Options): Broker {
    var text := Normalized(tx.data, opt);
    if text == [] then b else CloseTx(SayTx(b, tx, text, opt), tx, text, opt)
  }

  function Flush(b: Broker, opt: Options): Broker {
    match b.pending
    case None => b
    case Some(tx) => EmitTx(b, tx, opt).(pending := None, txLineActive := false)
  }

  /** Says received lines, labelling each one that starts on a free line. */
  function SayLines(b: Broker, lines: seq<Bytes>, mode: LineEnding): Broker
    decreases |lines|
  {
    if lines == [] then b
    else
      var b' := Say(b, Emit(FromRX, if b.rxAtLineEnd then RX_LABEL else [], lines[0]));
      SayLines(b'.(rxAtLineEnd := EndsWithEOL(lines[0], mode)), lines[1..], mode)
  }

  function BreakTx(b: Broker, opt: Options): Broker {
    if b.txLineActive then Say(b, BreakLine(opt)).(txLineActive := false) else b
  }

  /** The received lines, and behind them a held-back transmission if they end in a line end. */
  function SayRx(b: Broker, data: Bytes, opt: Options): Broker {
    var text := Normalized(data, opt);
    var b' := SayLines(b, Pieces(text, opt.lineEnding), opt.lineEnding);
    if text != [] && b'.rxAtLineEnd then Flush(b', opt) else b'
  }

  function RxStep(b: Broker, data: Bytes, opt: Options): Broker {
    if data == [] then b else SayRx(BreakTx(b, opt), data, opt)
  }

  function TxStep(b: Broker, tx: Tx, opt: Options): Broker {
    if tx.data == [] then b
    else if b.rxAtLineEnd && b.pending.None? then EmitTx(b, tx, opt)
    else b.(pending := Some(tx))
  }

  function QuietStep(b: Broker, opt: Options): Broker {
    if b.pending.None? then b
    else Flush(Say(b, BreakLine(opt)), opt).(rxAtLineEnd := true, txLineActive := false)
  }

  lemma {:induction false} TextsAppend(a: seq<Emit>, b: seq<Emit>)
    ensures Texts(a + b) == Texts(a) + Texts(b)
    decreases |a|
  {
    if a == [] {
      assert a + b == b;
    } else {
      assert (a + b)[1..] == a[1..] + b;
      TextsAppend(a[1..], b);
    }
  }

  lemma SayLinesStep(b: Broker, pieces: seq<Bytes>, i: nat, mode: LineEnding)
    requires i < |pieces|
    ensures SayLines(b, pieces[i..], mode) ==
            SayLines(Say(b, Emit(FromRX, if b.rxAtLineEnd then RX_LABEL else [], pieces[i]))
                       .(rxAtLineEnd := EndsWithEOL(pieces[i], mode)), pieces[i + 1..], mode)
  {
    assert pieces[i..][1..] == pieces[i + 1..];
  }

  class ConsoleBroker {
    var hasSink: bool
    /** Every text the sink received, oldest first. */
    var sent: seq<Bytes>
    var terminalPaused: bool
    var bufLines: seq<Bytes>
    var bufBytes: int
    var maxBufLines: int
    var maxBufBytes: int
    var rxAtLineEnd: bool
    var txLineActive: bool
    var pendingTX: Option<Tx>
    var quietTimerRunning: bool
    const norm: Options

    /** What the broker has said since the terminal was last as in `base`. */
    ghost var base: Terminal
    ghost var said: seq<Emit>

    /** The byte count is right, a held-back transmission always has the quiet timer running for it, and
        the terminal has received exactly what was said. */
    ghost predicate Valid()
      reads this
    {
      && bufBytes == Total(bufLines)
      && (pendingTX.Some? ==> quietTimerRunning)
      && Output() == DeliverAll(base, Texts(said))
    }

    ghost function State(): Broker
      reads this
    {
      Broker(rxAtLineEnd, txLineActive, pendingTX, said)
    }

    function Output(): Terminal
      reads this
    {
      Screen(hasSink, terminalPaused, sent, bufLines, maxBufLines, maxBufBytes)
    }

    constructor (hasSink: bool, norm: Options)
      ensures Valid() && this.norm == norm && this.hasSink == hasSink
      ensures State() == Broker(true, false, None, [])
      ensures base == Screen(hasSink, false, [], [], 5000, 1048576)
    {
      this.hasSink, this.norm := hasSink, norm;
      sent, terminalPaused, bufLines, bufBytes := [], false, [], 0;
      maxBufLines, maxBufBytes := 5000, 1048576;
      rxAtLineEnd, txLineActive, pendingTX, quietTimerRunning := true, false, None, false;
      base, said := Screen(hasSink, false, [], [], 5000, 1048576), [];
    }

    method EnqueueBuffered(s: Bytes)
      requires bufBytes == Total(bufLines)
      modifies this`bufLines, this`bufBytes
      ensures bufBytes == Total(bufLines)
      ensures bufLines == Newest(old(bufLines) + [s], maxBufLines, maxBufBytes)
    {
      TotalAppend(bufLines, [s]);
      bufLines := bufLines + [s];
      bufBytes := bufBytes + |s|;
      ghost var goal := Newest(bufLines, maxBufLines, maxBufBytes);
      while bufBytes > maxBufBytes || |bufLines| > maxBufLines
        invariant bufBytes == Total(bufLines) && Newest(bufLines, maxBufLines, maxBufBytes) == goal
        decreases |bufLines|
      {
        if |bufLines| == 0 {
          break;
        }
        bufBytes := bufBytes - |bufLines[0]|;
        bufLines := bufLines[1..];
      }
    }

    method EmitToTerminal(s: Bytes)
      requires bufBytes == Total(bufLines)
      modifies this`bufLines, this`bufBytes, this`sent
      ensures bufBytes == Total(bufLines) && Output() == Deliver(old(Output()), s)
    {
      if !hasSink || s == [] {
        return;
      }
      if terminalPaused {
        EnqueueBuffered(s);
        return;
      }
      sent := sent + [s];
    }

    method SetTerminalPaused(v: bool)
      requires Valid()
      modifies this`bufLines, this`bufBytes, this`sent, this`terminalPaused, this`base, this`said
      ensures Valid() && Output() == SetPaused(old(Output()), v) == base && said == []
    {
      var wasPaused := terminalPaused;
      terminalPaused := v;
      if wasPaused && !v {
        FlushBuffer();
      }
      base, said := Output(), [];
    }

    method FlushBuffer()
      modifies this`bufLines, this`bufBytes, this`sent
      ensures bufLines == [] && bufBytes == 0
      ensures sent == if hasSink then old(sent) + old(bufLines) else old(sent)
    {
      if !hasSink || |bufLines| == 0 {
        bufLines, bufBytes := [], 0;
        return;
      }
      var i := 0;
      while i < |bufLines|
        invariant 0 <= i <= |bufLines| && bufLines == old(bufLines)
        invariant sent == old(sent) + bufLines[..i]
      {
        sent := sent + [bufLines[i]];
        i := i + 1;
      }
      bufLines, bufBytes := [], 0;
    }

    /** Hands one labelled text to the terminal. */
    method SayText(e: Emit)
      requires Valid()
      modifies this`bufLines, this`bufBytes, this`sent, this`said
      ensures Valid() && State() == Say(old(State()), e)
    {
      EmitToTerminal(e.prefix + e.text);
      TextsAppend(said, [e]);
      assert Texts([e]) == [e.prefix + e.text];
      DeliverAllAppend(base, Texts(said), [e.prefix + e.text]);
      said := said + [e];
    }

    method EmitTX(tx: Tx)
      requires Valid()
      modifies this`bufLines, this`bufBytes, this`sent, this`said, this`rxAtLineEnd, this`txLineActive
      ensures Valid() && State() == EmitTx(old(State()), tx, norm)
    {
      if |tx.data| == 0 {
        return;
      }
      var text := NormalizeText(tx.data, norm);
      if text == [] {
        return;
      }
      SayTXText(tx, text);
      CloseTXLine(tx, text);
    }

    method SayTXText(tx: Tx, text: Bytes)
      requires Valid()
      modifies this`bufLines, this`bufBytes, this`sent, this`said, this`rxAtLineEnd, this`txLineActive
      ensures Valid() && State() == SayTx(old(State()), tx, text, norm)
    {
      var prefix := if tx.origin == System then TX_SYSTEM_LABEL else TX_LABEL;
      if !rxAtLineEnd && !txLineActive {
        SayText(BreakLine(norm));
        rxAtLineEnd := true;
      }
      if !txLineActive {
        SayText(Emit(FromTX, prefix, text));
        txLineActive := true;
      } else {
        SayText(Emit(FromTX, [], text));
      }
    }

    method CloseTXLine(tx: Tx, text: Bytes)
      requires Valid()
      modifies this`bufLines, this`bufBytes, this`sent, this`said, this`txLineActive
      ensures Valid() && State() == CloseTx(old(State()), tx, text, norm)
    {
      var ended := EndsWithEOL(text, norm.lineEnding);
      if tx.origin == System && !ended {
        SayText(BreakLine(norm));
        ended := true;
      }
      if ended {
        txLineActive := false;
      }
    }

    method FlushPendingTX()
      requires Valid()
      modifies this`bufLines, this`bufBytes, this`sent, this`said, this`rxAtLineEnd, this`txLineActive, this`pendingTX
      ensures Valid() && State() == Flush(old(State()), norm)
    {
      if pendingTX.None? {
        return;
      }
      EmitTX(pendingTX.value);
      pendingTX := None;
      txLineActive := false;
    }

    /** Labels and says the received lines; empty pieces are skipped. */
    method EmitLines(lines: seq<Bytes>, ghost pieces: seq<Bytes>)
      requires Valid() && pieces <= lines
      requires forall p :: p in pieces ==> p != []
      requires forall j :: |pieces| <= j < |lines| ==> lines[j] == []
      modifies this`bufLines, this`bufBytes, this`sent, this`said, this`rxAtLineEnd
      ensures Valid() && State() == SayLines(old(State()), pieces, norm.lineEnding)
    {
      ghost var goal := SayLines(State(), pieces, norm.lineEnding);
      var atLineEnd := rxAtLineEnd;
      var i := 0;
      while i < |lines|
        invariant 0 <= i <= |lines| && Valid() && rxAtLineEnd == old(rxAtLineEnd)
        invariant SayLines(State().(rxAtLineEnd := atLineEnd), pieces[Min(i, |pieces|)..], norm.lineEnding) == goal
      {
        var line := lines[i];
        if line != [] {
          SayLinesStep(State().(rxAtLineEnd := atLineEnd), pieces, i, norm.lineEnding);
          if atLineEnd {
            SayText(Emit(FromRX, RX_LABEL, line));
          } else {
            SayText(Emit(FromRX, [], line));
          }
          atLineEnd := EndsWithEOL(line, norm.lineEnding);
        } else {
          assert i < |pieces| ==> pieces[i] in pieces;
        }
        i := i + 1;
      }
      rxAtLineEnd := atLineEnd;
    }

    /** Received data: ends an open TX line, labels the new lines, releases a held-back transmission. */
    method HandleRX(data: Bytes)
      requires Valid()
      modifies this`bufLines, this`bufBytes, this`sent, this`said, this`rxAtLineEnd, this`txLineActive, this`pendingTX,
               this`quietTimerRunning
      ensures Valid()
      ensures State() == if hasSink then RxStep(old(State()), data, norm) else old(State())
    {
      if !hasSink || |data| == 0 {
        return;
      }
      if txLineActive {
        SayText(BreakLine(norm));
        txLineActive := false;
      }
      EmitRX(data);
    }

    method EmitRX(data: Bytes)
      requires Valid()
      modifies this`bufLines, this`bufBytes, this`sent, this`said, this`rxAtLineEnd, this`txLineActive, this`pendingTX,
               this`quietTimerRunning
      ensures Valid()
      ensures State() == SayRx(old(State()), data, norm)
    {
      var text := NormalizeText(data, norm);
      if text == [] {
        return;
      }
      var lines := SplitAfterAnyEOL(text, norm.lineEnding);
      EmitLines(lines, Pieces(text, norm.lineEnding));
      if pendingTX.Some? && rxAtLineEnd {
        FlushPendingTX();
        quietTimerRunning := false;
      }
    }

    /** A transmission to echo: shown at once on a free line, held back otherwise. A later one replaces it. */
    method HandleTX(data: Bytes, origin: Origin)
      requires Valid()
      modifies this`bufLines, this`bufBytes, this`sent, this`said, this`rxAtLineEnd, this`txLineActive, this`pendingTX,
               this`quietTimerRunning
      ensures Valid()
      ensures State() == if hasSink then TxStep(old(State()), Tx(data, origin), norm) else old(State())
    {
      if !hasSink || |data| == 0 {
        return;
      }
      if rxAtLineEnd && pendingTX.None? {
        EmitTX(Tx(data, origin));
        return;
      }
      pendingTX := Some(Tx(data, origin));
      quietTimerRunning := true;
    }

    /** A held-back transmission is shown on a new line. */
    method FlushOnNewLine()
      requires Valid()
      modifies this`bufLines, this`bufBytes, this`sent, this`said, this`rxAtLineEnd, this`txLineActive, this`pendingTX
      ensures Valid() && State() == Flush(Say(old(State()), BreakLine(norm)), norm)
    {
      SayText(BreakLine(norm));
      FlushPendingTX();
    }

    /** The quiet timer fires. */
    method HandleQuiet()
      requires Valid()
      modifies this`bufLines, this`bufBytes, this`sent, this`said, this`rxAtLineEnd, this`txLineActive, this`pendingTX,
               this`quietTimerRunning
      ensures Valid()
      ensures State() == QuietStep(old(State()), norm)
    {
      if pendingTX.Some? {
        FlushOnNewLine();
        assert pendingTX.None?;
        rxAtLineEnd := true;
        txLineActive := false;
      }
      quietTimerRunning := false;
    }
  }
}
