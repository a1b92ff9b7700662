/// The message-database reader (src/dbcparser.cpp): a line-by-line state
/// machine over the text of a DBC file that builds message definitions
/// with their signals and fills in signal value tables.
///
/// The three regular expressions are not modelled as such: each line comes
/// with what each of them captured, if it matched. Integer captures are
/// kept as text and converted as `QString::toULong`, `toUInt` and `toShort`
/// do for decimal digits; floating-point captures arrive already converted
/// (`None` when `toDouble` reports failure).
module DbcParser {
  import opened Common
  import opened CanMsg

  // ---------------------------------------------------------------------
  // Number conversions

  predicate IsDecimal(s: string)
  {
    |s| > 0 && forall i :: 0 <= i < |s| ==> '0' <= s[i] <= '9'
  }

  /// The value of a string of decimal digits; `None` for anything else.
  function DecimalValue(s: string): (r: Option<nat>)
    ensures r.Some? <==> IsDecimal(s)
  {
    if s == [] || !('0' <= s[|s| - 1] <= '9') then None
    else
      var d := s[|s| - 1] as int - '0' as int;
      if |s| == 1 then Some(d)
      else
        var init := s[..|s| - 1];
        assert IsDecimal(s) ==> IsDecimal(init) by {
          if IsDecimal(s) {
            assert forall i :: 0 <= i < |init| ==> init[i] == s[i];
          }
        }
        match DecimalValue(init)
        case None => None
        case Some(v) => Some(v * 10 + d)
  }

  /// `toULong` (64-bit unsigned long): fails when the value does not fit.
  function ToULong(s: string): (r: Option<nat>)
    ensures r.Some? ==> r.value < U64
    ensures r.Some? <==> DecimalValue(s).Some? && DecimalValue(s).value < U64
  {
    match DecimalValue(s)
    case None => None
    case Some(v) => if v < U64 then Some(v) else None
  }

  /// `toUInt`: fails when the value does not fit 32 bits.
  function ToUInt(s: string): (r: Option<nat>)
    ensures r.Some? ==> r.value < U32
    ensures r.Some? <==> DecimalValue(s).Some? && DecimalValue(s).value < U32
  {
    match DecimalValue(s)
    case None => None
    case Some(v) => if v < U32 then Some(v) else None
  }

  const ShortMax: nat := 0x7FFF

  /// `toShort`: fails when the value exceeds a signed 16-bit short.
  function ToShort(s: string): (r: Option<nat>)
    ensures r.Some? ==> r.value <= ShortMax
    ensures r.Some? <==> DecimalValue(s).Some? && DecimalValue(s).value <= ShortMax
  {
    match DecimalValue(s)
    case None => None
    case Some(v) => if v <= ShortMax then Some(v) else None
  }

  // ---------------------------------------------------------------------
  // Lines

  /// Captures of `BO_ <id> <name>: <dlc> <sender>`.
  datatype MessageMatch = MessageMatch(id: string, name: string, dlc: string, sender: string)

  /// Captures of `SG_ <name> : <start>|<len>@<endian><sign> (<scale>,<offset>)
  /// [<min>|<max>] "<unit>" <receiver>`.
  datatype SignalMatch = SignalMatch(
    name: string,
    startBit: string,
    len: string,
    endian: string,
    sign: string,
    scale: Option<real>,
    offset: Option<real>,
    min: Option<real>,
    max: Option<real>,
    unit: string,
    receiver: string)

  /// One `<value> "<description>"` pair of a value table; the value is the
  /// outcome of `toDouble` on its digits.
  datatype PairMatch = PairMatch(value: Option<real>, description: string)

  /// Captures of `VAL_ <id> <signal> <pairs> ;`.
  datatype ValueMatch = ValueMatch(id: string, signal: string, pairs: seq<PairMatch>)

  /// A line of the file, with the match of each pattern (`None`: no match).
  datatype Line = Line(message: Option<MessageMatch>, values: Option<ValueMatch>, signal: Option<SignalMatch>)

  // ---------------------------------------------------------------------
  // The state machine, as a function

  datatype State = Idle | InMessage

  /// Parser state: the machine state, the message under construction and
  /// the database.
  datatype Parser = Parser(state: State, message: CanMessage, db: seq<CanMessage>)

  function Start(db: seq<CanMessage>): Parser
  {
    Parser(Idle, EmptyMessage, db)
  }

  /// The signal an `SG_` line defines, or `None` when one of its numeric
  /// fields fails to convert. Start bit and length are stored in 8 bits;
  /// endianness digit 0 means big-endian; sign `-` means signed.
  function SignalOf(m: SignalMatch): (r: Option<CanSignal>)
    ensures r.Some? <==> ToUInt(m.startBit).Some? && ToUInt(m.len).Some? && ToUInt(m.endian).Some?
                         && m.scale.Some? && m.offset.Some? && m.min.Some? && m.max.Some?
    ensures r.Some? ==> r.value == CanSignal(
      ToUInt(m.startBit).value % 256, ToUInt(m.len).value % 256, ToUInt(m.endian).value == 0,
      m.sign == "-", m.scale.value, m.offset.value, m.min.value, m.max.value,
      m.name, m.unit, m.receiver, [])
  {
    var startBit := ToUInt(m.startBit);
    var len := ToUInt(m.len);
    var endian := ToUInt(m.endian);
    if startBit.None? || len.None? || endian.None? then None
    else if m.scale.None? || m.offset.None? || m.min.None? || m.max.None? then None
    else Some(CanSignal(startBit.value % 256, len.value % 256, endian.value == 0, m.sign == "-",
                        m.scale.value, m.offset.value, m.min.value, m.max.value,
                        m.name, m.unit, m.receiver, []))
  }

  /// The value pairs whose number converted, in order.
  function Accepted(pairs: seq<PairMatch>): (r: seq<ValuePair>)
    ensures |r| <= |pairs|
  {
    if pairs == [] then []
    else
      var p := pairs[|pairs| - 1];
      Accepted(pairs[..|pairs| - 1]) + (if p.value.Some? then [ValuePair(p.value.value, p.description)] else [])
  }

  /// The message and signal a `VAL_` line addresses: the first message
  /// with the (masked) identifier and, in it, the first signal with the
  /// name.
  function ValueTarget(msgs: seq<CanMessage>, v: ValueMatch): (r: Option<(nat, nat)>)
    ensures r.Some? ==> r.value.0 < |msgs| && r.value.1 < |msgs[r.value.0].canSignals|
    ensures r.Some? <==>
      (ToULong(v.id).Some? && FindMessage(msgs, RemoveExtMask(ToULong(v.id).value % U32)).Some? &&
       msgs[FindMessage(msgs, RemoveExtMask(ToULong(v.id).value % U32)).value].FindSignal(v.signal).Some?)
    ensures r.Some? ==>
      FindMessage(msgs, RemoveExtMask(ToULong(v.id).value % U32)) == Some(r.value.0) &&
      msgs[r.value.0].FindSignal(v.signal) == Some(r.value.1)
  {
    match ToULong(v.id)
    case None => None
    case Some(raw) =>
      match FindMessage(msgs, RemoveExtMask(raw % U32))
      case None => None
      case Some(mi) =>
        match msgs[mi].FindSignal(v.signal)
        case None => None
        case Some(si) => Some((mi, si))
  }

  /// `msgs` with `extra` appended to the value table of signal `si` of
  /// message `mi`.
  function WithPairs(msgs: seq<CanMessage>, mi: nat, si: nat, extra: seq<ValuePair>): seq<CanMessage>
    requires mi < |msgs| && si < |msgs[mi].canSignals|
  {
    var m := msgs[mi];
    var s := m.canSignals[si];
    msgs[mi := m.(canSignals := m.canSignals[si := s.(values := s.values + extra)])]
  }

  lemma WithNoPairs(msgs: seq<CanMessage>, mi: nat, si: nat)
    requires mi < |msgs| && si < |msgs[mi].canSignals|
    ensures WithPairs(msgs, mi, si, []) == msgs
  {
    var m := msgs[mi];
    var s := m.canSignals[si];
    assert s.(values := s.values + []) == s;
    assert m.canSignals[si := s] == m.canSignals;
  }

  /// Appending two runs of pairs one after the other is appending both.
  lemma WithPairsAppend(msgs: seq<CanMessage>, mi: nat, si: nat, a: seq<ValuePair>, b: seq<ValuePair>)
    requires mi < |msgs| && si < |msgs[mi].canSignals|
    ensures WithPairs(WithPairs(msgs, mi, si, a), mi, si, b) == WithPairs(msgs, mi, si, a + b)
  {
    var m := msgs[mi];
    var s := m.canSignals[si];
    var m1 := WithPairs(msgs, mi, si, a);
    assert m1[mi] == m.(canSignals := m.canSignals[si := s.(values := s.values + a)]);
    assert m1[mi].canSignals[si] == s.(values := s.values + a);
    assert s.values + a + b == s.values + (a + b);
    assert m1[mi].canSignals[si := s.(values := s.values + (a + b))] == m.canSignals[si := s.(values := s.values + (a + b))];
  }

  /// The database after a `VAL_` line.
  function WithValues(msgs: seq<CanMessage>, v: ValueMatch): seq<CanMessage>
  {
    match ValueTarget(msgs, v)
    case None => msgs
    case Some((mi, si)) => WithPairs(msgs, mi, si, Accepted(v.pairs))
  }

  /// One line. Outside a message block a `BO_` line starts a block (unless
  /// its identifier or length fails to convert) and otherwise a `VAL_`
  /// line fills a value table. Inside a block an `SG_` line adds a signal
  /// (a failed conversion abandons the block without storing it), and any
  /// other line stores the block and is itself not looked at further.
  function Step(p: Parser, line: Line): Parser
  {
    match p.state
    case Idle =>
      if line.message.Some? then
        var m := line.message.value;
        match ToULong(m.id)
        case None => p
        case Some(id) =>
          var named := p.message.(id := RemoveExtMask(id % U32), name := m.name);
          match ToShort(m.dlc)
          case None => p.(message := named.(dlc := 0))
          case Some(dlc) => Parser(InMessage, named.(dlc := dlc % 256, sender := m.sender), p.db)
      else if line.values.Some? then
        p.(db := WithValues(p.db, line.values.value))
      else
        p
    case InMessage =>
      if line.signal.Some? then
        match SignalOf(line.signal.value)
        case None => p.(state := Idle)
        case Some(s) => p.(message := p.message.AddCanSignal(s))
      else
        Parser(Idle, EmptyMessage, p.db + [p.message])
  }

  /// The parser after every line of `lines`, in order.
  function Run(p: Parser, lines: seq<Line>): Parser
  {
    if lines == [] then p else Step(Run(p, lines[..|lines| - 1]), lines[|lines| - 1])
  }

  /// The database at end of input: an open block is stored.
  function Finish(p: Parser): seq<CanMessage>
  {
    if p.state == InMessage then p.db + [p.message] else p.db
  }

  /// The database after reading the files in order into one database;
  /// `None` stands for a file that cannot be opened.
  function ParseAll(db: seq<CanMessage>, files: seq<Option<seq<Line>>>): seq<CanMessage>
  {
    if files == [] then db
    else
      var before := ParseAll(db, files[..|files| - 1]);
      match files[|files| - 1]
      case None => before
      case Some(lines) => Finish(Run(Start(before), lines))
  }

  // ---------------------------------------------------------------------
  // The parser, as the source runs it

  /// The `VAL_` branch: look up message and signal, then append every
  /// pair whose number converts.
  method ApplyValueTable(db: CanDb, v: ValueMatch)
    modifies db
    ensures db.db == WithValues(old(db.db), v)
  {
    var id := ToULong(v.id);
    if id.None? {
      return;
    }
    var msg := FindMessage(db.db, RemoveExtMask(id.value % U32));
    if msg.None? {
      return;
    }
    var mi := msg.value;
    var signal := db.db[mi].FindSignal(v.signal);
    if signal.None? {
      return;
    }
    var si := signal.value;
    ghost var db0 := db.db;
    WithNoPairs(db0, mi, si);
    for k := 0 to |v.pairs|
      invariant mi < |db.db| && si < |db.db[mi].canSignals|
      invariant db.db == WithPairs(db0, mi, si, Accepted(v.pairs[..k]))
    {
      assert v.pairs[..k + 1][..k] == v.pairs[..k];
      var pair := v.pairs[k];
      if pair.value.Some? {
        ghost var before := db.db;
        var vp := ValuePair(pair.value.value, pair.description);
        var m := db.db[mi];
        var s := m.canSignals[si].AddValuePair(vp);
        db.db := db.db[mi := m.(canSignals := m.canSignals[si := s])];
        assert db.db == WithPairs(before, mi, si, [vp]);
        WithPairsAppend(db0, mi, si, Accepted(v.pairs[..k]), [vp]);
        assert Accepted(v.pairs[..k + 1]) == Accepted(v.pairs[..k]) + [vp];
      } else {
        assert Accepted(v.pairs[..k + 1]) == Accepted(v.pairs[..k]) + [];
        assert Accepted(v.pairs[..k]) + [] == Accepted(v.pairs[..k]);
      }
    }
    assert v.pairs[..|v.pairs|] == v.pairs;
  }

  /// `DbcParser::parseStream`: reads every line into `db`.
  method ParseStream(lines: seq<Line>, db: CanDb)
    modifies db
    ensures db.db == Finish(Run(Start(old(db.db)), lines))
  {
    var message := EmptyMessage;
    var state := Idle;
    for i := 0 to |lines|
      invariant Parser(state, message, db.db) == Run(Start(old(db.db)), lines[..i])
    {
      assert lines[..i + 1][..i] == lines[..i];
      var line := lines[i];
      if state == Idle {
        if line.message.Some? {
          var m := line.message.value;
          state := InMessage;
          var id := ToULong(m.id);
          if id.None? {
            state := Idle;
          } else {
            message := message.(id := RemoveExtMask(id.value % U32));
            message := message.(name := m.name);
            var dlc := ToShort(m.dlc);
            message := message.(dlc := if dlc.Some? then dlc.value % 256 else 0);
            if dlc.None? {
              state := Idle;
            } else {
              message := message.(sender := m.sender);
            }
          }
        } else if line.values.Some? {
          ApplyValueTable(db, line.values.value);
        }
      } else {
        if line.signal.Some? {
          var signal := SignalOf(line.signal.value);
          if signal.None? {
            state := Idle;
          } else {
            message := message.AddCanSignal(signal.value);
          }
        } else {
          db.AddMessage(message);
          message := EmptyMessage;
          state := Idle;
        }
      }
    }
    assert lines[..|lines|] == lines;
    if state == InMessage {
      db.AddMessage(message);
    }
  }

  /// `DbcParser::parseFile`: a file that cannot be opened leaves the
  /// database as it is.
  method ParseFile(file: Option<seq<Line>>, db: CanDb)
    modifies db
    ensures db.db == if file.None? then old(db.db) else Finish(Run(Start(old(db.db)), file.value))
  {
    if file.None? {
      return;
    }
    ParseStream(file.value, db);
  }

  /// `DbcParser::parse`: all files into one new database.
  method Parse(files: seq<Option<seq<Line>>>) returns (db: CanDb)
    ensures fresh(db)
    ensures db.db == ParseAll([], files)
  {
    db := new CanDb();
    for i := 0 to |files|
      invariant db.db == ParseAll([], files[..i])
    {
      assert files[..i + 1][..i] == files[..i];
      ParseFile(files[i], db);
    }
    assert files[..|files|] == files;
  }

  // ---------------------------------------------------------------------
  // Properties

  lemma {:induction false} RunAppend(p: Parser, a: seq<Line>, b: seq<Line>)
    ensures Run(p, a + b) == Run(Run(p, a), b)
    decreases |b|
  {
    if b == [] {
      assert a + b == a;
    } else {
      var b0 := b[..|b| - 1];
      RunAppend(p, a, b0);
      assert (a + b)[..|a + b| - 1] == a + b0;
    }
  }

  lemma {:induction false} ParseAllAppend(db: seq<CanMessage>, a: seq<Option<seq<Line>>>, b: seq<Option<seq<Line>>>)
    ensures ParseAll(db, a + b) == ParseAll(ParseAll(db, a), b)
    decreases |b|
  {
    if b == [] {
      assert a + b == a;
    } else {
      var b0 := b[..|b| - 1];
      ParseAllAppend(db, a, b0);
      assert (a + b)[..|a + b| - 1] == a + b0;
    }
  }

  /// A file that cannot be opened contributes nothing, wherever it is in
  /// the list.
  lemma UnopenableFileIgnored(db: seq<CanMessage>, a: seq<Option<seq<Line>>>, b: seq<Option<seq<Line>>>)
    ensures ParseAll(db, a + [None] + b) == ParseAll(db, a + b)
  {
    ParseAllAppend(db, a + [None], b);
    ParseAllAppend(db, a, b);
    assert (a + [None])[..|a|] == a;
  }

  /// The message a `BO_` line whose numbers convert opens, once the
  /// given signals have been added to it.
  function BlockMessage(m: MessageMatch, sigs: seq<CanSignal>): CanMessage
    requires ToULong(m.id).Some? && ToShort(m.dlc).Some?
  {
    CanMessage(RemoveExtMask(ToULong(m.id).value % U32), ToShort(m.dlc).value % 256,
               m.name, m.sender, sigs, EmptyMessage.color)
  }

  /// Each line is an `SG_` line whose numbers convert to the signal at
  /// the same position.
  predicate Defines(sgs: seq<Line>, sigs: seq<CanSignal>)
  {
    |sigs| == |sgs| &&
    forall i :: 0 <= i < |sgs| ==> sgs[i].signal.Some? && SignalOf(sgs[i].signal.value) == Some(sigs[i])
  }

  lemma DefinesInit(sgs: seq<Line>, sigs: seq<CanSignal>)
    requires Defines(sgs, sigs) && |sgs| > 0
    ensures Defines(sgs[..|sgs| - 1], sigs[..|sgs| - 1])
    ensures sgs[|sgs| - 1].signal.Some? && SignalOf(sgs[|sgs| - 1].signal.value) == Some(sigs[|sgs| - 1])
  {
  }

  /// A `BO_` line whose numbers convert, followed by `SG_` lines that each
  /// define a signal, makes one message with those signals in order; it is
  /// stored when the next non-signal line arrives or the input ends.
  lemma {:induction false} MessageBlock(db: seq<CanMessage>, m: MessageMatch, bo: Line, sgs: seq<Line>, sigs: seq<CanSignal>)
    requires bo.message == Some(m) && ToULong(m.id).Some? && ToShort(m.dlc).Some?
    requires Defines(sgs, sigs)
    ensures Run(Start(db), [bo] + sgs) == Parser(InMessage, BlockMessage(m, sigs), db)
    decreases |sgs|
  {
    if sgs == [] {
      assert [bo] + sgs == [bo];
      MessageOpens(db, m, bo);
    } else {
      var n := |sgs| - 1;
      DefinesInit(sgs, sigs);
      MessageBlock(db, m, bo, sgs[..n], sigs[..n]);
      var lines := [bo] + sgs;
      ConsInit(bo, sgs);
      SnocLast(lines);
      RunSnoc(Start(db), [bo] + sgs[..n], sgs[n]);
      var prev := Parser(InMessage, BlockMessage(m, sigs[..n]), db);
      assert Run(Start(db), lines) == Step(prev, sgs[n]);
      SignalStep(prev, sgs[n], sigs[n]);
      SnocLast(sigs);
      assert BlockMessage(m, sigs[..n]).AddCanSignal(sigs[n]) == BlockMessage(m, sigs);
    }
  }

  lemma RunSnoc(p: Parser, a: seq<Line>, line: Line)
    ensures Run(p, a + [line]) == Step(Run(p, a), line)
  {
    assert (a + [line])[..|a|] == a;
  }

  lemma MessageOpens(db: seq<CanMessage>, m: MessageMatch, bo: Line)
    requires bo.message == Some(m) && ToULong(m.id).Some? && ToShort(m.dlc).Some?
    ensures Run(Start(db), [bo]) == Parser(InMessage, BlockMessage(m, []), db)
  {
    assert [bo][..0] == [];
  }

  lemma SignalStep(p: Parser, line: Line, s: CanSignal)
    requires p.state == InMessage && line.signal.Some? && SignalOf(line.signal.value) == Some(s)
    ensures Step(p, line) == p.(message := p.message.AddCanSignal(s))
  {
  }

  /// A whole block closed by a non-signal line: exactly one message is
  /// added and the parser is back to its start state.
  lemma ClosedMessageBlock(db: seq<CanMessage>, m: MessageMatch, bo: Line, sgs: seq<Line>, sigs: seq<CanSignal>, end: Line)
    requires bo.message == Some(m) && ToULong(m.id).Some? && ToShort(m.dlc).Some?
    requires Defines(sgs, sigs)
    requires end.signal.None?
    ensures Run(Start(db), [bo] + sgs + [end]) ==
      Start(db + [CanMessage(RemoveExtMask(ToULong(m.id).value % U32), ToShort(m.dlc).value % 256,
                             m.name, m.sender, sigs, EmptyMessage.color)])
  {
    MessageBlock(db, m, bo, sgs, sigs);
    RunAppend(Start(db), [bo] + sgs, [end]);
    assert [end][..0] == [];
  }

  /// Two `BO_` lines with nothing in between: the second one closes the
  /// first block and is dropped, so only the first message is stored.
  lemma BackToBackMessagesDropSecond(db: seq<CanMessage>, m1: MessageMatch, m2: MessageMatch)
    requires ToULong(m1.id).Some? && ToShort(m1.dlc).Some?
    ensures Finish(Run(Start(db), [Line(Some(m1), None, None), Line(Some(m2), None, None)])) ==
      db + [CanMessage(RemoveExtMask(ToULong(m1.id).value % U32), ToShort(m1.dlc).value % 256,
                       m1.name, m1.sender, [], EmptyMessage.color)]
  {
    var bo1 := Line(Some(m1), None, None);
    var bo2 := Line(Some(m2), None, None);
    ClosedMessageBlock(db, m1, bo1, [], [], bo2);
    assert [bo1] + [] + [bo2] == [bo1, bo2];
  }

  /// An `SG_` line whose numbers fail to convert abandons its block
  /// without storing it, and the signals it already had stay with the
  /// message under construction: the next block inherits them.
  lemma FailedSignalCarriesOver(db: seq<CanMessage>, m1: MessageMatch, m2: MessageMatch,
                                good: SignalMatch, s: CanSignal, bad: SignalMatch)
    requires ToULong(m1.id).Some? && ToShort(m1.dlc).Some?
    requires ToULong(m2.id).Some? && ToShort(m2.dlc).Some?
    requires SignalOf(good) == Some(s) && SignalOf(bad).None?
    ensures Finish(Run(Start(db), [Line(Some(m1), None, None), Line(None, None, Some(good)),
                                   Line(None, None, Some(bad)), Line(Some(m2), None, None)])) ==
      db + [CanMessage(RemoveExtMask(ToULong(m2.id).value % U32), ToShort(m2.dlc).value % 256,
                       m2.name, m2.sender, [s], EmptyMessage.color)]
  {
    var l1 := Line(Some(m1), None, None);
    var l2 := Line(None, None, Some(good));
    var l3 := Line(None, None, Some(bad));
    var l4 := Line(Some(m2), None, None);
    MessageBlock(db, m1, l1, [l2], [s]);
    var p2 := Run(Start(db), [l1, l2]);
    var p3 := Step(p2, l3);
    assert p3 == p2.(state := Idle);
    var p4 := Step(p3, l4);
    assert [l3, l4][..1] == [l3];
    assert [l3][..0] == [];
    assert Run(p2, [l3]) == p3;
    assert Run(p2, [l3, l4]) == p4;
    RunAppend(Start(db), [l1, l2], [l3, l4]);
    assert [l1] + [l2] == [l1, l2];
    assert [l1, l2] + [l3, l4] == [l1, l2, l3, l4];
    assert [l3, l4][..1] == [l3];
    assert [l3][..0] == [];
  }

  /// The lines of the two-line schema `BO_ 123 hello: 7 Bob` /
  /// ` SG_ hi : 0|8@1+ (1,0) [0|255] "" Alice`.
  function ExampleLines(): seq<Line>
  {
    [Line(Some(MessageMatch("123", "hello", "7", "Bob")), None, None),
     Line(None, None, Some(SignalMatch("hi", "0", "8", "1", "+", Some(1.0), Some(0.0), Some(0.0), Some(255.0), "", "Alice")))]
  }

  /// That schema gives one message, id 123, "hello", length 7, sender
  /// "Bob", with one unsigned little-endian signal "hi" of 8 bits at bit 0.
  lemma ExampleSchema()
    ensures Finish(Run(Start([]), ExampleLines())) ==
      [CanMessage(123, 7, "hello", "Bob",
                  [CanSignal(0, 8, false, false, 1.0, 0.0, 0.0, 255.0, "hi", "", "Alice", [])],
                  EmptyMessage.color)]
  {
    var l := ExampleLines();
    var s := CanSignal(0, 8, false, false, 1.0, 0.0, 0.0, 255.0, "hi", "", "Alice", []);
    ExampleDecimals();
    assert SignalOf(l[1].signal.value) == Some(s);
    var m := l[0].message.value;
    assert BlockMessage(m, [s]) == CanMessage(123, 7, "hello", "Bob", [s], EmptyMessage.color);
    assert Defines([l[1]], [s]);
    MessageBlock([], m, l[0], [l[1]], [s]);
    assert [l[0]] + [l[1]] == l;
  }

  lemma ExampleDecimals()
    ensures DecimalValue("123") == Some(123) && DecimalValue("7") == Some(7)
    ensures DecimalValue("0") == Some(0) && DecimalValue("8") == Some(8) && DecimalValue("1") == Some(1)
  {
    assert DecimalValue("12") == Some(12) by { assert "12"[..1] == "1"; }
    assert DecimalValue("123") == Some(123) by { assert "123"[..2] == "12"; }
  }

  /// `db2` is `db1` with possibly more messages after it and with value
  /// tables that only grew; nothing else about the earlier messages
  /// changed.
  predicate Extends(db1: seq<CanMessage>, db2: seq<CanMessage>)
  {
    |db1| <= |db2| &&
    forall i :: 0 <= i < |db1| ==>
      db2[i].(canSignals := db1[i].canSignals) == db1[i] &&
      |db2[i].canSignals| == |db1[i].canSignals| &&
      forall j :: 0 <= j < |db1[i].canSignals| ==>
        db2[i].canSignals[j].(values := db1[i].canSignals[j].values) == db1[i].canSignals[j] &&
        db1[i].canSignals[j].values <= db2[i].canSignals[j].values
  }

  lemma ExtendsTransitive(a: seq<CanMessage>, b: seq<CanMessage>, c: seq<CanMessage>)
    requires Extends(a, b) && Extends(b, c)
    ensures Extends(a, c)
  {
    forall i, j | 0 <= i < |a| && 0 <= j < |a[i].canSignals|
      ensures a[i].canSignals[j].values <= c[i].canSignals[j].values
    {
      assert a[i].canSignals[j].values <= b[i].canSignals[j].values;
    }
  }

  /// A `VAL_` line only appends to one value table.
  lemma ValuesExtend(db: seq<CanMessage>, v: ValueMatch)
    ensures Extends(db, WithValues(db, v))
  {
    match ValueTarget(db, v)
    case None =>
    case Some((mi, si)) =>
      var r := WithPairs(db, mi, si, Accepted(v.pairs));
      forall i, j | 0 <= i < |db| && 0 <= j < |db[i].canSignals|
        ensures r[i].canSignals[j].(values := db[i].canSignals[j].values) == db[i].canSignals[j]
        ensures db[i].canSignals[j].values <= r[i].canSignals[j].values
      {
        if i == mi && j == si {
          assert r[i].canSignals[j].values == db[i].canSignals[j].values + Accepted(v.pairs);
        }
      }
  }

  lemma {:induction false} RunExtends(p: Parser, lines: seq<Line>)
    ensures Extends(p.db, Run(p, lines).db)
    decreases |lines|
  {
    if lines == [] {
    } else {
      var q := Run(p, lines[..|lines| - 1]);
      RunExtends(p, lines[..|lines| - 1]);
      var line := lines[|lines| - 1];
      assert Run(p, lines) == Step(q, line);
      StepExtends(q, line);
      ExtendsTransitive(p.db, q.db, Step(q, line).db);
    }
  }

  /// One line appends a message, extends a value table or leaves the
  /// database alone.
  lemma StepExtends(q: Parser, line: Line)
    ensures Extends(q.db, Step(q, line).db)
  {
    if q.state == Idle && line.message.None? && line.values.Some? {
      ValuesExtend(q.db, line.values.value);
    }
  }

  /// Reading a file never removes or rewrites a message already in the
  /// database: it appends messages and extends value tables.
  lemma ParseStreamExtends(db: seq<CanMessage>, lines: seq<Line>)
    ensures Extends(db, Finish(Run(Start(db), lines)))
  {
    RunExtends(Start(db), lines);
    var p := Run(Start(db), lines);
    assert Extends(p.db, Finish(p));
    ExtendsTransitive(db, p.db, Finish(p));
  }

  /// A `VAL_` line that names a known message and signal appends the
  /// converted pairs, in order, to that signal's table and changes nothing
  /// else; one that does not changes nothing.
  lemma ValueTableEffect(db: seq<CanMessage>, v: ValueMatch)
    ensures ValueTarget(db, v).None? ==> WithValues(db, v) == db
    ensures ValueTarget(db, v).Some? <==>
      ToULong(v.id).Some? && FindMessage(db, RemoveExtMask(ToULong(v.id).value % U32)).Some? &&
      db[FindMessage(db, RemoveExtMask(ToULong(v.id).value % U32)).value].FindSignal(v.signal).Some?
    ensures ValueTarget(db, v).Some? ==>
      var (mi, si) := ValueTarget(db, v).value;
      FindMessage(db, RemoveExtMask(ToULong(v.id).value % U32)) == Some(mi) &&
      db[mi].FindSignal(v.signal) == Some(si) &&
      |WithValues(db, v)| == |db| &&
      WithValues(db, v)[mi].canSignals[si].values == db[mi].canSignals[si].values + Accepted(v.pairs) &&
      WithValues(db, v)[mi].canSignals[si].(values := db[mi].canSignals[si].values) == db[mi].canSignals[si] &&
      |WithValues(db, v)[mi].canSignals| == |db[mi].canSignals| &&
      WithValues(db, v)[mi].(canSignals := db[mi].canSignals) == db[mi] &&
      (forall i :: 0 <= i < |db| && i != mi ==> WithValues(db, v)[i] == db[i]) &&
      (forall j :: 0 <= j < |db[mi].canSignals| && j != si ==>
        WithValues(db, v)[mi].canSignals[j] == db[mi].canSignals[j])
  {
  }

  /// Pairs whose number converts are kept in order and the others are
  /// skipped, one by one.
  lemma {:induction false} AcceptedAppend(a: seq<PairMatch>, b: seq<PairMatch>)
    ensures Accepted(a + b) == Accepted(a) + Accepted(b)
    decreases |b|
  {
    if b == [] {
      assert a + b == a;
    } else {
      var b0 := b[..|b| - 1];
      var p := b[|b| - 1];
      var x := if p.value.Some? then [ValuePair(p.value.value, p.description)] else [];
      AcceptedAppend(a, b0);
      assert (a + b)[..|a + b| - 1] == a + b0;
      assert (a + b)[|a + b| - 1] == p;
      assert Accepted(a + b) == Accepted(a + b0) + x;
      assert Accepted(b) == Accepted(b0) + x;
      assert Accepted(a) + Accepted(b0) + x == Accepted(a) + (Accepted(b0) + x);
    }
  }

  lemma {:induction false} AcceptedAll(pairs: seq<PairMatch>)
    requires forall i :: 0 <= i < |pairs| ==> pairs[i].value.Some?
    ensures |Accepted(pairs)| == |pairs|
    ensures forall i :: 0 <= i < |pairs| ==>
      Accepted(pairs)[i] == ValuePair(pairs[i].value.value, pairs[i].description)
  {
    if pairs != [] {
      AcceptedAll(pairs[..|pairs| - 1]);
    }
  }
}
