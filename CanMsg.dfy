/// The CAN data model: identifiers, frames of a log, signal and message
/// definitions and the message database (src/canmsg.h).
module CanMsg {
  import opened Common

  /// Largest identifier that still fits the 11-bit standard format.
  const MaxNormalCanId: nat := 0x7FF
  /// Hex digits shown for a standard and for an extended identifier.
  const NormalCanNibble: nat := 3
  const ExtCanNibble: nat := 8
  /// Bytes of payload a classic CAN frame can carry.
  const CanMaxDlc: nat := 8
  /// The identifier bits kept by the extended-frame mask 0x1FFFFFFF.
  const IdMod: nat := 0x2000_0000

  // ---------------------------------------------------------------------
  // Identifier mask and bit selection

  /// `id & 0x1FFFFFFF` on a 32-bit identifier: the flags above bit 28 are
  /// dropped and the 29 identifier bits are kept.
  function RemoveExtMask(id: nat): (r: nat)
    requires id < U32
    ensures r < IdMod
    ensures (id - r) % IdMod == 0
    ensures id < IdMod ==> r == id
  {
    id % IdMod
  }

  lemma RemoveExtMaskIdempotent(id: nat)
    requires id < U32
    ensures RemoveExtMask(RemoveExtMask(id)) == RemoveExtMask(id)
  {
  }

  /// `input & ((1 << n) - 1)` narrowed to 8 bits: the low `n` bits of a
  /// byte. The shift is on an `int`, so `n` must stay below 31.
  function GetNbit(input: byte, n: nat): (r: byte)
    requires n <= 30
    ensures r <= input && r < Pow2(n)
    ensures n >= 8 ==> r == input
    ensures n == 0 ==> r == 0
    ensures n <= 8 ==> r == input % Pow2(n)
  {
    if n >= 8 then
      Pow2Byte(n);
      input
    else
      ModBounds(input, Pow2(n));
      input % Pow2(n)
  }

  lemma ModBounds(a: nat, m: nat)
    requires m > 0
    ensures a % m <= a && a % m < m && a == a / m * m + a % m
  {
    var q := a / m;
    assert q >= 0;
    assert q * m >= 0;
  }

  lemma Pow2Byte(n: nat)
    requires n >= 8
    ensures Pow2(n) >= 256
  {
    assert Pow2(8) == 256 by {
      assert Pow2(1) == 2 && Pow2(2) == 4 && Pow2(3) == 8 && Pow2(4) == 16;
      assert Pow2(5) == 32 && Pow2(6) == 64 && Pow2(7) == 128;
    }
    Pow2Monotone(8, n);
  }

  // ---------------------------------------------------------------------
  // Frames of a log

  datatype Direction = Rx | Tx

  /// The eight payload bytes of a frame.
  type CanData = s: seq<byte> | |s| == 8 witness [0, 0, 0, 0, 0, 0, 0, 0]

  /// One frame of a log; `time` is in seconds.
  datatype CanLogMsg = CanLogMsg(
    number: nat,
    id: nat,
    time: real,
    channel: byte,
    dlc: byte,
    dir: Direction,
    data: CanData)
  {
    /// The direction marker of a text log. `QString::compare` is zero on
    /// equality, so the first test is taken for every string except "Rx":
    /// "Rx" marks the frame transmitted and everything else received, and
    /// the result is always true.
    function SetDir(str: string): (res: (bool, CanLogMsg))
      ensures res.0
      ensures res.1.dir == (if str == "Rx" then Tx else Rx)
      ensures res.1.(dir := dir) == this
    {
      if str != "Rx" then (true, this.(dir := Rx))
      else if str != "Tx" then (true, this.(dir := Tx))
      else (false, this)
    }
  }

  // ---------------------------------------------------------------------
  // Signal definitions

  /// One (raw value, label) entry of a value table.
  datatype ValuePair = ValuePair(value: real, description: string)

  /// What `display` renders: a label of the value table, or the number
  /// itself as text (`None` is NaN, which renders as text too).
  datatype DisplayText = Label(text: string) | Number(value: Option<real>)

  /// A signal: a bit range of the payload with the way to turn it into a
  /// physical value. Start bit and length are 8-bit fields.
  datatype CanSignal = CanSignal(
    startBit: byte,
    len: byte,
    isBigEndian: bool,
    isSigned: bool,
    scale: real,
    offset: real,
    min: real,
    max: real,
    name: string,
    unit: string,
    receiver: string,
    values: seq<ValuePair>)
  {
    /// Appends one entry to the value table.
    function AddValuePair(p: ValuePair): (s: CanSignal)
      ensures s.values == values + [p]
      ensures |s.values| == |values| + 1 && s.values[|values|] == p
      ensures s.(values := values) == this
    {
      this.(values := values + [p])
    }

    /// The label of the first table entry whose value equals `v` exactly,
    /// otherwise the number. NaN (`None`) equals no entry.
    function Display(v: Option<real>): (t: DisplayText)
      ensures t.Number? <==> (v.None? || forall i :: 0 <= i < |values| ==> values[i].value != v.value)
      ensures t.Number? ==> t.value == v
      ensures t.Label? ==> exists i :: 0 <= i < |values| && values[i].value == v.value
                                   && values[i].description == t.text
                                   && forall j :: 0 <= j < i ==> values[j].value != v.value
    {
      match v
      case None => Number(v)
      case Some(x) =>
        match FirstIndex(values, (p: ValuePair) => p.value == x)
        case None => Number(v)
        case Some(i) => Label(values[i].description)
    }

    /// `display` as the source runs it: a scan of the value table that
    /// stops at the first entry equal to `v`.
    method DisplayScan(v: Option<real>) returns (t: DisplayText)
      ensures t == Display(v)
    {
      if v.None? {
        return Number(v);
      }
      var i := 0;
      while i < |values|
        invariant 0 <= i <= |values|
        invariant forall j :: 0 <= j < i ==> values[j].value != v.value
      {
        if values[i].value == v.value {
          return Label(values[i].description);
        }
        i := i + 1;
      }
      return Number(v);
    }
  }

  // ---------------------------------------------------------------------
  // Message definitions

  /// A display colour (red, green, blue, alpha).
  datatype Color = Color(r: byte, g: byte, b: byte, a: byte)

  /// A message definition with its signals in definition order.
  datatype CanMessage = CanMessage(
    id: nat,
    dlc: byte,
    name: string,
    sender: string,
    canSignals: seq<CanSignal>,
    color: Color)
  {
    /// Appends a signal to the message.
    function AddCanSignal(s: CanSignal): (m: CanMessage)
      ensures m.canSignals == canSignals + [s]
      ensures m.SignalCount() == SignalCount() + 1
      ensures m.(canSignals := canSignals) == this
    {
      this.(canSignals := canSignals + [s])
    }

    function SignalCount(): nat
    {
      |canSignals|
    }

    /// The first signal called `name`, as an index, or `None` for null.
    function FindSignal(name: string): (r: Option<nat>)
      ensures r.Some? ==> r.value < |canSignals| && canSignals[r.value].name == name
      ensures r.Some? ==> forall j :: 0 <= j < r.value ==> canSignals[j].name != name
      ensures r.None? <==> forall j :: 0 <= j < |canSignals| ==> canSignals[j].name != name
    {
      FirstIndex(canSignals, (s: CanSignal) => s.name == name)
    }

    /// `findSignal` as the source runs it: a scan that stops at the first
    /// signal with the name.
    method FindSignalScan(name: string) returns (r: Option<nat>)
      ensures r == FindSignal(name)
    {
      var i := 0;
      while i < |canSignals|
        invariant 0 <= i <= |canSignals|
        invariant forall j :: 0 <= j < i ==> canSignals[j].name != name
      {
        if canSignals[i].name == name {
          return Some(i);
        }
        i := i + 1;
      }
      return None;
    }
  }

  /// A default-constructed message: no signals and a transparent colour.
  /// Its id and dlc are left uninitialised by the constructor; every
  /// message that reaches a database has them set first, so zero stands in.
  const EmptyMessage: CanMessage := CanMessage(0, 0, "", "", [], Color(0, 0, 0, 0))

  // ---------------------------------------------------------------------
  // Identifier formatting

  /// The lower-case digit for 0..15.
  function HexDigit(d: nat): (c: char)
    requires d < 16
    ensures HexValue(c) == d
  {
    if d < 10 then ('0' as int + d) as char else ('a' as int + d - 10) as char
  }

  /// The value of a hexadecimal digit of either case.
  function HexValue(c: char): (v: nat)
    ensures v < 16
  {
    if '0' <= c <= '9' then (c - '0') as nat
    else if 'a' <= c <= 'f' then (c - 'a') as nat + 10
    else if 'A' <= c <= 'F' then (c - 'A') as nat + 10
    else 0
  }

  predicate IsUpperHexDigit(c: char)
  {
    '0' <= c <= '9' || 'A' <= c <= 'F'
  }

  /// Base-16 rendering of a number without leading zeros, in lower case,
  /// as `QString::arg` produces it before padding.
  function Hex(n: nat): (s: string)
    decreases n
  {
    if n < 16 then [HexDigit(n)] else Hex(n / 16) + [HexDigit(n % 16)]
  }

  /// Left padding up to a minimum field width; longer text is kept whole.
  function PadLeft(s: string, width: nat, fill: char): (r: string)
  {
    if |s| >= width then s else seq(width - |s|, _ => fill) + s
  }

  function UpperChar(c: char): char
  {
    if 'a' <= c <= 'z' then (c - 'a' + 'A') as char else c
  }

  function ToUpper(s: string): (r: string)
    ensures |r| == |s|
  {
    seq(|s|, i requires 0 <= i < |s| => UpperChar(s[i]))
  }

  /// The number a string of hexadecimal digits denotes.
  function ParseHex(s: string): (n: nat)
  {
    if s == [] then 0 else ParseHex(s[..|s| - 1]) * 16 + HexValue(s[|s| - 1])
  }

  /// `QString("%1").arg(id, width, 16, '0').toUpper()` with width 3 for a
  /// standard identifier and 8 for an extended one.
  function FormatId(id: nat): (r: string)
    requires id < U32
  {
    ToUpper(PadLeft(Hex(id), if id > MaxNormalCanId then ExtCanNibble else NormalCanNibble, '0'))
  }

  function Pow16(k: nat): (r: nat)
    ensures r >= 1
  {
    if k == 0 then 1 else 16 * Pow16(k - 1)
  }

  lemma Pow16Values()
    ensures Pow16(3) == 0x1000 && Pow16(8) == 0x1_0000_0000
  {
    assert Pow16(2) == 0x100;
    assert Pow16(4) == 0x1_0000;
    assert Pow16(6) == 0x100_0000;
  }

  lemma {:induction false} HexLength(n: nat, k: nat)
    requires n < Pow16(k)
    ensures 1 <= |Hex(n)| && (k >= 1 ==> |Hex(n)| <= k)
    decreases n
  {
    if n >= 16 {
      HexLength(n / 16, k - 1);
    }
  }

  lemma {:induction false} ParseHexAppend(s: string, c: char)
    ensures ParseHex(s + [c]) == ParseHex(s) * 16 + HexValue(c)
  {
    assert (s + [c])[..|s|] == s;
  }

  lemma {:induction false} HexRoundTrip(n: nat)
    ensures ParseHex(Hex(n)) == n
    decreases n
  {
    if n < 16 {
      assert Hex(n) == [HexDigit(n)];
      ParseHexAppend([], HexDigit(n));
    } else {
      HexRoundTrip(n / 16);
      ParseHexAppend(Hex(n / 16), HexDigit(n % 16));
    }
  }

  lemma {:induction false} HexDigitsLower(n: nat)
    ensures forall i :: 0 <= i < |Hex(n)| ==> '0' <= Hex(n)[i] <= '9' || 'a' <= Hex(n)[i] <= 'f'
    ensures forall i :: 0 <= i < |Hex(n)| ==> HexValue(UpperChar(Hex(n)[i])) == HexValue(Hex(n)[i])
    decreases n
  {
    if n >= 16 {
      HexDigitsLower(n / 16);
    }
  }

  lemma {:induction false} ParseHexUpper(s: string)
    requires forall i :: 0 <= i < |s| ==> HexValue(UpperChar(s[i])) == HexValue(s[i])
    ensures ParseHex(ToUpper(s)) == ParseHex(s)
  {
    if s != [] {
      var t := s[..|s| - 1];
      ParseHexUpper(t);
      assert ToUpper(s)[..|s| - 1] == ToUpper(t);
    }
  }

  lemma {:induction false} ParseHexLeadingZeros(z: nat, s: string)
    ensures ParseHex(seq(z, _ => '0') + s) == ParseHex(s)
    decreases |s|
  {
    var zs := seq(z, _ => '0');
    if s == [] {
      assert zs + s == zs;
      ParseHexZeros(z);
    } else {
      var t := s[..|s| - 1];
      ParseHexLeadingZeros(z, t);
      assert (zs + s)[..|zs + s| - 1] == zs + t;
    }
  }

  lemma {:induction false} ParseHexZeros(z: nat)
    ensures ParseHex(seq(z, _ => '0')) == 0
  {
    if z > 0 {
      ParseHexZeros(z - 1);
      assert seq(z, _ => '0')[..z - 1] == seq(z - 1, _ => '0');
    }
  }

  /// The field width `formatId` pads to.
  function IdWidth(id: nat): nat
  {
    if id > MaxNormalCanId then ExtCanNibble else NormalCanNibble
  }

  lemma HexFitsWidth(id: nat)
    requires id < U32
    ensures |Hex(id)| <= IdWidth(id)
  {
    Pow16Values();
    if id <= MaxNormalCanId {
      HexLength(id, 3);
    } else {
      HexLength(id, 8);
    }
  }

  /// Every character of the padded text is a digit whose upper-case form
  /// is an upper-case digit of the same value.
  lemma PaddedDigits(id: nat)
    requires |Hex(id)| <= IdWidth(id)
    ensures var p := PadLeft(Hex(id), IdWidth(id), '0');
      forall i :: 0 <= i < |p| ==>
        HexValue(UpperChar(p[i])) == HexValue(p[i]) && IsUpperHexDigit(UpperChar(p[i]))
  {
    var h := Hex(id);
    var z := IdWidth(id) - |h|;
    var p := PadLeft(h, IdWidth(id), '0');
    assert p == seq(z, _ => '0') + h;
    HexDigitsLower(id);
    forall i | 0 <= i < |p|
      ensures HexValue(UpperChar(p[i])) == HexValue(p[i])
      ensures IsUpperHexDigit(UpperChar(p[i]))
    {
      if i >= z {
        assert p[i] == h[i - z];
      }
    }
  }

  /// The formatted identifier has exactly 3 digits for a standard id and
  /// exactly 8 for an extended one, all upper-case hexadecimal, and reads
  /// back as the identifier.
  lemma FormatIdSpec(id: nat)
    requires id < U32
    ensures |FormatId(id)| == (if id <= MaxNormalCanId then 3 else 8)
    ensures forall i :: 0 <= i < |FormatId(id)| ==> IsUpperHexDigit(FormatId(id)[i])
    ensures ParseHex(FormatId(id)) == id
  {
    var h := Hex(id);
    HexFitsWidth(id);
    var p := PadLeft(h, IdWidth(id), '0');
    assert FormatId(id) == ToUpper(p);
    assert forall i :: 0 <= i < |p| ==> IsUpperHexDigit(UpperChar(p[i])) by {
      PaddedDigits(id);
    }
    assert ParseHex(ToUpper(p)) == id by {
      PaddedDigits(id);
      ParseHexUpper(p);
      assert p == seq(IdWidth(id) - |h|, _ => '0') + h;
      ParseHexLeadingZeros(IdWidth(id) - |h|, h);
      HexRoundTrip(id);
    }
  }

  // ---------------------------------------------------------------------
  // The message database

  /// The first message with identifier `id`, as an index, or `None`.
  function FindMessage(msgs: seq<CanMessage>, id: nat): (r: Option<nat>)
    ensures r.Some? ==> r.value < |msgs| && msgs[r.value].id == id
    ensures r.Some? ==> forall j :: 0 <= j < r.value ==> msgs[j].id != id
    ensures r.None? <==> forall j :: 0 <= j < |msgs| ==> msgs[j].id != id
  {
    FirstIndex(msgs, (m: CanMessage) => m.id == id)
  }

  /// The message list after `setColor(id, color)`.
  function WithColor(msgs: seq<CanMessage>, id: nat, color: Color): (r: seq<CanMessage>)
  {
    match FindMessage(msgs, id)
    case None => msgs
    case Some(i) => msgs[i := msgs[i].(color := color)]
  }

  /// `setColor` recolours the first message with the identifier and
  /// nothing else; for an absent identifier it changes nothing.
  lemma WithColorChangesOnlyFirstMatch(msgs: seq<CanMessage>, id: nat, color: Color)
    ensures |WithColor(msgs, id, color)| == |msgs|
    ensures forall i :: 0 <= i < |msgs| ==>
      WithColor(msgs, id, color)[i].(color := msgs[i].color) == msgs[i]
    ensures forall i :: 0 <= i < |msgs| && WithColor(msgs, id, color)[i] != msgs[i] ==>
      FindMessage(msgs, id) == Some(i)
    ensures FindMessage(msgs, id).Some? ==>
      WithColor(msgs, id, color)[FindMessage(msgs, id).value].color == color
    ensures FindMessage(msgs, id).None? ==> WithColor(msgs, id, color) == msgs
  {
  }

  /// Recolouring keeps every lookup result, and doing it twice is the same
  /// as doing it once.
  lemma WithColorIdempotent(msgs: seq<CanMessage>, id: nat, color: Color)
    ensures WithColor(WithColor(msgs, id, color), id, color) == WithColor(msgs, id, color)
    ensures forall k :: FindMessage(WithColor(msgs, id, color), k) == FindMessage(msgs, k)
  {
    var r := WithColor(msgs, id, color);
    assert forall i :: 0 <= i < |msgs| ==> r[i].id == msgs[i].id;
    forall k
      ensures FindMessage(r, k) == FindMessage(msgs, k)
    {
      FirstIndexSameKeys(msgs, r, k);
    }
  }

  lemma FirstIndexSameKeys(a: seq<CanMessage>, b: seq<CanMessage>, k: nat)
    requires |a| == |b| && forall i :: 0 <= i < |a| ==> a[i].id == b[i].id
    ensures FindMessage(a, k) == FindMessage(b, k)
  {
  }

  /// The message database: messages in insertion order, duplicates kept.
  class CanDb {
    var db: seq<CanMessage>

    constructor ()
      ensures db == []
    {
      db := [];
    }

    /// Appends without looking for an existing message with the same id.
    method AddMessage(msg: CanMessage)
      modifies this
      ensures db == old(db) + [msg]
      ensures MessageCount() == old(MessageCount()) + 1
    {
      db := db + [msg];
    }

    function MessageCount(): nat
      reads this
    {
      |db|
    }

    /// `findMessage`: a scan that stops at the first message with the
    /// identifier.
    method Find(id: nat) returns (r: Option<nat>)
      ensures r == FindMessage(db, id)
    {
      var i := 0;
      while i < |db|
        invariant 0 <= i <= |db|
        invariant forall j :: 0 <= j < i ==> db[j].id != id
      {
        if db[i].id == id {
          return Some(i);
        }
        i := i + 1;
      }
      return None;
    }

    /// Recolours the first message with the identifier, if there is one.
    method SetColor(id: nat, color: Color)
      modifies this
      ensures db == WithColor(old(db), id, color)
    {
      var it := Find(id);
      if it.Some? {
        db := db[it.value := db[it.value].(color := color)];
      }
    }
  }
}
