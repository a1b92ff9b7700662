/// The binary log reader (src/blfparser.cpp): the file header, top-level
/// objects, log containers and the CAN message objects inside them.
///
/// A file is a byte sequence and a read position. Reads follow
/// `QDataStream` on a device: a number that does not fit in the bytes left
/// reads as 0, a raw read keeps the zero fill of its buffer for the bytes
/// that are missing, and every read or skip consumes at most what is left.
/// Decompression (`qUncompress`) is the parameter `inflate`.
module Blf {
  import opened Common
  import opened CanMsg

  const SignatureSize: nat := 4
  const TimeSize: nat := 8
  const HeaderDataSize: nat := 72
  const ObjHeaderSize: nat := 16
  const ContainerHeaderSize: nat := 16
  const LogContainer: nat := 10
  const NoCompress: nat := 0
  const ZlibDeflate: nat := 2
  const CanMsgType: nat := 1
  const CanMsg2Type: nat := 86

  /// "LOBJ" and "LOGG" in ASCII.
  const Lobj: seq<byte> := [0x4C, 0x4F, 0x42, 0x4A]
  const Logg: seq<byte> := [0x4C, 0x4F, 0x47, 0x47]

  /// Inflates a zlib stream whose first four bytes are the big-endian
  /// length of the result; an empty result stands for failure.
  type Inflate = seq<byte> -> seq<byte>

  // ---------------------------------------------------------------------
  // Reading

  function Min(a: nat, b: nat): nat
  {
    if a <= b then a else b
  }

  /// The position after consuming up to `n` bytes at `pos`.
  function Skip(b: seq<byte>, pos: nat, n: nat): (p: nat)
    ensures p == Min(pos + n, |b|)
  {
    if pos + n <= |b| then pos + n else |b|
  }

  /// The little-endian number the bytes spell.
  function LittleEndian(s: seq<byte>): nat
  {
    if s == [] then 0 else s[0] + 256 * LittleEndian(s[1..])
  }

  /// An `n`-byte little-endian number at `pos`, or 0 when fewer than `n`
  /// bytes are left.
  function ReadLE(b: seq<byte>, pos: nat, n: nat): nat
  {
    if pos + n <= |b| then LittleEndian(b[pos..pos + n]) else 0
  }

  /// One byte at `pos`, or 0 past the end.
  function ReadByte(b: seq<byte>, pos: nat): byte
  {
    if pos < |b| then b[pos] else 0
  }

  function Zeros(n: nat): (z: seq<byte>)
    ensures |z| == n && forall i :: 0 <= i < n ==> z[i] == 0
  {
    seq(n, _ => 0)
  }

  /// `readRawData` into an `n`-byte zero-filled buffer: the bytes that are
  /// there, then zeros.
  function RawRead(b: seq<byte>, pos: nat, n: nat): (r: seq<byte>)
    ensures |r| == n
    ensures pos + n <= |b| ==> r == b[pos..pos + n]
  {
    var got := if pos < |b| then b[pos..Min(pos + n, |b|)] else [];
    got + Zeros(n - |got|)
  }

  /// Reading at the position a stream reached is reading at the offset it
  /// would have reached with nothing missing: a short read leaves the
  /// stream at its end, where every later read yields zeros.
  lemma ClampedRead(b: seq<byte>, k: nat, n: nat)
    requires n >= 1
    ensures ReadLE(b, Min(k, |b|), n) == ReadLE(b, k, n)
  {
  }

  lemma ClampedByte(b: seq<byte>, k: nat)
    ensures ReadByte(b, Min(k, |b|)) == ReadByte(b, k)
  {
  }

  lemma ClampedRawRead(b: seq<byte>, k: nat, n: nat)
    ensures RawRead(b, Min(k, |b|), n) == RawRead(b, k, n)
  {
    if k > |b| {
      assert RawRead(b, Min(k, |b|), n) == Zeros(n);
    }
  }

  predicate IsLobjAt(b: seq<byte>, j: nat)
  {
    j + 4 <= |b| && b[j..j + 4] == Lobj
  }

  /// `indexOf("LOBJ", from)`.
  function IndexOf(b: seq<byte>, from: nat): (r: Option<nat>)
    ensures r.Some? ==> from <= r.value && IsLobjAt(b, r.value)
    ensures r.Some? ==> forall j :: from <= j < r.value ==> !IsLobjAt(b, j)
    ensures r.None? ==> forall j :: from <= j ==> !IsLobjAt(b, j)
    decreases |b| - from
  {
    if from + 4 > |b| then None
    else if IsLobjAt(b, from) then Some(from)
    else IndexOf(b, from + 1)
  }

  // ---------------------------------------------------------------------
  // Inner objects (parseObject)

  /// Time unit of a timestamp: 10 microseconds when the flags are 1,
  /// otherwise 1 nanosecond.
  function Resolution(flags: nat): real
  {
    if flags == 1 then 0.00001 else 0.000000001
  }

  /// The frame a CAN message object at `index` decodes to. After the
  /// 16-byte object header come 4 bytes of flags, 4 more bytes for header
  /// versions 1 and 2, the 8-byte timestamp, 8 more bytes for version 2,
  /// then channel (2 bytes), flags (1), dlc (1), identifier (4) and data (8).
  function FrameAt(b: seq<byte>, index: nat, number: nat): CanLogMsg
  {
    var version := ReadLE(b, index + 6, 2);
    var flags := ReadLE(b, index + 16, 4);
    var tsPos := index + 20 + (if version == 1 || version == 2 then 4 else 0);
    var body := tsPos + 8 + (if version == 2 then 8 else 0);
    CanLogMsg(number, ReadLE(b, body + 4, 4) % IdMod, Resolution(flags) * ReadLE(b, tsPos, 8) as real,
              ReadLE(b, body, 2) % 256, ReadByte(b, body + 3), Rx, RawRead(b, body + 8, 8))
  }

  /// What `parseObject` does: its return value, what it stores in `remain`
  /// (`None`: leaves it alone) and the frame it appends.
  datatype ObjectResult = ObjectResult(ret: int, remain: Option<seq<byte>>, frame: Option<CanLogMsg>)

  function ParseObjectSpec(bytes: seq<byte>, counter: nat): (r: ObjectResult)
    ensures r.ret == -1 <==> |bytes| >= ObjHeaderSize && IndexOf(bytes, 0).None?
    ensures r.ret == -1 ==> r.remain.None? && r.frame.None?
    ensures r.ret != -1 ==> (r.remain == Some(bytes) && r.ret == |bytes| && r.frame.None?) || r.remain == Some([])
    ensures r.frame.Some? ==> r.frame.value.number == counter
    ensures |bytes| < ObjHeaderSize ==> r == ObjectResult(|bytes|, Some(bytes), None)
    ensures |bytes| >= ObjHeaderSize && IndexOf(bytes, 0).Some? ==>
      var index := IndexOf(bytes, 0).value;
      var nextPos := index + ReadLE(bytes, index + 8, 4);
      var objType := ReadLE(bytes, index + 12, 4);
      (nextPos > |bytes| ==> r == ObjectResult(|bytes|, Some(bytes), None)) &&
      (nextPos <= |bytes| ==>
        r.remain == Some([]) && r.ret == NextObject(bytes, nextPos) &&
        r.frame == if objType == CanMsgType || objType == CanMsg2Type then Some(FrameAt(bytes, index, counter)) else None)
  {
    if |bytes| < ObjHeaderSize then ObjectResult(|bytes|, Some(bytes), None)
    else match IndexOf(bytes, 0)
      case None => ObjectResult(-1, None, None)
      case Some(index) => ObjectAt(bytes, index, counter)
  }

  /// `parseObject` once the first "LOBJ" is found at `index`: the whole
  /// buffer is kept when the object does not fit, otherwise the object is
  /// consumed, a CAN message object yields a frame, and the return value
  /// is where the next "LOBJ" starts.
  function ObjectAt(bytes: seq<byte>, index: nat, counter: nat): (r: ObjectResult)
  {
    var objSize := ReadLE(bytes, index + 8, 4);
    var objType := ReadLE(bytes, index + 12, 4);
    var nextPos := index + objSize;
    if nextPos > |bytes| then ObjectResult(|bytes|, Some(bytes), None)
    else
      var frame := if objType == CanMsgType || objType == CanMsg2Type
                   then Some(FrameAt(bytes, index, counter)) else None;
      ObjectResult(NextObject(bytes, nextPos), Some([]), frame)
  }

  /// Where the next object starts: the next "LOBJ" at or after `nextPos`,
  /// or else `nextPos + nextPos % 4`.
  function NextObject(bytes: seq<byte>, nextPos: nat): nat
  {
    match IndexOf(bytes, nextPos)
    case Some(i) => i
    case None => nextPos + nextPos % 4
  }

  // ---------------------------------------------------------------------
  // Containers and top-level objects (getObject)

  /// What the reader carries from object to object: the frame counter, the
  /// unfinished object bytes and the frames so far.
  datatype Acc = Acc(counter: nat, remain: seq<byte>, messages: seq<CanLogMsg>)

  function FrameList(f: Option<CanLogMsg>): seq<CanLogMsg>
  {
    if f.Some? then [f.value] else []
  }

  /// The state after one `parseObject`: a frame takes the counter's value
  /// and the 32-bit counter moves on.
  function Apply(acc: Acc, o: ObjectResult): Acc
  {
    Acc(if o.frame.Some? then (acc.counter + 1) % U32 else acc.counter,
        if o.remain.Some? then o.remain.value else acc.remain,
        acc.messages + FrameList(o.frame))
  }

  /// The reassembly loop over a container's bytes: put the unfinished
  /// object in front, parse one object, drop the bytes it says it used;
  /// stop when nothing is left or the return value is not positive.
  function Reassemble(cd: seq<byte>, acc: Acc): Acc
    decreases |cd| + |acc.remain|, |cd|
  {
    if |cd| == 0 then acc
    else
      var buf := if |acc.remain| != 0 then acc.remain + cd else cd;
      var o := ParseObjectSpec(buf, acc.counter);
      if o.ret > 0 then Reassemble(buf[Min(o.ret, |buf|)..], Apply(acc, o)) else Apply(acc, o)
  }

  /// The 4-byte big-endian length `qUncompress` expects in front.
  function SizePrefix(u: nat): (p: seq<byte>)
    ensures |p| == 4
  {
    [(u / 0x100_0000) % 256, (u / 0x1_0000) % 256, (u / 0x100) % 256, u % 256]
  }

  /// The bytes a container hands to the reassembly loop: the data after
  /// its 16-byte header, as is for method 0, inflated after the size
  /// prefix for method 2, and nothing for any other method.
  function ContainerData(objData: seq<byte>, inflate: Inflate): Option<seq<byte>>
  {
    var compression := ReadLE(objData, 0, 2);
    var uncompressSize := ReadLE(objData, 8, 4);
    var payload := objData[Min(ContainerHeaderSize, |objData|)..];
    if compression == NoCompress then Some(payload)
    else if compression == ZlibDeflate then Some(inflate(SizePrefix(uncompressSize) + payload))
    else None
  }

  /// What `getObject` does: its return value, the position after the
  /// object, and the new reader state.
  datatype ObjectStep = ObjectStep(ret: int, pos: nat, acc: Acc)

  function GetObjectSpec(file: seq<byte>, pos: nat, acc: Acc, inflate: Inflate): (r: ObjectStep)
    requires pos <= |file|
    ensures r.pos <= |file|
    ensures pos < |file| ==> r.pos > pos
    ensures r.ret == -1 <==> RawRead(file, pos, SignatureSize) != Lobj
    ensures r.ret != -1 ==> r.ret == 0
  {
    if RawRead(file, pos, SignatureSize) != Lobj then ObjectStep(-1, Skip(file, pos, SignatureSize), acc)
    else
      var objSize := ReadLE(file, pos + 8, 4);
      var objType := ReadLE(file, pos + 12, 4);
      var dataSize := (objSize + U32 - ObjHeaderSize) % U32;
      var objData := RawRead(file, pos + ObjHeaderSize, dataSize);
      var after := Skip(file, pos + ObjHeaderSize, dataSize + dataSize % 4);
      if objType != LogContainer then ObjectStep(0, after, acc)
      else match ContainerData(objData, inflate)
        case None => ObjectStep(0, after, acc)
        case Some(cd) => ObjectStep(0, after, Reassemble(cd, acc))
  }

  // ---------------------------------------------------------------------
  // The file (parse)

  /// The objects from `pos` to the end of the file or the first bad
  /// signature.
  function FileLoop(file: seq<byte>, pos: nat, acc: Acc, inflate: Inflate): Acc
    requires pos <= |file|
    decreases |file| - pos
  {
    if pos >= |file| then acc
    else
      var s := GetObjectSpec(file, pos, acc, inflate);
      if s.ret != 0 then s.acc else FileLoop(file, s.pos, s.acc, inflate)
  }

  /// A date record: eight 16-bit fields, of which the date uses 0, 1 and 3
  /// and the time 4 to 7.
  datatype DateTime = DateTime(year: nat, month: nat, day: nat, hour: nat, minute: nat, second: nat, msec: nat)

  function DateTimeAt(b: seq<byte>, pos: nat): DateTime
  {
    DateTime(ReadLE(b, pos, 2), ReadLE(b, pos + 2, 2), ReadLE(b, pos + 6, 2), ReadLE(b, pos + 8, 2),
             ReadLE(b, pos + 10, 2), ReadLE(b, pos + 12, 2), ReadLE(b, pos + 14, 2))
  }

  /// Where the objects start: after the 72 bytes of fixed header, skipping
  /// `headerSize - 72` more. That difference is a 32-bit unsigned value
  /// cast to `int`; a negative skip is refused and skips nothing.
  function ObjectsStart(file: seq<byte>, headerSize: nat): (p: nat)
    ensures p <= |file|
  {
    var fixed := Skip(file, 0, HeaderDataSize);
    var extra := (headerSize + U32 - HeaderDataSize) % U32;
    if extra < 0x8000_0000 then Skip(file, fixed, extra) else fixed
  }

  /// The outcome of `parse`: the frames, or the exception it throws.
  datatype ParseResult = Frames(messages: seq<CanLogMsg>) | IoError | FormatError

  /// `parse` on a file (`None`: it cannot be opened), with the counter's
  /// value before and after.
  function ParseSpec(file: Option<seq<byte>>, counter: nat, inflate: Inflate): (r: (ParseResult, nat))
    requires file.Some? ==> |file.value| >= SignatureSize
    ensures r.0 == IoError <==> file.None?
    ensures r.0 == FormatError <==> file.Some? && file.value[..SignatureSize] != Logg
    ensures !r.0.Frames? ==> r.1 == counter
  {
    match file
    case None => (IoError, counter)
    case Some(b) =>
      if b[..SignatureSize] != Logg then (FormatError, counter)
      else
        var acc := FileLoop(b, ObjectsStart(b, ReadLE(b, 4, 4)), Acc(counter, [], []), inflate);
        (Frames(acc.messages), acc.counter)
  }

  // ---------------------------------------------------------------------
  // The reader, as the source runs it

  class BlfParser {
    /// Number of the next frame; a 32-bit unsigned counter never reset.
    var counter: nat

    predicate Valid()
      reads this
    {
      counter < U32
    }

    constructor ()
      ensures Valid() && counter == 0
    {
      counter := 0;
    }

    /// `BlfParser::parseObject`.
    method ParseObject(bytes: seq<byte>, remain: seq<byte>, messages: seq<CanLogMsg>)
      returns (ret: int, remainOut: seq<byte>, messagesOut: seq<CanLogMsg>)
      requires Valid()
      modifies this
      ensures Valid()
      ensures Acc(counter, remainOut, messagesOut) ==
              Apply(Acc(old(counter), remain, messages), ParseObjectSpec(bytes, old(counter)))
      ensures ret == ParseObjectSpec(bytes, old(counter)).ret
    {
      remainOut := remain;
      messagesOut := messages;
      var index := IndexOf(bytes, 0);
      if |bytes| < ObjHeaderSize {
        remainOut := bytes;
        return |bytes|, remainOut, messagesOut;
      }
      if index.None? {
        return -1, remainOut, messagesOut;
      }
      ret, remainOut, messagesOut := ParseObjectAt(bytes, index.value, remain, messages);
    }

    /// `parseObject` from the "LOBJ" found at `at` on.
    method ParseObjectAt(bytes: seq<byte>, at: nat, remain: seq<byte>, messages: seq<CanLogMsg>)
      returns (ret: int, remainOut: seq<byte>, messagesOut: seq<CanLogMsg>)
      requires Valid()
      modifies this
      ensures Valid()
      ensures Acc(counter, remainOut, messagesOut) ==
              Apply(Acc(old(counter), remain, messages), ObjectAt(bytes, at, old(counter)))
      ensures ret == ObjectAt(bytes, at, old(counter)).ret
    {
      remainOut := remain;
      messagesOut := messages;
      var pos := Skip(bytes, 0, at + 4);
      var headerSize, headerVersion, objSize, objType;
      headerSize, headerVersion, objSize, objType, pos := ReadObjectHeader(bytes, pos, at);
      var nextPos := at + objSize;
      if nextPos > |bytes| {
        remainOut := bytes;
        return |bytes|, remainOut, messagesOut;
      }
      remainOut := [];

      var frame := ReadObjectBody(bytes, pos, at, headerVersion, objType, counter);
      if frame.Some? {
        counter := (counter + 1) % U32;
        messagesOut := messagesOut + [frame.value];
      }
      var index := IndexOf(bytes, nextPos);
      if index.Some? {
        ret := index.value;
      } else {
        ret := nextPos + nextPos % 4;
      }
      assert ret == NextObject(bytes, nextPos);
    }

    /// The rest of `parseObject` once an object fits in the buffer: the
    /// timestamp fields, then the frame for a CAN message object numbered
    /// `number`. `pos` is where the stream stands after reaching offset
    /// `at + 16`.
    method ReadObjectBody(bytes: seq<byte>, pos: nat, ghost at: nat, headerVersion: nat, objType: nat, number: nat)
      returns (frame: Option<CanLogMsg>)
      requires pos == Min(at + 16, |bytes|) && headerVersion == ReadLE(bytes, at + 6, 2)
      ensures frame == if objType == CanMsgType || objType == CanMsg2Type
                       then Some(FrameAt(bytes, at, number)) else None
    {
      var flags, timestamp, p;
      ghost var body;
      flags, timestamp, p, body := ReadTimestamp(bytes, pos, at, headerVersion);
      var factor := Resolution(flags);
      if objType == CanMsgType || objType == CanMsg2Type {
        var msg := ReadCanMessage(bytes, p, body, number, factor * timestamp as real);
        frame := Some(msg);
      } else {
        frame := None;
      }
    }

    /// The object header fields after the signature at `at`: header size,
    /// header version, object size and object type. `pos` is where the
    /// stream stands after reaching offset `at + 4`.
    method ReadObjectHeader(bytes: seq<byte>, pos: nat, ghost at: nat)
      returns (headerSize: nat, headerVersion: nat, objSize: nat, objType: nat, posOut: nat)
      requires pos == Min(at + 4, |bytes|)
      ensures headerSize == ReadLE(bytes, at + 4, 2) && headerVersion == ReadLE(bytes, at + 6, 2)
      ensures objSize == ReadLE(bytes, at + 8, 4) && objType == ReadLE(bytes, at + 12, 4)
      ensures posOut == Min(at + 16, |bytes|)
    {
      posOut := pos;
      ClampedRead(bytes, at + 4, 2);
      headerSize := ReadLE(bytes, posOut, 2);
      posOut := Skip(bytes, posOut, 2);
      ClampedRead(bytes, at + 6, 2);
      headerVersion := ReadLE(bytes, posOut, 2);
      posOut := Skip(bytes, posOut, 2);
      ClampedRead(bytes, at + 8, 4);
      objSize := ReadLE(bytes, posOut, 4);
      posOut := Skip(bytes, posOut, 4);
      ClampedRead(bytes, at + 12, 4);
      objType := ReadLE(bytes, posOut, 4);
      posOut := Skip(bytes, posOut, 4);
    }

    /// The part of `parseObject` between the object header and the CAN
    /// message fields: flags, the version-dependent fields around the
    /// timestamp, and the timestamp. `pos` is where the stream stands after
    /// reaching offset `at + 16`.
    method ReadTimestamp(bytes: seq<byte>, pos: nat, ghost at: nat, headerVersion: nat)
      returns (flags: nat, timestamp: nat, posOut: nat, ghost body: nat)
      requires pos == Min(at + 16, |bytes|)
      ensures var tsPos := at + 20 + (if headerVersion == 1 || headerVersion == 2 then 4 else 0);
        flags == ReadLE(bytes, at + 16, 4) && timestamp == ReadLE(bytes, tsPos, 8) &&
        body == tsPos + 8 + (if headerVersion == 2 then 8 else 0)
      ensures posOut == Min(body, |bytes|)
    {
      posOut := pos;
      ClampedRead(bytes, at + 16, 4);
      flags := ReadLE(bytes, posOut, 4);
      posOut := Skip(bytes, posOut, 4);
      if headerVersion == 1 {
        posOut := Skip(bytes, posOut, 2);   // client index
        posOut := Skip(bytes, posOut, 2);   // object version
      } else if headerVersion == 2 {
        posOut := Skip(bytes, posOut, 1);   // timestamp status
        posOut := Skip(bytes, posOut, 1);   // reserved
        posOut := Skip(bytes, posOut, 2);   // object version
      }
      ghost var tsPos := at + 20 + (if headerVersion == 1 || headerVersion == 2 then 4 else 0);
      ClampedRead(bytes, tsPos, 8);
      timestamp := ReadLE(bytes, posOut, 8);
      posOut := Skip(bytes, posOut, 8);
      if headerVersion == 2 {
        ghost var p0 := posOut;
        for i := 0 to 8
          invariant posOut == Min(p0 + i, |bytes|)
        {
          posOut := Skip(bytes, posOut, 1);
        }
      }
      body := tsPos + 8 + (if headerVersion == 2 then 8 else 0);
    }

    /// The CAN message fields of `parseObject`, read from `pos`, where the
    /// stream stands after reaching offset `start`.
    method ReadCanMessage(bytes: seq<byte>, pos: nat, ghost start: nat, number: nat, time: real)
      returns (msg: CanLogMsg)
      requires pos == Min(start, |bytes|)
      ensures msg == CanLogMsg(number, ReadLE(bytes, start + 4, 4) % IdMod, time, ReadLE(bytes, start, 2) % 256,
                               ReadByte(bytes, start + 3), Rx, RawRead(bytes, start + 8, 8))
    {
      var p := pos;
      ClampedRead(bytes, start, 2);
      var channel := ReadLE(bytes, p, 2);
      p := Skip(bytes, p, 2);
      p := Skip(bytes, p, 1);   // frame flags
      ClampedByte(bytes, start + 3);
      var dlc := ReadByte(bytes, p);
      p := Skip(bytes, p, 1);
      ClampedRead(bytes, start + 4, 4);
      var id := ReadLE(bytes, p, 4);
      p := Skip(bytes, p, 4);
      ClampedRawRead(bytes, start + 8, 8);
      var data := RawRead(bytes, p, 8);
      msg := CanLogMsg(number, id % IdMod, time, channel % 256, dlc, Rx, data);
    }

    /// `BlfParser::getObject`: one top-level object of the file at `pos`.
    method GetObject(file: seq<byte>, pos: nat, remain: seq<byte>, messages: seq<CanLogMsg>, inflate: Inflate)
      returns (ret: int, posOut: nat, remainOut: seq<byte>, messagesOut: seq<CanLogMsg>)
      requires Valid() && pos <= |file|
      modifies this
      ensures Valid()
      ensures ObjectStep(ret, posOut, Acc(counter, remainOut, messagesOut)) ==
              GetObjectSpec(file, pos, Acc(old(counter), remain, messages), inflate)
    {
      remainOut := remain;
      messagesOut := messages;
      var raw := RawRead(file, pos, SignatureSize);
      posOut := Skip(file, pos, SignatureSize);
      if raw != Lobj {
        return -1, posOut, remainOut, messagesOut;
      }
      posOut := Skip(file, posOut, 2);
      posOut := Skip(file, posOut, 2);
      ClampedRead(file, pos + 8, 4);
      var objSize := ReadLE(file, posOut, 4);
      posOut := Skip(file, posOut, 4);
      ClampedRead(file, pos + 12, 4);
      var objType := ReadLE(file, posOut, 4);
      posOut := Skip(file, posOut, 4);
      var dataSize := (objSize + U32 - ObjHeaderSize) % U32;
      assert posOut == Min(pos + ObjHeaderSize, |file|);
      var objData := RawRead(file, posOut, dataSize);
      ClampedRawRead(file, pos + ObjHeaderSize, dataSize);
      posOut := Skip(file, posOut, dataSize);
      posOut := Skip(file, posOut, dataSize % 4);
      if objType != LogContainer {
        return 0, posOut, remainOut, messagesOut;
      }

      remainOut, messagesOut := ReadContainer(objData, inflate, remain, messages);
      ret := 0;
    }

    /// The log container part of `getObject`: the container header, the
    /// bytes it holds, and the objects in them.
    method ReadContainer(objData: seq<byte>, inflate: Inflate, remain: seq<byte>, messages: seq<CanLogMsg>)
      returns (remainOut: seq<byte>, messagesOut: seq<CanLogMsg>)
      requires Valid()
      modifies this
      ensures Valid()
      ensures Acc(counter, remainOut, messagesOut) ==
              match ContainerData(objData, inflate)
              case None => Acc(old(counter), remain, messages)
              case Some(cd) => Reassemble(cd, Acc(old(counter), remain, messages))
    {
      remainOut := remain;
      messagesOut := messages;
      var compression := ReadLE(objData, 0, 2);
      var uncompressSize := ReadLE(objData, 8, 4);
      var data := objData[Min(ContainerHeaderSize, |objData|)..];
      var needParse := true;
      var containerData: seq<byte> := [];
      if compression == NoCompress {
        containerData := data;
      } else if compression == ZlibDeflate {
        containerData := inflate(SizePrefix(uncompressSize) + data);
      } else {
        needParse := false;
      }
      if needParse {
        remainOut, messagesOut := ReassembleLoop(containerData, remain, messages);
      }
    }

    /// The reassembly loop of `getObject`: while container bytes are left,
    /// prepend the unfinished object, parse one object and drop the bytes
    /// it used; stop on a return value that is not positive.
    method ReassembleLoop(cd: seq<byte>, remain: seq<byte>, messages: seq<CanLogMsg>)
      returns (remainOut: seq<byte>, messagesOut: seq<CanLogMsg>)
      requires Valid()
      modifies this
      ensures Valid()
      ensures Acc(counter, remainOut, messagesOut) == Reassemble(cd, Acc(old(counter), remain, messages))
    {
      var containerData := cd;
      remainOut := remain;
      messagesOut := messages;
      ghost var goal := Reassemble(containerData, Acc(counter, remainOut, messagesOut));
      while |containerData| != 0
        invariant Valid()
        invariant Reassemble(containerData, Acc(counter, remainOut, messagesOut)) == goal
        decreases |containerData| + |remainOut|, |containerData|
      {
        ghost var before := Acc(counter, remainOut, messagesOut);
        ghost var data := containerData;
        if |remainOut| != 0 {
          containerData := remainOut + containerData;
        }
        var r;
        r, remainOut, messagesOut := ParseObject(containerData, remainOut, messagesOut);
        if r > 0 {
          containerData := containerData[Min(r, |containerData|)..];
        } else {
          assert Acc(counter, remainOut, messagesOut) == Reassemble(data, before);
          break;
        }
      }
    }

    /// `BlfParser::getDateTime`: eight 16-bit fields.
    method GetDateTime(b: seq<byte>, pos: nat) returns (dt: DateTime, posOut: nat)
      requires pos <= |b|
      ensures dt == DateTimeAt(b, pos)
      ensures posOut == Skip(b, pos, 2 * TimeSize)
    {
      var raw: seq<nat> := [];
      posOut := pos;
      for i := 0 to TimeSize
        invariant |raw| == i && posOut == Min(pos + 2 * i, |b|)
        invariant forall j :: 0 <= j < i ==> raw[j] == ReadLE(b, pos + 2 * j, 2)
      {
        ClampedRead(b, pos + 2 * i, 2);
        raw := raw + [ReadLE(b, posOut, 2)];
        posOut := Skip(b, posOut, 2);
      }
      dt := DateTime(raw[0], raw[1], raw[3], raw[4], raw[5], raw[6], raw[7]);
    }

    /// The fixed header fields after the signature; only the header size
    /// is kept.
    method ReadHeader(b: seq<byte>, pos: nat) returns (headerSize: nat, posOut: nat)
      requires |b| >= SignatureSize && pos == SignatureSize
      ensures headerSize == ReadLE(b, 4, 4)
      ensures posOut == Skip(b, 0, HeaderDataSize)
    {
      posOut := pos;
      headerSize := ReadLE(b, posOut, 4);
      posOut := Skip(b, posOut, 4);
      posOut := Skip(b, posOut, 1);   // application id
      posOut := Skip(b, posOut, 1);   // application major
      posOut := Skip(b, posOut, 1);   // application minor
      posOut := Skip(b, posOut, 1);   // application build
      posOut := Skip(b, posOut, 1);   // log major
      posOut := Skip(b, posOut, 1);   // log minor
      posOut := Skip(b, posOut, 1);   // log build
      posOut := Skip(b, posOut, 1);   // log patch
      posOut := Skip(b, posOut, 8);   // file size
      posOut := Skip(b, posOut, 8);   // uncompressed size
      posOut := Skip(b, posOut, 4);   // object count
      posOut := Skip(b, posOut, 4);   // objects read
      var startTime;
      startTime, posOut := GetDateTime(b, posOut);
      var stopTime;
      stopTime, posOut := GetDateTime(b, posOut);
    }

    /// The object loop of `parse`: objects from `pos` until the end of the
    /// file or the first bad signature, with nothing carried over at the
    /// start.
    method ReadObjects(b: seq<byte>, pos: nat, inflate: Inflate) returns (messages: seq<CanLogMsg>)
      requires Valid() && pos <= |b|
      modifies this
      ensures Valid()
      ensures var acc := FileLoop(b, pos, Acc(old(counter), [], []), inflate);
        messages == acc.messages && counter == acc.counter
    {
      var p := pos;
      var remain: seq<byte> := [];
      messages := [];
      ghost var goal := FileLoop(b, p, Acc(counter, remain, messages), inflate);
      while p < |b|
        invariant Valid() && p <= |b|
        invariant FileLoop(b, p, Acc(counter, remain, messages), inflate) == goal
        decreases |b| - p
      {
        ghost var before := Acc(counter, remain, messages);
        ghost var p0 := p;
        var ret;
        ret, p, remain, messages := GetObject(b, p, remain, messages, inflate);
        if ret != 0 {
          assert Acc(counter, remain, messages) == FileLoop(b, p0, before, inflate);
          break;
        }
      }
    }

    /// `BlfParser::parse`: the file header, then objects until the end of
    /// the file or a bad signature. `file` is `None` when it cannot be
    /// opened.
    method Parse(file: Option<seq<byte>>, inflate: Inflate) returns (r: ParseResult)
      requires Valid()
      requires file.Some? ==> |file.value| >= SignatureSize
      modifies this
      ensures Valid()
      ensures (r, counter) == ParseSpec(file, old(counter), inflate)
    {
      if file.None? {
        return IoError;
      }
      var b := file.value;
      var raw := b[..SignatureSize];
      var pos := Skip(b, 0, SignatureSize);
      if raw != Logg {
        return FormatError;
      }
      var headerSize;
      headerSize, pos := ReadHeader(b, pos);
      var extra := (headerSize + U32 - HeaderDataSize) % U32;
      if extra < 0x8000_0000 {
        pos := Skip(b, pos, extra);
      }
      assert pos == ObjectsStart(b, headerSize);
      ghost var acc := FileLoop(b, pos, Acc(counter, [], []), inflate);
      assert ParseSpec(file, old(counter), inflate) == (Frames(acc.messages), acc.counter);
      var messages := ReadObjects(b, pos, inflate);
      r := Frames(messages);
    }
  }
}
