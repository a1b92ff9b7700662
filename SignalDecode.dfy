/// The bit-field decoder (src/canmsg.cpp): cutting a signal out of a frame
/// payload, assembling the raw value, applying the sign rule and the
/// linear scaling, and sampling a signal along a log.
module SignalDecode {
  import opened Common
  import opened CanMsg

  const BitsInByte: nat := 8

  // ---------------------------------------------------------------------
  // Extraction: the `while (len)` loop

  /// Bits taken by the next chunk at `startBit` with `len` bits left: a
  /// whole byte when aligned and at least 8 bits remain, otherwise the
  /// rest of the current byte or the rest of the signal, whichever is less.
  function ChunkWidth(startBit: nat, len: nat): (w: nat)
    requires len > 0
    ensures 1 <= w <= BitsInByte && w <= len
    ensures w == len || (startBit + w) % BitsInByte == 0
  {
    var remain := startBit % BitsInByte;
    if remain == 0 then
      if len >= BitsInByte then BitsInByte else len
    else
      var bit2Get := BitsInByte - remain;
      if bit2Get < len then bit2Get else len
  }

  /// The value of the next chunk: the byte itself, or `GetNbit` of the byte
  /// shifted down by the bit offset inside it.
  function ChunkValue(input: CanData, startBit: nat, len: nat): (v: byte)
    requires len > 0 && startBit < 64
    ensures v < Pow2(ChunkWidth(startBit, len))
  {
    var remain := startBit % BitsInByte;
    var b := input[startBit / BitsInByte];
    if remain == 0 then
      if len >= BitsInByte then
        Pow2Byte(BitsInByte);
        b
      else
        GetNbit(b, len)
    else
      var shifted := ShiftRight(b, remain);
      var bit2Get := BitsInByte - remain;
      if bit2Get < len then GetNbit(shifted, bit2Get) else GetNbit(shifted, len)
  }

  /// `b >> k` on a byte.
  function ShiftRight(b: byte, k: nat): (r: byte)
    ensures r <= b
  {
    if k == 0 then b else ShiftRight(b / 2, k - 1)
  }

  /// The chunks cut from the payload, in extraction order.
  function Chunks(input: CanData, startBit: nat, len: nat): (c: seq<byte>)
    requires startBit + len <= 64
    decreases len
  {
    if len == 0 then []
    else
      var w := ChunkWidth(startBit, len);
      [ChunkValue(input, startBit, len)] + Chunks(input, startBit + w, len - w)
  }

  /// The width of each chunk, in extraction order.
  function Widths(startBit: nat, len: nat): (ws: seq<nat>)
    decreases len
  {
    if len == 0 then []
    else
      var w := ChunkWidth(startBit, len);
      [w] + Widths(startBit + w, len - w)
  }

  function Sum(ws: seq<nat>): nat
  {
    if ws == [] then 0 else ws[0] + Sum(ws[1..])
  }

  /// Bytes of the payload that bits `startBit .. startBit + len - 1` touch.
  function BytesSpanned(startBit: nat, len: nat): nat
  {
    if len == 0 then 0 else (startBit + len - 1) / BitsInByte - startBit / BitsInByte + 1
  }

  /// Every chunk is 1 to 8 bits wide and fits its width, the widths add up
  /// to the signal length, and there is one chunk per payload byte touched.
  lemma ChunksShape(input: CanData, startBit: nat, len: nat)
    requires startBit + len <= 64
    ensures |Chunks(input, startBit, len)| == |Widths(startBit, len)| == BytesSpanned(startBit, len)
    ensures Sum(Widths(startBit, len)) == len
    ensures forall i :: 0 <= i < |Widths(startBit, len)| ==>
      1 <= Widths(startBit, len)[i] <= BitsInByte &&
      Chunks(input, startBit, len)[i] < Pow2(Widths(startBit, len)[i])
  {
    WidthsShape(startBit, len);
    ChunksFitWidths(input, startBit, len);
  }

  lemma {:induction false} WidthsShape(startBit: nat, len: nat)
    ensures |Widths(startBit, len)| == BytesSpanned(startBit, len)
    ensures Sum(Widths(startBit, len)) == len
    ensures forall i :: 0 <= i < |Widths(startBit, len)| ==> 1 <= Widths(startBit, len)[i] <= BitsInByte
    decreases len
  {
    if len > 0 {
      var w := ChunkWidth(startBit, len);
      var rest := Widths(startBit + w, len - w);
      WidthsShape(startBit + w, len - w);
      var ws := Widths(startBit, len);
      assert ws == [w] + rest;
      assert ws[1..] == rest;
      forall i | 0 <= i < |ws|
        ensures 1 <= ws[i] <= BitsInByte
      {
        if i > 0 {
          assert ws[i] == rest[i - 1];
        }
      }
    }
  }

  lemma {:induction false} ChunksFitWidths(input: CanData, startBit: nat, len: nat)
    requires startBit + len <= 64
    ensures Fits(Chunks(input, startBit, len), Widths(startBit, len))
    decreases len
  {
    if len == 0 {
      assert Chunks(input, startBit, len) == [] && Widths(startBit, len) == [];
    } else {
      var w := ChunkWidth(startBit, len);
      ChunksFitWidths(input, startBit + w, len - w);
      ChunksStep(input, startBit, len);
      WidthsStep(startBit, len);
      ConsFits(ChunkValue(input, startBit, len), w, Chunks(input, startBit + w, len - w), Widths(startBit + w, len - w));
    }
  }

  lemma WidthsStep(startBit: nat, len: nat)
    requires len > 0
    ensures var w := ChunkWidth(startBit, len);
      Widths(startBit, len) == [w] + Widths(startBit + w, len - w)
  {
  }

  /// Each chunk fits in the width at the same position.
  predicate Fits(c: seq<byte>, ws: seq<nat>)
  {
    |c| == |ws| && forall i :: 0 <= i < |ws| ==> c[i] < Pow2(ws[i])
  }

  lemma ConsFits(x: byte, w: nat, cr: seq<byte>, wr: seq<nat>)
    requires x < Pow2(w) && Fits(cr, wr)
    ensures Fits([x] + cr, [w] + wr)
  {
    forall i | 0 <= i < |[w] + wr|
      ensures ([x] + cr)[i] < Pow2(([w] + wr)[i])
    {
      if i > 0 {
        assert ([x] + cr)[i] == cr[i - 1] && ([w] + wr)[i] == wr[i - 1];
      }
    }
  }

  // ---------------------------------------------------------------------
  // Assembly into a 64-bit raw value

  /// Big-endian assembly: `raw <<= 8; raw += d` on a 64-bit unsigned value
  /// for every chunk in extraction order, whatever the chunk's width.
  function BigEndianRaw(c: seq<byte>): (raw: nat)
    ensures raw < U64
  {
    if c == [] then 0 else (BigEndianRaw(c[..|c| - 1]) * 256 + c[|c| - 1]) % U64
  }

  /// The number the chunks spell as base-256 digits, most significant first.
  function BigEndianValue(c: seq<byte>): nat
  {
    if c == [] then 0 else BigEndianValue(c[..|c| - 1]) * 256 + c[|c| - 1]
  }

  function Pow256(k: nat): (r: nat)
    ensures r >= 1
  {
    if k == 0 then 1 else 256 * Pow256(k - 1)
  }

  lemma {:induction false} BigEndianValueBound(c: seq<byte>)
    ensures BigEndianValue(c) < Pow256(|c|)
  {
    if c != [] {
      BigEndianValueBound(c[..|c| - 1]);
      var p := BigEndianValue(c[..|c| - 1]);
      assert p * 256 + c[|c| - 1] < (p + 1) * 256;
      assert (p + 1) * 256 <= Pow256(|c| - 1) * 256;
    }
  }

  lemma Pow256Eight()
    ensures Pow256(8) == U64
  {
  }

  lemma {:induction false} Pow256Monotone(a: nat, b: nat)
    requires a <= b
    ensures Pow256(a) <= Pow256(b)
  {
    if a < b {
      Pow256Monotone(a, b - 1);
    }
  }

  /// With at most eight chunks the 64-bit shifts never overflow: the raw
  /// value is the base-256 number of the chunks.
  lemma {:induction false} BigEndianNoWrap(c: seq<byte>)
    requires |c| <= 8
    ensures BigEndianRaw(c) == BigEndianValue(c)
  {
    if c != [] {
      var init := c[..|c| - 1];
      BigEndianNoWrap(init);
      BigEndianValueBound(c);
      Pow256Monotone(|c|, 8);
      Pow256Eight();
    }
  }

  lemma ShiftDigit(a: int, p: int, b: int, d: int)
    ensures (a * p + b) * 256 + d == a * (256 * p) + (b * 256 + d)
  {
    assert (a * p) * 256 == a * (256 * p);
  }

  /// The first chunk extracted is the most significant digit.
  lemma {:induction false} BigEndianFirstMostSignificant(c: seq<byte>)
    requires |c| >= 1
    ensures BigEndianValue(c) == c[0] * Pow256(|c| - 1) + BigEndianValue(c[1..])
  {
    if |c| > 1 {
      var init := c[..|c| - 1];
      BigEndianFirstMostSignificant(init);
      assert init[1..] == c[1..][..|c| - 2];
      assert init[0] == c[0];
      var a, p, b, d := c[0] as int, Pow256(|c| - 2), BigEndianValue(init[1..]), c[|c| - 1] as int;
      assert Pow256(|c| - 1) == 256 * p;
      ShiftDigit(a, p, b, d);
      calc {
        BigEndianValue(c);
        BigEndianValue(init) * 256 + d;
        (a * p + b) * 256 + d;
        a * Pow256(|c| - 1) + (b * 256 + d);
        c[0] * Pow256(|c| - 1) + BigEndianValue(c[1..]);
      }
    } else {
      assert c[..0] == [];
    }
  }

  /// `d << shift` computed on an `int` and then added to the 64-bit raw
  /// value: the shifted value is reduced to 32 bits and read as signed, and
  /// a negative int is sign-extended when it widens to 64 bits.
  function WidenedShift(d: byte, shift: nat): (v: nat)
    requires shift <= 24
    ensures v < U64
  {
    var asInt := (d * Pow2(shift)) % U32;
    if asInt < 0x8000_0000 then asInt else asInt + U64 - U32
  }

  /// Little-endian assembly: chunk `i` is added shifted left by `8 * i`.
  /// The shift is on an `int`, so only four chunks fit.
  function LittleEndianRaw(c: seq<byte>): (raw: nat)
    requires |c| <= 4
    ensures raw < U64
  {
    if c == [] then 0
    else (LittleEndianRaw(c[..|c| - 1]) + WidenedShift(c[|c| - 1], 8 * (|c| - 1))) % U64
  }

  /// The number the chunks spell as base-256 digits, least significant first.
  function LittleEndianValue(c: seq<byte>): nat
  {
    if c == [] then 0 else LittleEndianValue(c[..|c| - 1]) + c[|c| - 1] * Pow256(|c| - 1)
  }

  lemma {:induction false} LittleEndianValueBound(c: seq<byte>)
    ensures LittleEndianValue(c) < Pow256(|c|)
  {
    if c != [] {
      var k := |c| - 1;
      LittleEndianValueBound(c[..k]);
      var p := Pow256(k);
      var d: nat := c[k];
      MulLe(d, 255, p);
      assert LittleEndianValue(c) == LittleEndianValue(c[..k]) + d * p;
      assert LittleEndianValue(c) < p + 255 * p;
    }
  }

  lemma MulLe(a: nat, b: nat, m: nat)
    requires a <= b
    ensures a * m <= b * m
  {
  }

  lemma Pow2Pow256(i: nat)
    requires i <= 3
    ensures Pow2(8 * i) == Pow256(i)
  {
    Pow2Values();
    if i == 0 {
    } else if i == 1 {
      assert Pow256(1) == 256;
    } else if i == 2 {
      assert Pow256(2) == 0x1_0000;
    } else {
      assert Pow256(3) == 0x100_0000;
    }
  }

  /// Up to three chunks, or a fourth chunk below 0x80, assemble to the
  /// base-256 number with the first chunk least significant.
  lemma {:induction false} LittleEndianNoSignExtension(c: seq<byte>)
    requires |c| <= 3 || (|c| == 4 && c[3] < 0x80)
    ensures LittleEndianRaw(c) == LittleEndianValue(c)
  {
    if c != [] {
      var k := |c| - 1;
      var init := c[..k];
      LittleEndianNoSignExtension(init);
      LittleEndianValueBound(c);
      WidenedShiftExact(c[k], k);
      Pow256Monotone(|c|, 8);
      Pow256Eight();
      var v := LittleEndianValue(c);
      assert LittleEndianRaw(init) + WidenedShift(c[k], 8 * k) == v;
      RawStep(c);
      ModSmall(v, U64);
    }
  }

  lemma RawStep(c: seq<byte>)
    requires 0 < |c| <= 4
    ensures LittleEndianRaw(c) ==
      (LittleEndianRaw(c[..|c| - 1]) + WidenedShift(c[|c| - 1], 8 * (|c| - 1))) % U64
  {
  }

  /// The shifted `int` stays positive while the shift is below 24 bits, or
  /// the byte shifted by 24 bits is below 0x80.
  lemma WidenedShiftExact(d: byte, k: nat)
    requires k <= 3 && (k < 3 || d < 0x80)
    ensures WidenedShift(d, 8 * k) == d * Pow256(k)
  {
    Pow2Pow256(k);
    var p := Pow256(k);
    if k < 3 {
      assert p <= 0x1_0000 by {
        if k == 2 { assert p == 0x1_0000; } else if k == 1 { assert p == 256; }
      }
      MulLe(d, 255, p);
      MulLe(p, 0x1_0000, 255);
    } else {
      assert p == 0x100_0000;
      MulLe(d, 0x7F, p);
    }
    var x := d * p;
    assert x < 0x8000_0000;
    ModSmall(x, U32);
    assert (d * Pow2(8 * k)) % U32 == x;
  }

  lemma ModSmall(x: nat, m: nat)
    requires x < m
    ensures x % m == x
  {
  }

  /// A fourth little-endian chunk of 0x80 or more is sign-extended: the
  /// raw value of the 32-bit payload 00 00 00 80 has its upper 32 bits set.
  lemma LittleEndianFourthChunkSignExtends()
    ensures LittleEndianRaw([0, 0, 0, 0x80]) == 0xFFFF_FFFF_8000_0000
    ensures LittleEndianValue([0, 0, 0, 0x80]) == 0x8000_0000
  {
    var c: seq<byte> := [0, 0, 0, 0x80];
    assert c[..3] == [0, 0, 0];
    assert LittleEndianRaw([0, 0, 0]) == 0 && LittleEndianValue([0, 0, 0]) == 0 by {
      LittleEndianNoSignExtension([0, 0, 0]);
      assert [0, 0, 0][..2] == [0, 0];
      assert [0, 0][..1] == [0];
      assert [0][..0] == [];
    }
    assert Pow2(24) == 0x100_0000 && Pow256(3) == 0x100_0000 by {
      Pow2Values();
    }
    assert WidenedShift(0x80, 24) == 0xFFFF_FFFF_8000_0000;
  }

  // ---------------------------------------------------------------------
  // Sign rule and scaling

  /// An unsigned 64-bit value reinterpreted as `int64_t`.
  function ToInt64(u: nat): (v: int)
    requires u < U64
    ensures -0x8000_0000_0000_0000 <= v < 0x8000_0000_0000_0000
  {
    if u < 0x8000_0000_0000_0000 then u else u - U64
  }

  /// The integer a raw value stands for. A signed signal whose raw value
  /// shifted right by `len - 1` is non-zero becomes
  /// `(int64_t)(raw - mask - 1)` with `mask = 2^len - 1` (all ones for a
  /// 64-bit signal); everything else is the raw value itself.
  function Interpret(isSigned: bool, len: nat, raw: nat): (v: int)
    requires 1 <= len <= 64 && raw < U64
  {
    Pow2AtMost64(len);
    if isSigned && raw / Pow2(len - 1) != 0 then
      ToInt64((raw + U64 - Pow2(len)) % U64)
    else
      raw
  }

  /// For a raw value that fits the signal length, the sign rule is the
  /// two's-complement reading of `len` bits: the shifted test is the top
  /// bit, and the result lies in [-2^(len-1), 2^(len-1)).
  lemma TwosComplement(len: nat, raw: nat)
    requires 1 <= len <= 64 && raw < Pow2(len)
    ensures raw < U64
    ensures Interpret(true, len, raw) == if raw >= Pow2(len - 1) then raw - Pow2(len) else raw
    ensures -(Pow2(len - 1) as int) <= Interpret(true, len, raw) < Pow2(len - 1)
    ensures Interpret(false, len, raw) == raw
  {
    Pow2AtMost64(len);
    var p := Pow2(len - 1);
    assert Pow2(len) == 2 * p;
    if raw >= p {
      DivAtLeastOne(raw, p);
      var u := raw + U64 - 2 * p;
      assert U64 - p <= u < U64;
      ModSmall(u, U64);
      assert ToInt64(u) == raw - 2 * p;
    } else {
      DivSmall(raw, p);
    }
  }

  lemma DivAtLeastOne(a: nat, m: nat)
    requires 1 <= m <= a
    ensures a / m >= 1
  {
  }

  lemma DivSmall(a: nat, m: nat)
    requires a < m
    ensures a / m == 0
  {
  }

  /// The sign test looks at every bit from `len - 1` up, not at bit
  /// `len - 1` alone: a 4-bit raw value of 16 has bit 3 clear but reads as
  /// negative-offset, giving 16 - 16 = 0.
  lemma SignTestIsShiftNotBit()
    ensures Interpret(true, 4, 16) == 0
  {
    Pow2Values();
    assert Pow2(4) == 16;
    assert Pow2(3) == 8;
  }

  /// `raw * scale + offset`, exact in this model.
  function Physical(s: CanSignal, v: int): real
  {
    v as real * s.scale + s.offset
  }

  // ---------------------------------------------------------------------
  // parseSignal

  /// `input.at(i)` throws for i >= 8: every byte index read must be in the
  /// payload whenever the range check lets the signal through.
  predicate ReadsInPayload(s: CanSignal, dlc: nat)
  {
    s.len == 0 || s.startBit + s.len > dlc * BitsInByte || s.startBit + s.len <= 64
  }

  /// Little-endian assembly shifts an `int`: a shift of 32 or more is
  /// undefined, so a little-endian signal must span at most four bytes.
  predicate ShiftsDefined(s: CanSignal, dlc: nat)
  {
    s.isBigEndian || s.len == 0 || s.startBit + s.len > dlc * BitsInByte ||
    BytesSpanned(s.startBit, s.len) <= 4
  }

  predicate Decodable(s: CanSignal, dlc: nat)
  {
    ReadsInPayload(s, dlc) && ShiftsDefined(s, dlc)
  }

  /// The value of signal `s` in payload `input` of `dlc` bytes; `None` is
  /// NaN.
  function Decode(s: CanSignal, input: CanData, dlc: nat): (r: Option<real>)
    requires Decodable(s, dlc)
  {
    if s.startBit + s.len > dlc * BitsInByte || s.len == 0 then None
    else
      var c := Chunks(input, s.startBit, s.len);
      ChunksShape(input, s.startBit, s.len);
      var raw := if s.isBigEndian then BigEndianRaw(c) else LittleEndianRaw(c);
      Some(Physical(s, Interpret(s.isSigned, s.len, raw)))
  }

  /// The `while (len)` loop of `parseSignal`: cut the signal's bits into
  /// chunks, one per payload byte touched.
  method ExtractChunks(input: CanData, start: nat, length: nat) returns (dataBytes: seq<byte>)
    requires start + length <= 64
    ensures dataBytes == Chunks(input, start, length)
  {
    var len: nat := length;
    var startBit: nat := start;
    dataBytes := [];
    while len != 0
      invariant startBit + len <= 64
      invariant dataBytes + Chunks(input, startBit, len) == Chunks(input, start, length)
      decreases len
    {
      ghost var d0, s0, l0 := dataBytes, startBit, len;
      ghost var rest := Chunks(input, s0 + ChunkWidth(s0, l0), l0 - ChunkWidth(s0, l0));
      ChunksStep(input, s0, l0);
      var d;
      d, startBit, len := TakeChunk(input, startBit, len);
      dataBytes := dataBytes + [d];
      RestAfterChunk(input, s0, l0, startBit, len);
      SnocStep(d0, d, Chunks(input, s0, l0), rest);
    }
  }

  /// After a pass, the chunks still to take are those after the one taken,
  /// whether or not the pass moved `startBit`.
  lemma RestAfterChunk(input: CanData, s0: nat, l0: nat, s1: nat, l1: nat)
    requires l0 > 0 && s0 + l0 <= 64 && s1 + l1 <= 64
    requires l1 == l0 - ChunkWidth(s0, l0)
    requires l1 == 0 || s1 == s0 + ChunkWidth(s0, l0)
    ensures Chunks(input, s1, l1) == Chunks(input, s0 + ChunkWidth(s0, l0), l0 - ChunkWidth(s0, l0))
  {
  }

  /// Moving the head of `c` onto the end of `d0` leaves the concatenation
  /// unchanged.
  lemma SnocStep<T>(d0: seq<T>, d: T, c: seq<T>, rest: seq<T>)
    requires c == [d] + rest
    ensures (d0 + [d]) + rest == d0 + c
  {
    AppendAssoc(d0, [d], rest);
  }

  lemma AppendAssoc<T>(a: seq<T>, b: seq<T>, c: seq<T>)
    ensures (a + b) + c == a + (b + c)
  {
  }

  lemma ChunksStep(input: CanData, startBit: nat, len: nat)
    requires len > 0 && startBit + len <= 64
    ensures var w := ChunkWidth(startBit, len);
      Chunks(input, startBit, len) == [ChunkValue(input, startBit, len)] + Chunks(input, startBit + w, len - w)
  {
  }

  /// One pass of the `while (len)` loop: the chunk taken and the new
  /// `startBit` and `len`. A pass that ends the signal sets `len` to 0 and
  /// leaves `startBit` alone.
  method TakeChunk(input: CanData, startBit: nat, len: nat) returns (d: byte, startOut: nat, lenOut: nat)
    requires len > 0 && startBit + len <= 64
    ensures d == ChunkValue(input, startBit, len)
    ensures lenOut == len - ChunkWidth(startBit, len)
    ensures lenOut == 0 || startOut == startBit + ChunkWidth(startBit, len)
    ensures startOut + lenOut <= 64
  {
    var remain := startBit % BitsInByte;
    startOut, lenOut := startBit, 0;
    if remain == 0 {
      if len >= BitsInByte {
        d := input[startBit / BitsInByte];
        startOut := startBit + BitsInByte;
        lenOut := len - BitsInByte;
      } else {
        d := GetNbit(input[startBit / BitsInByte], len);
      }
    } else {
      var bit2Get := BitsInByte - remain;
      if bit2Get < len {
        d := GetNbit(ShiftRight(input[startBit / BitsInByte], remain), bit2Get);
        startOut := startBit + bit2Get;
        lenOut := len - bit2Get;
      } else {
        d := GetNbit(ShiftRight(input[startBit / BitsInByte], remain), len);
      }
    }
  }

  /// The big-endian assembly loop of `parseSignal`.
  method AssembleBigEndian(dataBytes: seq<byte>) returns (raw: nat)
    ensures raw == BigEndianRaw(dataBytes)
  {
    raw := 0;
    for i := 0 to |dataBytes|
      invariant raw == BigEndianRaw(dataBytes[..i])
    {
      assert dataBytes[..i + 1][..i] == dataBytes[..i];
      raw := (raw * 256 + dataBytes[i]) % U64;
    }
    assert dataBytes[..|dataBytes|] == dataBytes;
  }

  /// The little-endian assembly loop of `parseSignal`.
  method AssembleLittleEndian(dataBytes: seq<byte>) returns (raw: nat)
    requires |dataBytes| <= 4
    ensures raw == LittleEndianRaw(dataBytes)
  {
    raw := 0;
    var shiftCnt := 0;
    for i := 0 to |dataBytes|
      invariant raw == LittleEndianRaw(dataBytes[..i])
      invariant shiftCnt == BitsInByte * i
    {
      assert dataBytes[..i + 1][..i] == dataBytes[..i];
      raw := (raw + WidenedShift(dataBytes[i], shiftCnt)) % U64;
      shiftCnt := shiftCnt + BitsInByte;
    }
    assert dataBytes[..|dataBytes|] == dataBytes;
  }

  /// `CanSignal::parseSignal`.
  method ParseSignal(s: CanSignal, input: CanData, dlc: byte) returns (r: Option<real>)
    requires Decodable(s, dlc)
    ensures r.None? <==> (s.len == 0 || s.startBit + s.len > dlc * BitsInByte)
    ensures r == Decode(s, input, dlc)
  {
    if s.startBit + s.len > dlc * BitsInByte || s.len == 0 {
      return None;
    }
    var dataBytes := ExtractChunks(input, s.startBit, s.len);
    ChunksShape(input, s.startBit, s.len);
    var raw: nat;
    if s.isBigEndian {
      raw := AssembleBigEndian(dataBytes);
    } else {
      raw := AssembleLittleEndian(dataBytes);
    }
    var ret := Interpret(s.isSigned, s.len, raw);
    return Some(Physical(s, ret));
  }

  // ---------------------------------------------------------------------
  // Published examples

  function TestSignal(isBigEndian: bool, isSigned: bool, scale: real, offset: real): CanSignal
  {
    CanSignal(0, 16, isBigEndian, isSigned, scale, offset, 0.0, 0.0, "", "", "", [])
  }

  /// A 16-bit signal at bit 0 is the first two payload bytes, whole.
  lemma TwoWholeBytes(d: CanData)
    ensures Chunks(d, 0, 16) == [d[0], d[1]]
  {
    assert ChunkWidth(0, 16) == 8 && ChunkWidth(8, 8) == 8;
    assert Chunks(d, 16, 0) == [];
  }

  lemma TwoBytesBigEndian(a: byte, b: byte)
    ensures BigEndianRaw([a, b]) == a * 256 + b
  {
    assert [a, b][..1] == [a];
    assert [a][..0] == [];
    assert BigEndianRaw([a]) == a;
    assert BigEndianRaw([a, b]) == (a * 256 + b) % U64;
  }

  lemma TwoBytesLittleEndian(a: byte, b: byte)
    ensures LittleEndianRaw([a, b]) == a + b * 256
  {
    assert [a, b][..1] == [a];
    assert [a][..0] == [];
    Pow2Byte(8);
    assert LittleEndianRaw([a]) == a;
    assert WidenedShift(b, 8) == b * 256;
    assert LittleEndianRaw([a, b]) == (a + b * 256) % U64;
  }

  /// The bytes 12 34 in a two-byte frame, as an unsigned 16-bit signal at
  /// bit 0: 0x1234 big-endian, 0x3412 little-endian.
  lemma ExampleByteOrder()
    ensures Decode(TestSignal(true, false, 1.0, 0.0), [0x12, 0x34, 0, 0, 0, 0, 0, 0], 2) == Some(0x1234 as real)
    ensures Decode(TestSignal(false, false, 1.0, 0.0), [0x12, 0x34, 0, 0, 0, 0, 0, 0], 2) == Some(0x3412 as real)
  {
    TwoWholeBytes([0x12, 0x34, 0, 0, 0, 0, 0, 0]);
    TwoBytesBigEndian(0x12, 0x34);
    TwoBytesLittleEndian(0x12, 0x34);
  }

  /// The same little-endian signal with offset 6 is 0x3418, and with
  /// scale 0.5 as well 0x1A0F.
  lemma ExampleScaling()
    ensures Decode(TestSignal(false, false, 1.0, 6.0), [0x12, 0x34, 0, 0, 0, 0, 0, 0], 2) == Some(0x3418 as real)
    ensures Decode(TestSignal(false, false, 0.5, 6.0), [0x12, 0x34, 0, 0, 0, 0, 0, 0], 2) == Some(0x1A0F as real)
  {
    TwoWholeBytes([0x12, 0x34, 0, 0, 0, 0, 0, 0]);
    TwoBytesLittleEndian(0x12, 0x34);
  }

  /// The bytes 12 FF as a signed little-endian 16-bit signal are -238.
  lemma ExampleSigned()
    ensures Decode(TestSignal(false, true, 1.0, 0.0), [0x12, 0xFF, 0, 0, 0, 0, 0, 0], 2) == Some(-238 as real)
  {
    TwoWholeBytes([0x12, 0xFF, 0, 0, 0, 0, 0, 0]);
    TwoBytesLittleEndian(0x12, 0xFF);
    assert Pow2(16) == 0x1_0000 && Pow2(15) == 0x8000 by {
      Pow2Values();
      assert Pow2(16) == 2 * Pow2(15);
    }
    TwosComplement(16, 0xFF12);
  }

  // ---------------------------------------------------------------------
  // getSignalGraph

  /// A point of a signal graph: time and value (`None` is NaN).
  datatype Point = Point(time: real, value: Option<real>)

  predicate DecodableIn(s: CanSignal, id: nat, log: seq<CanLogMsg>)
  {
    forall k :: 0 <= k < |log| && log[k].id == id ==> Decodable(s, log[k].dlc)
  }

  /// One point per frame with the identifier, in log order.
  function MatchPoints(s: CanSignal, id: nat, log: seq<CanLogMsg>): (ps: seq<Point>)
    requires DecodableIn(s, id, log)
  {
    if log == [] then []
    else
      var init := log[..|log| - 1];
      var last := log[|log| - 1];
      assert DecodableIn(s, id, init);
      MatchPoints(s, id, init) +
        (if last.id == id then [Point(last.time, Decode(s, last.data, last.dlc))] else [])
  }

  /// Points of the frames with the identifier, preceded, when there is at
  /// least one, by a copy of the first at the log's first timestamp.
  function Graph(s: CanSignal, id: nat, log: seq<CanLogMsg>): (ps: seq<Point>)
    requires |log| > 0 && DecodableIn(s, id, log)
  {
    WithLead(log[0].time, MatchPoints(s, id, log))
  }

  /// `m` preceded, when not empty, by a copy of its first point at time `t`.
  function WithLead(t: real, m: seq<Point>): seq<Point>
  {
    if m == [] then [] else [Point(t, m[0].value)] + m
  }

  lemma WithLeadSnoc(t: real, m: seq<Point>, p: Point)
    ensures WithLead(t, m + [p]) == (if m == [] then [Point(t, p.value)] else WithLead(t, m)) + [p]
  {
    if m != [] {
      assert (m + [p])[0] == m[0];
      assert [Point(t, m[0].value)] + (m + [p]) == ([Point(t, m[0].value)] + m) + [p];
    }
  }

  lemma DecodablePrefix(s: CanSignal, id: nat, log: seq<CanLogMsg>, k: nat)
    requires k <= |log| && DecodableIn(s, id, log)
    ensures DecodableIn(s, id, log[..k])
  {
    forall j | 0 <= j < k && log[..k][j].id == id
      ensures Decodable(s, log[..k][j].dlc)
    {
      assert log[..k][j] == log[j];
    }
  }

  /// One more frame adds its point when it has the identifier.
  lemma MatchPointsStep(s: CanSignal, id: nat, log: seq<CanLogMsg>, k: nat)
    requires k < |log| && DecodableIn(s, id, log)
    ensures DecodableIn(s, id, log[..k]) && DecodableIn(s, id, log[..k + 1])
    ensures MatchPoints(s, id, log[..k + 1]) ==
      MatchPoints(s, id, log[..k]) +
        (if log[k].id == id then [Point(log[k].time, Decode(s, log[k].data, log[k].dlc))] else [])
  {
    DecodablePrefix(s, id, log, k);
    DecodablePrefix(s, id, log, k + 1);
    assert log[..k + 1][..k] == log[..k];
    assert log[..k + 1][k] == log[k];
  }

  /// `CanSignal::getSignalGraph`. Its closing test reads the identifier of
  /// the element one past the end of the log; what that read yields is
  /// `pastEndId`.
  method GetSignalGraph(s: CanSignal, id: nat, log: seq<CanLogMsg>, pastEndId: nat)
    returns (ret: seq<Point>)
    requires |log| > 0
    requires DecodableIn(s, id, log)
    ensures var g := Graph(s, id, log);
      var lastValue := if g == [] then Some(0.0) else g[|g| - 1].value;
      ret == g + (if pastEndId != id then [Point(log[|log| - 1].time, lastValue)] else [])
  {
    ret := [];
    var firstTime := log[0].time;
    var lastTime := firstTime;
    var lastValue: Option<real> := Some(0.0);
    var isFirst := true;
    ghost var m: seq<Point> := [];
    for k := 0 to |log|
      invariant DecodableIn(s, id, log[..k]) && m == MatchPoints(s, id, log[..k])
      invariant isFirst <==> m == []
      invariant ret == WithLead(firstTime, m)
      invariant lastValue == if isFirst then Some(0.0) else m[|m| - 1].value
      invariant k > 0 ==> lastTime == log[k - 1].time
    {
      MatchPointsStep(s, id, log, k);
      var data := log[k];
      if data.id == id {
        var value := ParseSignal(s, data.data, data.dlc);
        WithLeadSnoc(firstTime, m, Point(data.time, value));
        m := m + [Point(data.time, value)];
        if isFirst {
          isFirst := false;
          ret := ret + [Point(firstTime, value)];
        }
        ret := ret + [Point(data.time, value)];
        lastValue := value;
        assert m[|m| - 1].value == lastValue;
        assert ret == WithLead(firstTime, m);
        assert m == MatchPoints(s, id, log[..k + 1]);
      } else {
        assert m == MatchPoints(s, id, log[..k + 1]);
      }
      lastTime := data.time;
    }
    assert log[..|log|] == log;
    if pastEndId != id {
      ret := ret + [Point(lastTime, lastValue)];
    }
  }

  /// The frames of the log that carry the identifier. The graph has one
  /// point per such frame, in log order, plus the leading copy; with no
  /// such frame it is empty.
  function Matching(log: seq<CanLogMsg>, id: nat): set<nat>
  {
    set k | 0 <= k < |log| && log[k].id == id
  }

  lemma MatchingSnoc(log: seq<CanLogMsg>, id: nat)
    requires log != []
    ensures Matching(log, id) == Matching(log[..|log| - 1], id) +
      (if log[|log| - 1].id == id then {|log| - 1} else {})
  {
    var init := log[..|log| - 1];
    assert forall k :: 0 <= k < |init| ==> init[k] == log[k];
  }

  /// The graph has one point per frame with the identifier.
  lemma {:induction false} GraphCount(s: CanSignal, id: nat, log: seq<CanLogMsg>)
    requires DecodableIn(s, id, log)
    ensures |MatchPoints(s, id, log)| == |Matching(log, id)|
  {
    if log != [] {
      var init := log[..|log| - 1];
      GraphCount(s, id, init);
      MatchingSnoc(log, id);
      assert |log| - 1 !in Matching(init, id);
    }
  }

  /// Some frame of the log carries the identifier and the timestamp.
  predicate MatchedAt(log: seq<CanLogMsg>, id: nat, t: real)
  {
    exists k :: 0 <= k < |log| && log[k].id == id && log[k].time == t
  }

  /// Every point of the graph carries the timestamp of a frame with the
  /// identifier.
  lemma {:induction false} GraphTimes(s: CanSignal, id: nat, log: seq<CanLogMsg>)
    requires DecodableIn(s, id, log)
    ensures forall i :: 0 <= i < |MatchPoints(s, id, log)| ==> MatchedAt(log, id, MatchPoints(s, id, log)[i].time)
  {
    if log != [] {
      var init := log[..|log| - 1];
      var n := |log| - 1;
      GraphTimes(s, id, init);
      var m := MatchPoints(s, id, log);
      var mi := MatchPoints(s, id, init);
      assert m == mi + (if log[n].id == id then [Point(log[n].time, Decode(s, log[n].data, log[n].dlc))] else []);
      forall i | 0 <= i < |m|
        ensures MatchedAt(log, id, m[i].time)
      {
        if i < |mi| {
          assert m[i] == mi[i];
          assert MatchedAt(init, id, mi[i].time);
          var k :| 0 <= k < |init| && init[k].id == id && init[k].time == mi[i].time;
          assert log[k] == init[k];
        } else {
          assert m[i].time == log[n].time;
        }
      }
    }
  }

  /// The indexes of the frames with the identifier, in log order: each
  /// carries the identifier, they strictly increase, and none is missed.
  function MatchIndices(log: seq<CanLogMsg>, id: nat): (ks: seq<nat>)
    ensures forall i :: 0 <= i < |ks| ==> ks[i] < |log| && log[ks[i]].id == id
    ensures forall i, j :: 0 <= i < j < |ks| ==> ks[i] < ks[j]
    ensures forall k :: 0 <= k < |log| && log[k].id == id ==> k in ks
  {
    if log == [] then []
    else
      var init := log[..|log| - 1];
      var ki := MatchIndices(init, id);
      assert forall i :: 0 <= i < |ki| ==> log[ki[i]] == init[ki[i]];
      assert forall k :: 0 <= k < |init| ==> log[k] == init[k];
      ki + (if log[|log| - 1].id == id then [|log| - 1] else [])
  }

  /// The point a frame contributes to the graph.
  function PointOf(s: CanSignal, f: CanLogMsg): Point
    requires Decodable(s, f.dlc)
  {
    Point(f.time, Decode(s, f.data, f.dlc))
  }

  /// The graph's points before the lead are exactly the points of the
  /// frames with the identifier, one each, in log order.
  lemma {:induction false} PointsOfMatches(s: CanSignal, id: nat, log: seq<CanLogMsg>)
    requires DecodableIn(s, id, log)
    ensures |MatchPoints(s, id, log)| == |MatchIndices(log, id)|
    ensures forall i :: 0 <= i < |MatchPoints(s, id, log)| ==>
      MatchPoints(s, id, log)[i] == PointOf(s, log[MatchIndices(log, id)[i]])
  {
    if log != [] {
      var init := log[..|log| - 1];
      var n := |log| - 1;
      PointsOfMatches(s, id, init);
      var m := MatchPoints(s, id, log);
      var mi := MatchPoints(s, id, init);
      var ks := MatchIndices(log, id);
      var ki := MatchIndices(init, id);
      assert m == mi + (if log[n].id == id then [PointOf(s, log[n])] else []);
      assert ks == ki + (if log[n].id == id then [n] else []);
      forall i | 0 <= i < |m|
        ensures m[i] == PointOf(s, log[ks[i]])
      {
        if i < |mi| {
          assert m[i] == mi[i] && ks[i] == ki[i];
          assert log[ki[i]] == init[ki[i]];
        }
      }
    }
  }

  /// What `GetSignalGraph` builds before its closing point: nothing when
  /// no frame carries the identifier; otherwise a lead point at the log's
  /// first time with the first match's value, then one point per frame
  /// with the identifier, in log order.
  lemma GraphShape(s: CanSignal, id: nat, log: seq<CanLogMsg>)
    requires |log| > 0 && DecodableIn(s, id, log)
    ensures var g := Graph(s, id, log);
      var ks := MatchIndices(log, id);
      (g == [] <==> ks == []) &&
      (g != [] ==>
        |g| == |ks| + 1 && g[0] == Point(log[0].time, g[1].value) &&
        forall i :: 1 <= i < |g| ==> g[i] == PointOf(s, log[ks[i - 1]]))
  {
    PointsOfMatches(s, id, log);
    var m := MatchPoints(s, id, log);
    var g := Graph(s, id, log);
    if m != [] {
      assert g == [Point(log[0].time, m[0].value)] + m;
      assert forall i :: 1 <= i < |g| ==> g[i] == m[i - 1];
    }
  }
}
