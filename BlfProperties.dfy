/// What the binary log reader promises across objects, containers and
/// files: frame numbering, the length prefix handed to decompression and
/// the objects that yield nothing.
module BlfProperties {
  import opened Common
  import opened CanMsg
  import opened Blf

  // ---------------------------------------------------------------------
  // Frame numbering

  /// The frames are numbered consecutively from `c`, modulo 2^32.
  predicate NumberedFrom(ms: seq<CanLogMsg>, c: nat)
  {
    forall i :: 0 <= i < |ms| ==> ms[i].number == (c + i) % U32
  }

  /// `acc` extends the frames `m0` by frames numbered from `c0`, and its
  /// counter is the number the next frame gets.
  predicate Tracks(acc: Acc, c0: nat, m0: seq<CanLogMsg>)
  {
    |m0| <= |acc.messages| && acc.messages[..|m0|] == m0 &&
    NumberedFrom(acc.messages[|m0|..], c0) &&
    acc.counter == (c0 + |acc.messages| - |m0|) % U32
  }

  lemma ModSucc(x: nat)
    ensures (x % U32 + 1) % U32 == (x + 1) % U32
  {
  }

  lemma {:induction false} ApplyTracks(acc: Acc, bytes: seq<byte>, c0: nat, m0: seq<CanLogMsg>)
    requires Tracks(acc, c0, m0)
    ensures Tracks(Apply(acc, ParseObjectSpec(bytes, acc.counter)), c0, m0)
  {
    var o := ParseObjectSpec(bytes, acc.counter);
    var a := Apply(acc, o);
    if o.frame.Some? {
      var k := |acc.messages| - |m0|;
      ModSucc(c0 + k);
      assert a.messages == acc.messages + [o.frame.value];
      assert a.messages[..|m0|] == acc.messages[..|m0|];
      assert a.messages[|m0|..] == acc.messages[|m0|..] + [o.frame.value];
    } else {
      assert a.messages == acc.messages;
    }
  }

  lemma {:induction false} ReassembleTracks(cd: seq<byte>, acc: Acc, c0: nat, m0: seq<CanLogMsg>)
    requires Tracks(acc, c0, m0)
    ensures Tracks(Reassemble(cd, acc), c0, m0)
    decreases |cd| + |acc.remain|, |cd|
  {
    if |cd| != 0 {
      var buf := if |acc.remain| != 0 then acc.remain + cd else cd;
      var o := ParseObjectSpec(buf, acc.counter);
      ApplyTracks(acc, buf, c0, m0);
      if o.ret > 0 {
        ReassembleTracks(buf[Min(o.ret, |buf|)..], Apply(acc, o), c0, m0);
      }
    }
  }

  lemma GetObjectTracks(file: seq<byte>, pos: nat, acc: Acc, inflate: Inflate, c0: nat, m0: seq<CanLogMsg>)
    requires pos <= |file| && Tracks(acc, c0, m0)
    ensures Tracks(GetObjectSpec(file, pos, acc, inflate).acc, c0, m0)
  {
    var s := GetObjectSpec(file, pos, acc, inflate);
    var dataSize := (ReadLE(file, pos + 8, 4) + U32 - ObjHeaderSize) % U32;
    var cd := ContainerData(RawRead(file, pos + ObjHeaderSize, dataSize), inflate);
    assert s.acc == acc || (cd.Some? && s.acc == Reassemble(cd.value, acc));
    if s.acc != acc {
      ReassembleTracks(cd.value, acc, c0, m0);
    }
  }

  lemma {:induction false} FileLoopTracks(file: seq<byte>, pos: nat, acc: Acc, inflate: Inflate,
                                          c0: nat, m0: seq<CanLogMsg>)
    requires pos <= |file| && Tracks(acc, c0, m0)
    ensures Tracks(FileLoop(file, pos, acc, inflate), c0, m0)
    decreases |file| - pos
  {
    if pos < |file| {
      var s := GetObjectSpec(file, pos, acc, inflate);
      GetObjectTracks(file, pos, acc, inflate, c0, m0);
      if s.ret == 0 {
        FileLoopTracks(file, s.pos, s.acc, inflate, c0, m0);
      }
    }
  }

  /// The frames of one `parse` are numbered on from the counter it found,
  /// and the counter ends at the number after the last of them; a reader
  /// that parses files one after another therefore numbers all its frames
  /// consecutively from 0, wrapping at 2^32.
  lemma ParseNumbersFrames(b: seq<byte>, counter: nat, inflate: Inflate)
    requires |b| >= SignatureSize && counter < U32
    ensures var r := ParseSpec(Some(b), counter, inflate);
      r.0.Frames? ==> NumberedFrom(r.0.messages, counter) && r.1 == (counter + |r.0.messages|) % U32
  {
    if b[..SignatureSize] == Logg {
      var start := Acc(counter, [], []);
      assert Tracks(start, counter, []);
      FileLoopTracks(b, ObjectsStart(b, ReadLE(b, 4, 4)), start, inflate, counter, []);
      var acc := FileLoop(b, ObjectsStart(b, ReadLE(b, 4, 4)), start, inflate);
      assert acc.messages[0..] == acc.messages;
    }
  }

  /// Two files through one reader: the second file's frames continue the
  /// numbering where the first file's stopped.
  lemma ParseTwiceContinues(b1: seq<byte>, b2: seq<byte>, counter: nat, inflate: Inflate)
    requires |b1| >= SignatureSize && |b2| >= SignatureSize && counter < U32
    ensures var r1 := ParseSpec(Some(b1), counter, inflate);
      var r2 := ParseSpec(Some(b2), r1.1, inflate);
      r1.0.Frames? && r2.0.Frames? ==>
        NumberedFrom(r1.0.messages + r2.0.messages, counter)
  {
    var r1 := ParseSpec(Some(b1), counter, inflate);
    var r2 := ParseSpec(Some(b2), r1.1, inflate);
    ParseNumbersFrames(b1, counter, inflate);
    ParseNumbersFrames(b2, r1.1, inflate);
    if r1.0.Frames? && r2.0.Frames? {
      var ms := r1.0.messages + r2.0.messages;
      forall i | |r1.0.messages| <= i < |ms|
        ensures ms[i].number == (counter + i) % U32
      {
        var j := i - |r1.0.messages|;
        assert ms[i] == r2.0.messages[j];
        ModAdd(counter + |r1.0.messages|, j);
      }
    }
  }

  lemma ModAdd(x: nat, j: nat)
    ensures (x % U32 + j) % U32 == (x + j) % U32
  {
  }

  // ---------------------------------------------------------------------
  // Containers

  /// The 32-bit big-endian number four bytes spell.
  function BigEndian32(p: seq<byte>): nat
    requires |p| == 4
  {
    p[0] as int * 0x100_0000 + p[1] as int * 0x1_0000 + p[2] as int * 0x100 + p[3]
  }

  /// The prefix in front of a compressed container spells the container's
  /// `uncompressSize`, which is a 32-bit field.
  lemma SizePrefixRoundTrip(u: nat)
    requires u < U32
    ensures BigEndian32(SizePrefix(u)) == u
  {
    var u1 := u / 0x100;
    var u2 := u1 / 0x100;
    var u3 := u2 / 0x100;
    assert u == u1 * 0x100 + u % 0x100;
    assert u1 == u2 * 0x100 + u1 % 0x100;
    assert u2 == u3 * 0x100 + u2 % 0x100;
    assert u / 0x1_0000 == u2;
    assert u / 0x100_0000 == u3;
    assert u3 < 0x100;
    assert SizePrefix(u) == [u3, u2 % 0x100, u1 % 0x100, u % 0x100];
  }

  /// An object whose signature is "LOBJ" but whose type is not a log
  /// container changes nothing and yields no frame; the reader moves past
  /// its data and padding.
  lemma NonContainerYieldsNothing(file: seq<byte>, pos: nat, acc: Acc, inflate: Inflate)
    requires pos <= |file| && RawRead(file, pos, SignatureSize) == Lobj
    requires ReadLE(file, pos + 12, 4) != LogContainer
    ensures var s := GetObjectSpec(file, pos, acc, inflate);
      var dataSize := (ReadLE(file, pos + 8, 4) + U32 - ObjHeaderSize) % U32;
      s.ret == 0 && s.acc == acc && s.pos == Min(pos + ObjHeaderSize + dataSize + dataSize % 4, |file|)
  {
  }

  /// A container compressed with a method other than 0 or 2 changes
  /// nothing.
  lemma UnknownCompressionYieldsNothing(file: seq<byte>, pos: nat, acc: Acc, inflate: Inflate)
    requires pos <= |file| && RawRead(file, pos, SignatureSize) == Lobj
    requires ReadLE(file, pos + 12, 4) == LogContainer
    requires var compression := ReadLE(file, pos + ObjHeaderSize, 2);
      compression != NoCompress && compression != ZlibDeflate
    requires (ReadLE(file, pos + 8, 4) + U32 - ObjHeaderSize) % U32 >= 2
    ensures var s := GetObjectSpec(file, pos, acc, inflate);
      s.ret == 0 && s.acc == acc
  {
    var dataSize := (ReadLE(file, pos + 8, 4) + U32 - ObjHeaderSize) % U32;
    var objData := RawRead(file, pos + ObjHeaderSize, dataSize);
    RawReadPrefix(file, pos + ObjHeaderSize, dataSize, 2);
    assert ReadLE(objData, 0, 2) == ReadLE(file, pos + ObjHeaderSize, 2);
  }

  /// A number read from the start of a raw read is read from the file.
  lemma RawReadPrefix(b: seq<byte>, pos: nat, n: nat, k: nat)
    requires k <= n
    ensures ReadLE(RawRead(b, pos, n), 0, k) == ReadLE(b, pos, k) ||
            pos + k > |b|
  {
    if pos + k <= |b| {
      assert RawRead(b, pos, n)[0..k] == b[pos..pos + k];
    }
  }

  /// A file that does not start with "LOBJ" after its header yields no
  /// frames: the object loop stops at once.
  lemma BadSignatureStops(file: seq<byte>, pos: nat, acc: Acc, inflate: Inflate)
    requires pos < |file| && RawRead(file, pos, SignatureSize) != Lobj
    ensures FileLoop(file, pos, acc, inflate) == acc
  {
  }

  /// After a whole object, `parseObject` returns the next "LOBJ" at or
  /// after the object's end, or else the end plus the end modulo 4.
  lemma NextObjectCases(bytes: seq<byte>, nextPos: nat)
    ensures var r := NextObject(bytes, nextPos);
      (exists j :: nextPos <= j && IsLobjAt(bytes, j)) ==>
        nextPos <= r && IsLobjAt(bytes, r) && forall j :: nextPos <= j < r ==> !IsLobjAt(bytes, j)
    ensures (forall j :: nextPos <= j ==> !IsLobjAt(bytes, j)) ==>
      NextObject(bytes, nextPos) == nextPos + nextPos % 4
  {
  }

  /// The fallback is not a round-up to a multiple of 4: an object ending
  /// at 5 with no "LOBJ" after it yields 6.
  lemma NextObjectNotRoundUp()
    ensures NextObject(Zeros(8), 5) == 6 && 6 % 4 != 0
  {
    assert IndexOf(Zeros(8), 5) == None;
  }
}
