/// Reassembly of inner objects across log containers: a writer may cut
/// the stream of inner objects at any byte when it fills a container, and
/// the reader's `remain` buffer glues the pieces back together. Whatever
/// the cuts, the reader yields what parsing each object on its own yields.
module BlfContainers {
  import opened Common
  import opened CanMsg
  import opened Blf

  // ---------------------------------------------------------------------
  // Well-formed inner objects

  /// Whether an object is a CAN message object, the kind that yields a
  /// frame.
  predicate IsCanMessage(o: seq<byte>)
  {
    var objType := ReadLE(o, 12, 4);
    objType == CanMsgType || objType == CanMsg2Type
  }

  /// Where the fields a frame is decoded from end, for the header version
  /// the object states: 16-byte header, flags, 4 more bytes for versions 1
  /// and 2, timestamp, 8 more bytes for version 2, then the 16-byte
  /// message body. That is 48 bytes for version 1, 56 for version 2 and
  /// 44 otherwise.
  function FrameEnd(o: seq<byte>): nat
  {
    var version := ReadLE(o, 6, 2);
    20 + (if version == 1 || version == 2 then 4 else 0) + TimeSize + (if version == 2 then 8 else 0) + 16
  }

  /// An inner object as a writer lays it out: it starts with "LOBJ", its
  /// size field is its length, it is padded to 4 bytes, it holds at least
  /// the object header and, when it is a CAN message object, every field
  /// the frame is decoded from.
  predicate WellFormed(o: seq<byte>)
  {
    |o| >= ObjHeaderSize && |o| % 4 == 0 && o[..4] == Lobj && ReadLE(o, 8, 4) == |o| &&
    (IsCanMessage(o) ==> |o| >= FrameEnd(o))
  }

  /// A version-1 CAN message object of 48 bytes, the smallest a writer
  /// emits for that version, and any other object of at least its 16-byte
  /// header, are well-formed when they start with "LOBJ", state their own
  /// size and are padded to 4 bytes.
  lemma SmallObjectsWellFormed(o: seq<byte>)
    requires |o| >= ObjHeaderSize && |o| % 4 == 0 && o[..4] == Lobj && ReadLE(o, 8, 4) == |o|
    requires IsCanMessage(o) ==> |o| == 48 && ReadLE(o, 6, 2) == 1
    ensures WellFormed(o)
  {
  }

  predicate AllWellFormed(objs: seq<seq<byte>>)
  {
    forall i :: 0 <= i < |objs| ==> WellFormed(objs[i])
  }

  /// The objects back to back.
  function Flatten(objs: seq<seq<byte>>): seq<byte>
  {
    if objs == [] then [] else objs[0] + Flatten(objs[1..])
  }

  /// The frame an object yields when parsed on its own.
  function ObjFrame(o: seq<byte>, counter: nat): Option<CanLogMsg>
  {
    if IsCanMessage(o) then Some(FrameAt(o, 0, counter)) else None
  }

  /// The outcome of `parseObject` on a buffer that starts with a whole
  /// object: the object is consumed and `remain` is cleared.
  function Whole(o: seq<byte>, counter: nat): ObjectResult
  {
    ObjectResult(|o|, Some([]), ObjFrame(o, counter))
  }

  /// The reference: every object parsed on its own, in order.
  function FoldObjs(objs: seq<seq<byte>>, acc: Acc): Acc
  {
    if objs == [] then acc else FoldObjs(objs[1..], Apply(acc, Whole(objs[0], acc.counter)))
  }

  /// The reader state once the bytes `b`, a prefix of the objects' stream,
  /// have arrived: the whole objects in `b` are parsed and the piece of
  /// the next object waits in `remain`.
  function Consume(objs: seq<seq<byte>>, b: seq<byte>, acc: Acc): Acc
  {
    if objs != [] && |b| >= |objs[0]| then
      Consume(objs[1..], b[|objs[0]|..], Apply(acc, Whole(objs[0], acc.counter)))
    else acc.(remain := b)
  }

  /// The reassembly loop run over the data of consecutive containers.
  function ReassembleAll(cds: seq<seq<byte>>, acc: Acc): Acc
  {
    if cds == [] then acc else Reassemble(cds[|cds| - 1], ReassembleAll(cds[..|cds| - 1], acc))
  }

  // ---------------------------------------------------------------------
  // One object at the front of the buffer

  lemma ReadPrefix(o: seq<byte>, rest: seq<byte>, pos: nat, n: nat)
    requires pos + n <= |o|
    ensures ReadLE(o + rest, pos, n) == ReadLE(o, pos, n)
  {
    assert (o + rest)[pos..pos + n] == o[pos..pos + n];
  }

  /// The frame fields all lie within the object.
  lemma FramePrefix(o: seq<byte>, rest: seq<byte>, counter: nat)
    requires |o| >= ObjHeaderSize && |o| >= FrameEnd(o)
    ensures FrameAt(o + rest, 0, counter) == FrameAt(o, 0, counter)
  {
    var b := o + rest;
    ReadPrefix(o, rest, 6, 2);
    ReadPrefix(o, rest, 16, 4);
    var version := ReadLE(o, 6, 2);
    var tsPos := 20 + (if version == 1 || version == 2 then 4 else 0);
    var body := tsPos + 8 + (if version == 2 then 8 else 0);
    assert body + 16 == FrameEnd(o);
    ReadPrefix(o, rest, tsPos, 8);
    ReadPrefix(o, rest, body, 2);
    ReadPrefix(o, rest, body + 4, 4);
    assert ReadByte(b, body + 3) == ReadByte(o, body + 3);
    assert b[body + 8..body + 16] == o[body + 8..body + 16];
  }

  lemma LobjFirst(b: seq<byte>)
    requires |b| >= 4 && b[..4] == Lobj
    ensures IndexOf(b, 0) == Some(0)
  {
    assert b[0..4] == b[..4];
  }

  /// The bytes after a whole object start another object, or are too few
  /// to hold a signature.
  predicate Continues(rest: seq<byte>)
  {
    |rest| < 4 || rest[..4] == Lobj
  }

  /// A buffer that starts with a whole object followed by the start of
  /// the next: the object is consumed and the next one starts right after.
  lemma WholeObjectFirst(o: seq<byte>, rest: seq<byte>, counter: nat)
    requires WellFormed(o) && Continues(rest)
    ensures ParseObjectSpec(o + rest, counter) == Whole(o, counter)
  {
    var b := o + rest;
    assert b[..4] == o[..4];
    LobjFirst(b);
    ReadPrefix(o, rest, 8, 4);
    ReadPrefix(o, rest, 12, 4);
    if IsCanMessage(o) {
      FramePrefix(o, rest, counter);
    }
    if |rest| >= 4 {
      assert b[|o|..|o| + 4] == rest[..4];
      assert IsLobjAt(b, |o|);
      assert IndexOf(b, |o|) == Some(|o|);
    } else {
      assert forall j :: |o| <= j ==> !IsLobjAt(b, j);
    }
    assert NextObject(b, |o|) == |o|;
  }

  /// A buffer that holds only the start of an object: it is kept whole in
  /// `remain` and nothing is consumed.
  lemma PartialObject(o: seq<byte>, p: seq<byte>, counter: nat)
    requires WellFormed(o) && 0 < |p| < |o| && p == o[..|p|]
    ensures ParseObjectSpec(p, counter) == ObjectResult(|p|, Some(p), None)
  {
    if |p| >= ObjHeaderSize {
      assert p[..4] == o[..4];
      LobjFirst(p);
      assert p[8..12] == o[8..12];
    }
  }

  // ---------------------------------------------------------------------
  // Feeding one container

  lemma FlattenCons(objs: seq<seq<byte>>)
    requires objs != []
    ensures Flatten(objs) == objs[0] + Flatten(objs[1..])
  {
  }

  lemma AllWellFormedTail(objs: seq<seq<byte>>)
    requires AllWellFormed(objs) && objs != []
    ensures WellFormed(objs[0]) && AllWellFormed(objs[1..])
  {
    assert forall i :: 0 <= i < |objs| - 1 ==> objs[1..][i] == objs[i + 1];
  }

  /// What follows a whole object in any prefix of the stream continues it.
  lemma PrefixContinues(objs: seq<seq<byte>>, rest: seq<byte>)
    requires AllWellFormed(objs) && rest <= Flatten(objs)
    ensures Continues(rest)
  {
    if |rest| >= 4 {
      AllWellFormedTail(objs);
      FlattenCons(objs);
      assert rest[..4] == Flatten(objs)[..4] == objs[0][..4];
    }
  }

  /// One container's data `cd` arriving with `q`, the start of the next
  /// object, waiting in `remain`: the loop ends in the state `Consume`
  /// describes for everything that has arrived.
  lemma {:induction false} Feed(objs: seq<seq<byte>>, q: seq<byte>, cd: seq<byte>, acc: Acc)
    requires AllWellFormed(objs) && q + cd <= Flatten(objs)
    requires q == [] || (objs != [] && |q| < |objs[0]|)
    ensures Reassemble(cd, acc.(remain := q)) == Consume(objs, q + cd, acc)
    decreases |q| + |cd|
  {
    if objs != [] {
      AllWellFormedTail(objs);
      FlattenCons(objs);
    }
    if |cd| == 0 {
      assert q + cd == q;
    } else {
      var buf := q + cd;
      var o0 := objs[0];
      if |buf| >= |o0| {
        var rest := buf[|o0|..];
        assert buf == o0 + rest;
        assert rest <= Flatten(objs[1..]);
        PrefixContinues(objs[1..], rest);
        var next := Apply(acc, Whole(o0, acc.counter));
        ReassembleWhole(q, cd, acc, o0, rest);
        Feed(objs[1..], [], rest, next);
        assert next.(remain := []) == next;
        assert [] + rest == rest;
      } else {
        assert buf == o0[..|buf|];
        ReassemblePartial(q, cd, acc, o0);
      }
    }
  }

  /// A container's data that completes the object in front: the object is
  /// consumed and the loop goes on with the bytes after it.
  lemma ReassembleWhole(q: seq<byte>, cd: seq<byte>, acc: Acc, o0: seq<byte>, rest: seq<byte>)
    requires |cd| != 0 && q + cd == o0 + rest && WellFormed(o0) && Continues(rest)
    ensures Reassemble(cd, acc.(remain := q)) == Reassemble(rest, Apply(acc, Whole(o0, acc.counter)))
  {
    var a := acc.(remain := q);
    var buf := if |q| != 0 then q + cd else cd;
    assert buf == o0 + rest;
    WholeObjectFirst(o0, rest, acc.counter);
    assert Apply(a, Whole(o0, acc.counter)) == Apply(acc, Whole(o0, acc.counter));
    assert buf[Min(|o0|, |buf|)..] == rest;
  }

  /// A container's data that does not complete the object in front: all
  /// of it waits in `remain`.
  lemma ReassemblePartial(q: seq<byte>, cd: seq<byte>, acc: Acc, o0: seq<byte>)
    requires |cd| != 0 && WellFormed(o0) && |q + cd| < |o0| && q + cd == o0[..|q + cd|]
    ensures Reassemble(cd, acc.(remain := q)) == acc.(remain := q + cd)
  {
    var buf := if |q| != 0 then q + cd else cd;
    assert buf == q + cd;
    PartialObject(o0, buf, acc.counter);
    assert buf[Min(|buf|, |buf|)..] == [];
  }

  /// Feeding a container after any prefix of the stream extends that
  /// prefix.
  lemma {:induction false} FeedAfter(objs: seq<seq<byte>>, b: seq<byte>, cd: seq<byte>, acc: Acc)
    requires AllWellFormed(objs) && b + cd <= Flatten(objs)
    ensures Reassemble(cd, Consume(objs, b, acc)) == Consume(objs, b + cd, acc)
    decreases |objs|
  {
    if objs != [] && |b| >= |objs[0]| {
      AllWellFormedTail(objs);
      FlattenCons(objs);
      var o0 := objs[0];
      var acc1 := Apply(acc, Whole(o0, acc.counter));
      assert (b + cd)[|o0|..] == b[|o0|..] + cd;
      assert b[|o0|..] + cd <= Flatten(objs[1..]);
      FeedAfter(objs[1..], b[|o0|..], cd, acc1);
    } else {
      if objs == [] {
        assert b == [];
      }
      Feed(objs, b, cd, acc);
    }
  }

  lemma FlattenSnoc(cds: seq<seq<byte>>)
    requires cds != []
    ensures Flatten(cds) == Flatten(cds[..|cds| - 1]) + cds[|cds| - 1]
  {
    if |cds| > 1 {
      FlattenSnoc(cds[1..]);
      assert cds[1..][..|cds| - 2] == cds[..|cds| - 1][1..];
    } else {
      assert cds[..0] == [];
    }
  }

  /// The state after any sequence of containers whose data is a prefix of
  /// the objects' stream.
  lemma {:induction false} ReassemblePrefix(objs: seq<seq<byte>>, cds: seq<seq<byte>>, acc: Acc)
    requires AllWellFormed(objs) && Flatten(cds) <= Flatten(objs) && acc.remain == []
    ensures ReassembleAll(cds, acc) == Consume(objs, Flatten(cds), acc)
    decreases |cds|
  {
    if cds == [] {
      assert acc.(remain := []) == acc;
    } else {
      var init := cds[..|cds| - 1];
      FlattenSnoc(cds);
      assert Flatten(init) <= Flatten(objs);
      ReassemblePrefix(objs, init, acc);
      FeedAfter(objs, Flatten(init), cds[|cds| - 1], acc);
    }
  }

  lemma {:induction false} ConsumeAll(objs: seq<seq<byte>>, acc: Acc)
    requires acc.remain == []
    ensures Consume(objs, Flatten(objs), acc) == FoldObjs(objs, acc)
    decreases |objs|
  {
    if objs != [] {
      FlattenCons(objs);
      assert Flatten(objs)[|objs[0]|..] == Flatten(objs[1..]);
      ConsumeAll(objs[1..], Apply(acc, Whole(objs[0], acc.counter)));
    }
  }

  /// However the stream of well-formed objects is cut into containers, the
  /// reader ends in the state of parsing every object on its own: the same
  /// frames with the same numbers, and nothing left over.
  lemma SplitAnywhere(objs: seq<seq<byte>>, cds: seq<seq<byte>>, acc: Acc)
    requires AllWellFormed(objs) && Flatten(cds) == Flatten(objs) && acc.remain == []
    ensures ReassembleAll(cds, acc) == FoldObjs(objs, acc)
  {
    ReassemblePrefix(objs, cds, acc);
    ConsumeAll(objs, acc);
  }

  /// Two different cuts of the same stream give the same frames.
  lemma CutsAgree(objs: seq<seq<byte>>, cds1: seq<seq<byte>>, cds2: seq<seq<byte>>, acc: Acc)
    requires AllWellFormed(objs) && Flatten(cds1) == Flatten(objs) && Flatten(cds2) == Flatten(objs)
    requires acc.remain == []
    ensures ReassembleAll(cds1, acc) == ReassembleAll(cds2, acc)
  {
    SplitAnywhere(objs, cds1, acc);
    SplitAnywhere(objs, cds2, acc);
  }
}
