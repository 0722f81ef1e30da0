/**
 The index a descriptor keeps and the block it is on. They agree as long as no
 descriptor that has walked off the end of a full file is read or written again; one
 that is may be moved by a shrink although it stands before the new end.
 */
module UfsIndex {
  import opened UfsModel
  import opened UfsInvariant
  import opened UfsFlat

  /** On the block at its index, or on none: never started, or walked off the end. */
  predicate Straight(c: Cursor) { c.index == c.at || (c.at == -1 && c.index >= 0) }

  ghost predicate AllStraight(fs: Fs) { forall i :: 0 <= i < |fs.table| && fs.table[i].Some? ==> Straight(fs.table[i].value) }

  /** Reads or writes with a descriptor that has walked off the end, which puts it on the first block. */
  predicate Reuses(fs: Fs, op: Op) {
    && (op.OpWrite? || op.OpRead?) && 0 <= op.fd < |fs.table| && fs.table[op.fd].Some?
    && fs.table[op.fd].value.at < 0 <= fs.table[op.fd].value.index
  }

  // ---------------------------------------------------------------- each operation

  lemma StartedStraight(c: Cursor, blocks: nat)
    requires Straight(c) && c.at >= -1 && !(c.at < 0 <= c.index)
    ensures var d := Started(c, blocks); d.index == d.at
  {
  }

  lemma WriteStraight(fs: Fs, fd: int, buf: seq<byte>)
    requires Inv(fs) && AllStraight(fs) && fd != |fs.table| && !Reuses(fs, OpWrite(fd, buf))
    ensures AllStraight(Write(fs, fd, buf).0)
  {
    if !BadFd(fs, fd) {
      assert SlotOk(fs, fs.table[fd]);
      var f := fs.files[fs.table[fd].value.file];
      var c := Started(fs.table[fd].value, |f.occ|);
      StartedStraight(fs.table[fd].value, |f.occ|);
      assert Straight(WriteCursor(c, |f.occ|, |buf|));
      hide Inv, WriteFile, WriteCursor;
    }
  }

  lemma ReadStraight(fs: Fs, fd: int, n: nat)
    requires Inv(fs) && AllStraight(fs) && fd != |fs.table| && !Reuses(fs, OpRead(fd, n))
    ensures AllStraight(Read(fs, fd, n).0)
  {
    if !BadFd(fs, fd) {
      assert SlotOk(fs, fs.table[fd]);
      var f := fs.files[fs.table[fd].value.file];
      var c := Started(fs.table[fd].value, |f.occ|);
      StartedStraight(fs.table[fd].value, |f.occ|);
      assert Straight(ReadCursor(c, f.occ, n));
      hide Inv, ReadCursor;
    }
  }

  lemma ResizeStraight(fs: Fs, fd: int, size: nat)
    requires Inv(fs) && AllStraight(fs) && fd != |fs.table|
    ensures AllStraight(Resize(fs, fd, size).0)
  {
    hide Inv;
  }

  lemma OpenStraight(fs: Fs, name: string, flags: int)
    requires Inv(fs) && AllStraight(fs)
    ensures AllStraight(Open(fs, name, flags).0)
  {
    FreeSlotExists(fs);
    hide Inv;
  }

  lemma StepStraight(fs: Fs, op: Op)
    requires Inv(fs) && AllStraight(fs) && Legal(fs, op) && !Reuses(fs, op)
    ensures AllStraight(Step(fs, op))
  {
    match op
    case OpWrite(fd, buf) => WriteStraight(fs, fd, buf);
    case OpRead(fd, n) => ReadStraight(fs, fd, n);
    case OpResize(fd, size) => ResizeStraight(fs, fd, size);
    case OpOpen(name, flags) => OpenStraight(fs, name, flags);
    case OpClose(fd) => CloseStraight(fs, fd);
    case OpDelete(name) =>
  }

  lemma CloseStraight(fs: Fs, fd: int)
    requires Inv(fs) && AllStraight(fs) && fd != |fs.table|
    ensures AllStraight(Close(fs, fd).0)
  {
    hide Inv;
  }

  // ---------------------------------------------------------------- runs

  /** No descriptor that has walked off is read or written in the run. */
  ghost predicate NeverReuses(fs: Fs, ops: seq<Op>)
    requires Inv(fs) && LegalRun(fs, ops)
    decreases |ops|
  {
    ops == [] || (!Reuses(fs, ops[0]) && (StepInv(fs, ops[0]); NeverReuses(Step(fs, ops[0]), ops[1..])))
  }

  lemma {:induction false} RunStraight(fs: Fs, ops: seq<Op>)
    requires Inv(fs) && AllStraight(fs) && LegalRun(fs, ops) && NeverReuses(fs, ops)
    ensures AllStraight(Run(fs, ops))
    decreases |ops|
  {
    hide Inv, AllStraight, Step;
    if ops != [] {
      StepInv(fs, ops[0]);
      StepStraight(fs, ops[0]);
      RunStraight(Step(fs, ops[0]), ops[1..]);
    }
  }

  /**
   In every such run from the empty file system a started descriptor's block is the one
   at its index, its offset is within that block's bytes, and a shrink that leaves its
   position in the file does not move it.
   */
  lemma IndexIsBlock(ops: seq<Op>, fd: nat)
    requires LegalRun(EMPTY, ops) && NeverReuses(EMPTY, ops)
    requires var fs := Run(EMPTY, ops); fd < |fs.table| && fs.table[fd].Some? && fs.table[fd].value.at >= 0
    ensures var fs := Run(EMPTY, ops);
            var c := fs.table[fd].value;
            && c.file < |fs.files| && c.index == c.at < |fs.files[c.file].occ| && 0 <= c.offset <= fs.files[c.file].occ[c.at]
            && forall size: nat :: Shrinks(fs.files[c.file], size) && Pos(c) < size ==>
                 ResizeCursor(c, Kept(size), size - BLOCK_SIZE * (Kept(size) - 1)) == c
  {
    RunStraight(EMPTY, ops);
    var fs := Run(EMPTY, ops);
    var c := fs.table[fd].value;
    assert SlotOk(fs, fs.table[fd]);
    assert FileInv(fs.files[c.file]);
    forall size: nat | Shrinks(fs.files[c.file], size) && Pos(c) < size
      ensures ResizeCursor(c, Kept(size), size - BLOCK_SIZE * (Kept(size) - 1)) == c
    {
      ResizePosition(fs.files[c.file], c, size);
    }
  }

  // ---------------------------------------------------------------- the inputs that show it

  /** Three full blocks and one descriptor. */
  function Three(mem: seq<byte>, c: Cursor): Fs {
    Fs([FileV("f", mem, [512, 512, 512], 1, false, false)], [0], [Some(c), None, None, None], 1, NoErr)
  }

  function At(at: int, index: int, offset: int): Cursor { Cursor(0, at, index, offset, UFS_READ_WRITE) }

  lemma Opened()
    ensures Inv(EMPTY)
    ensures Open(EMPTY, "f", 1).0 == Fs([FileV("f", [], [], 1, false, false)], [0], [Some(At(-1, -1, 0)), None, None, None], 1, NoErr)
  {
    FreeSlotExists(EMPTY);
    var table: seq<Slot> := [None, None, None, None];
    assert Extended(AddFile(EMPTY, "f").(error := NoErr)) == table;
    assert FirstFree(table, 0) == 0;
    assert table[0 := Some(At(-1, -1, 0))] == [Some(At(-1, -1, 0)), None, None, None];
    assert Permissions(1) == UFS_READ_WRITE;
  }

  lemma Written(fs: Fs)
    requires Inv(fs) && fs == Fs([FileV("f", [], [], 1, false, false)], [0], [Some(At(-1, -1, 0)), None, None, None], 1, NoErr)
    ensures |Zeros(1536)| == 1536 && exists mem :: Write(fs, 0, Zeros(1536)).0 == Three(mem, At(2, 2, 512))
  {
    var f, buf := fs.files[0], Zeros(1536);
    var g := WriteFile(f, 0, buf);
    assert g.occ == [512, 512, 512];
    assert buf[..1536] == buf;
    assert WriteCursor(At(-1, -1, 0), 0, 1536) == At(2, 2, 512);
    assert Bit(8, 8);
    assert Write(fs, 0, buf).0 == Three(g.mem, At(2, 2, 512));
  }

  lemma ReadTwice(mem: seq<byte>)
    requires Inv(Three(mem, At(2, 2, 512)))
    ensures Inv(Three(mem, At(-1, 3, 0))) && Read(Three(mem, At(2, 2, 512)), 0, 1).0 == Three(mem, At(-1, 3, 0))
    ensures Read(Three(mem, At(-1, 3, 0)), 0, 1).0 == Three(mem, At(0, 4, 1))
  {
    var occ: seq<nat> := [512, 512, 512];
    assert End(occ, 3) == 1536 && End(occ, 2) == 1536 && End(occ, 1) == 1536 && End(occ, 0) == 1536;
    assert Bit(8, 8);
    assert ReadCursor(At(2, 2, 512), occ, 1) == At(-1, 3, 0);
    assert ReadCursor(At(0, 4, 0), occ, 1) == At(0, 4, 1);
    ReadInv(Three(mem, At(2, 2, 512)), 0, 1);
  }

  /** fs goes by a careful run to `last`. */
  ghost predicate Goes(fs: Fs, ops: seq<Op>, last: Fs) {
    Inv(fs) && LegalRun(fs, ops) && CarefulRun(fs, ops) && Run(fs, ops) == last
  }

  lemma GoesOn(fs: Fs, op: Op, fs': Fs, rest: seq<Op>, last: Fs)
    requires Inv(fs) && Legal(fs, op) && Careful(fs, op) && Step(fs, op) == fs' && Goes(fs', rest, last)
    ensures Goes(fs, [op] + rest, last)
  {
    hide Inv, Step, Careful, Legal;
    assert ([op] + rest)[1..] == rest;
  }

  /** Create a file, write three blocks and read a byte twice. */
  lemma FirstFour() returns (mem: seq<byte>)
    ensures |Zeros(1536)| == 1536
    ensures Goes(EMPTY, [OpOpen("f", 1), OpWrite(0, Zeros(1536)), OpRead(0, 1), OpRead(0, 1)], Three(mem, At(0, 4, 1)))
  {
    hide Read, Write, Goes, Open;
    Opened();
    var fs1 := Open(EMPTY, "f", 1).0;
    OpenInv(EMPTY, "f", 1);
    Written(fs1);
    mem :| Write(fs1, 0, Zeros(1536)).0 == Three(mem, At(2, 2, 512));
    WriteInv(fs1, 0, Zeros(1536));
    var fs4 := Three(mem, At(0, 4, 1));
    LastTwo(mem);
    hide Inv;
    var two, three := [OpRead(0, 1), OpRead(0, 1)], [OpWrite(0, Zeros(1536)), OpRead(0, 1), OpRead(0, 1)];
    assert [OpWrite(0, Zeros(1536))] + two == three;
    GoesOn(fs1, OpWrite(0, Zeros(1536)), Three(mem, At(2, 2, 512)), two, fs4);
    assert [OpOpen("f", 1)] + three == [OpOpen("f", 1), OpWrite(0, Zeros(1536)), OpRead(0, 1), OpRead(0, 1)];
    GoesOn(EMPTY, OpOpen("f", 1), fs1, three, fs4);
  }

  lemma LastTwo(mem: seq<byte>)
    requires Inv(Three(mem, At(2, 2, 512)))
    ensures Goes(Three(mem, At(2, 2, 512)), [OpRead(0, 1), OpRead(0, 1)], Three(mem, At(0, 4, 1)))
  {
    hide Read, Goes;
    ReadTwice(mem);
    var fs2, fs3, fs4 := Three(mem, At(2, 2, 512)), Three(mem, At(-1, 3, 0)), Three(mem, At(0, 4, 1));
    ReadInv(fs3, 0, 1);
    Ends(fs4);
    hide Inv;
    var one := [OpRead(0, 1)];
    assert one + [] == one;
    GoesOn(fs3, OpRead(0, 1), fs4, [], fs4);
    assert one + one == [OpRead(0, 1), OpRead(0, 1)];
    GoesOn(fs2, OpRead(0, 1), fs3, one, fs4);
  }

  lemma Ends(fs: Fs)
    requires Inv(fs)
    ensures Goes(fs, [], fs)
  {
  }

  /**
   A flat run in which a shrink moves a descriptor that stands before the new end: create
   a file, write three blocks, read a byte twice, cut the file to two. The descriptor
   goes from byte 1 to byte 513.
   */
  lemma ReusedMoves()
    ensures |Zeros(1536)| == 1536
    ensures exists fs ::
              && Goes(EMPTY, [OpOpen("f", 1), OpWrite(0, Zeros(1536)), OpRead(0, 1), OpRead(0, 1)], fs)
              && Flat(fs) && MovesByCut(fs)
  {
    var mem := FirstFour();
    var fs := Three(mem, At(0, 4, 1));
    RunsStayFlat([OpOpen("f", 1), OpWrite(0, Zeros(1536)), OpRead(0, 1), OpRead(0, 1)]);
    CutMoves(mem);
  }

  /** Cutting the file of descriptor 0 to two blocks, a packed shrink, moves it from byte 1 to byte 513. */
  ghost predicate MovesByCut(fs: Fs) {
    && Inv(fs) && |fs.table| == 4 && fs.table[0].Some? && Pos(fs.table[0].value) == 1 && Careful(fs, OpResize(0, 1024))
    && var after := Resize(fs, 0, 1024).0; |after.table| == 4 && after.table[0].Some? && Pos(after.table[0].value) == 513
  }

  lemma CutMoves(mem: seq<byte>)
    requires var fs := Three(mem, At(0, 4, 1)); Inv(fs) && Flat(fs)
    ensures MovesByCut(Three(mem, At(0, 4, 1)))
  {
    PackedAs(Three(mem, At(0, 4, 1)).files[0], 1536);
    assert Kept(1024) == 2;
    assert ResizeCursor(At(0, 4, 1), 2, 512) == At(1, 1, 1);
  }

  /** Three full blocks, a byte in a fourth, and one descriptor behind it. */
  function Four(mem: seq<byte>): Fs {
    Fs([FileV("f", mem, [512, 512, 512, 1], 1, false, false)], [0], [Some(At(3, 3, 1)), None, None, None], 1, NoErr)
  }

  lemma WrittenFour(fs: Fs)
    requires Inv(fs) && fs == Fs([FileV("f", [], [], 1, false, false)], [0], [Some(At(-1, -1, 0)), None, None, None], 1, NoErr)
    ensures |Zeros(1537)| == 1537 && exists mem :: Write(fs, 0, Zeros(1537)).0 == Four(mem)
  {
    var f, buf := fs.files[0], Zeros(1537);
    var g := WriteFile(f, 0, buf);
    assert g.occ == [512, 512, 512, 1];
    assert buf[..1537] == buf;
    assert WriteCursor(At(-1, -1, 0), 0, 1537) == At(3, 3, 1);
    assert Bit(8, 8);
    assert Write(fs, 0, buf).0 == Four(g.mem);
  }

  /** Cutting the file of descriptor 0 to 600 bytes, a packed shrink, puts it from byte 1537 to byte 513. */
  ghost predicate LandsBefore(fs: Fs) {
    && Inv(fs) && |fs.table| == 4 && fs.table[0].Some? && Pos(fs.table[0].value) == 1537 && Careful(fs, OpResize(0, 600))
    && var after := Resize(fs, 0, 600).0; |after.table| == 4 && after.table[0].Some? && Pos(after.table[0].value) == 513
  }

  lemma CutFour(mem: seq<byte>)
    requires Inv(Four(mem)) && Flat(Four(mem))
    ensures LandsBefore(Four(mem))
  {
    PackedAs(Four(mem).files[0], 1537);
    assert Kept(600) == 2;
    assert ResizeCursor(At(3, 3, 1), 2, 88) == At(1, 1, 1);
  }

  /** A run of two calls after which a shrink puts a descriptor behind the new end well before it. */
  lemma BehindTheEndFails()
    ensures |Zeros(1537)| == 1537
    ensures exists fs :: Goes(EMPTY, [OpOpen("f", 1), OpWrite(0, Zeros(1537))], fs) && Flat(fs) && LandsBefore(fs)
  {
    hide Write, Goes, Open, Resize, LandsBefore, Flat;
    Opened();
    var fs := Open(EMPTY, "f", 1).0;
    OpenInv(EMPTY, "f", 1);
    WrittenFour(fs);
    var mem :| Write(fs, 0, Zeros(1537)).0 == Four(mem);
    WriteInv(fs, 0, Zeros(1537));
    Ends(Four(mem));
    var one, two := [OpWrite(0, Zeros(1537))], [OpOpen("f", 1), OpWrite(0, Zeros(1537))];
    assert one + [] == one && [OpOpen("f", 1)] + one == two;
    GoesOn(fs, OpWrite(0, Zeros(1537)), Four(mem), [], Four(mem));
    GoesOn(EMPTY, OpOpen("f", 1), fs, one, Four(mem));
    FlatAfter(two, Four(mem));
    CutFour(mem);
  }

  lemma FlatAfter(ops: seq<Op>, fs: Fs)
    requires Goes(EMPTY, ops, fs)
    ensures Inv(fs) && Flat(fs)
  {
    RunsStayFlat(ops);
  }
}
