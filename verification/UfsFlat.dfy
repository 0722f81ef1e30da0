/**
 What the block lists mean: a file is a flat string of bytes and a descriptor is a
 position in it. A file is packed when its blocks are full ones, then at most one
 partial one, then empty ones. On packed files write, read and resize behave as on
 the flat string, across any number of blocks; where the code departs from its
 documentation the lemma says exactly when.
 */
module UfsFlat {
  import opened UfsModel
  import opened UfsInvariant

  // ---------------------------------------------------------------- packed files

  /** How many bytes the blocks hold. */
  function Bytes(occ: seq<nat>): nat {
    if occ == [] then 0 else Bytes(occ[..|occ| - 1]) + occ[|occ| - 1]
  }

  function Filled(total: int, i: nat): nat { Max(0, Min(BLOCK_SIZE, total - BLOCK_SIZE * i)) }

  function Fill(total: nat, count: nat): (r: seq<nat>)
    ensures |r| == count
  {
    seq(count, i requires 0 <= i => Filled(total, i))
  }

  ghost predicate Packed(f: FileV) { f.occ == Fill(Bytes(f.occ), |f.occ|) }

  function Content(f: FileV): seq<byte>
    requires Bytes(f.occ) <= |f.mem|
  {
    f.mem[..Bytes(f.occ)]
  }

  ghost predicate FlatSlot(fs: Fs, slot: Slot) {
    slot.Some? && slot.value.file < |fs.files| ==> Pos(slot.value) <= Bytes(fs.files[slot.value.file].occ)
  }

  /** Every file is packed and no descriptor is beyond the bytes of its file. */
  ghost predicate Flat(fs: Fs) {
    && (forall id :: 0 <= id < |fs.files| ==> Packed(fs.files[id]))
    && (forall i :: 0 <= i < |fs.table| ==> FlatSlot(fs, fs.table[i]))
  }

  lemma {:induction false} BytesOfFill(total: nat, count: nat)
    requires total <= BLOCK_SIZE * count
    ensures Bytes(Fill(total, count)) == total
  {
    if count > 0 {
      BytesOfFill(Min(total, BLOCK_SIZE * (count - 1)), count - 1);
      assert Fill(total, count)[..count - 1] == Fill(Min(total, BLOCK_SIZE * (count - 1)), count - 1);
    }
  }

  lemma {:induction false} BytesBound(occ: seq<nat>)
    requires forall i :: 0 <= i < |occ| ==> occ[i] <= BLOCK_SIZE
    ensures Bytes(occ) <= BLOCK_SIZE * |occ|
  {
    if occ != [] { BytesBound(occ[..|occ| - 1]); }
  }

  lemma PackedAs(f: FileV, total: nat)
    requires f.occ == Fill(total, |f.occ|) && total <= BLOCK_SIZE * |f.occ|
    ensures Packed(f) && Bytes(f.occ) == total
  {
    BytesOfFill(total, |f.occ|);
  }

  lemma {:induction false} EndOfPacked(total: nat, count: nat, at: nat)
    requires BLOCK_SIZE * at <= total <= BLOCK_SIZE * count && at <= count
    ensures End(Fill(total, count), at) == total
    decreases count - at
  {
    if at < count && Fill(total, count)[at] == BLOCK_SIZE { EndOfPacked(total, count, at + 1); }
  }

  // ---------------------------------------------------------------- write

  lemma PackedWrite(f: FileV, pos: nat, data: seq<byte>)
    requires FileInv(f) && Packed(f) && pos <= Bytes(f.occ) <= |f.mem| && pos + |data| <= MAX_FILE_SIZE
    ensures var g := WriteFile(f, pos, data);
            && Packed(g) && Bytes(g.occ) == Max(Bytes(f.occ), pos + |data|) <= |g.mem|
  {
    var g := WriteFile(f, pos, data);
    var hi := pos + |data|;
    var total := Bytes(f.occ);
    var grown := Grow(f, Blocks(hi));
    forall i | 0 <= i < |grown.occ| ensures grown.occ[i] == Filled(total, i) {
      if i < |f.occ| { assert f.occ[i] == Fill(total, |f.occ|)[i]; }
    }
    forall i | 0 <= i < |g.occ| ensures g.occ[i] == Filled(Max(total, hi), i) {
      assert g.occ[i] == RaisedAt(grown.occ[i], i, pos, hi);
    }
    assert g.occ == Fill(Max(total, hi), |g.occ|);
    PackedAs(g, Max(total, hi));
  }

  lemma SplicedPrefix(was: seq<byte>, mem: seq<byte>, total: nat, pos: nat, data: seq<byte>)
    requires pos <= total <= |was| <= |mem| && pos + |data| <= |mem| && mem[..|was|] == was
    ensures Splice(mem, pos, data)[..Max(total, pos + |data|)] ==
            was[..total][..pos] + data + was[..total][Min(pos + |data|, total)..]
  {
  }

  lemma WrittenContent(f: FileV, pos: nat, data: seq<byte>)
    requires FileInv(f) && Packed(f) && pos <= Bytes(f.occ) <= |f.mem| && pos + |data| <= MAX_FILE_SIZE
    ensures var g := WriteFile(f, pos, data);
            && Bytes(g.occ) <= |g.mem|
            && Content(g) == Content(f)[..pos] + data + Content(f)[Min(pos + |data|, |Content(f)|)..]
  {
    PackedWrite(f, pos, data);
    hide Packed, Raise, Bytes;
    var grown := Grow(f, Blocks(pos + |data|));
    assert grown.mem[..|f.mem|] == f.mem;
    hide Grow;
    SplicedPrefix(f.mem, grown.mem, Bytes(f.occ), pos, data);
  }

  lemma WriteMoves(c: Cursor, blocks: nat, n: nat)
    requires 0 <= Pos(c) <= MAX_FILE_SIZE
    ensures WriteCursor(c, blocks, n).file == c.file
    ensures Pos(WriteCursor(c, blocks, n)) == if Pos(c) + n <= MAX_FILE_SIZE then Pos(c) + n else 0
  {
  }

  /** One descriptor moves within its file, which stays packed and loses no byte: the file system stays flat. */
  lemma FlatStep(fs: Fs, fd: nat, g: FileV, c: Cursor, error: Error)
    requires Flat(fs) && fd < |fs.table| && c.file < |fs.files|
    requires Packed(g) && Bytes(fs.files[c.file].occ) <= Bytes(g.occ) && Pos(c) <= Bytes(g.occ)
    ensures Flat(Moved(fs, fd, g, c, error))
  {
    var fs' := Moved(fs, fd, g, c, error);
    forall i | 0 <= i < |fs.table| ensures FlatSlot(fs', fs'.table[i]) {
      assert FlatSlot(fs, fs.table[i]);
    }
  }

  /** ufs_write on a file and a descriptor of it: what it stores and where the descriptor ends up. */
  ghost predicate WritesFlat(f: FileV, p: int, buf: seq<byte>, f': FileV, p': int, result: int)
    requires Bytes(f.occ) <= |f.mem| && Bytes(f'.occ) <= |f'.mem|
  {
    && 0 <= p <= |Content(f)|
    && (p + |buf| <= MAX_FILE_SIZE ==>
          && result == |buf|
          && Content(f') == Content(f)[..p] + buf + Content(f)[Min(p + |buf|, |Content(f)|)..]
          && p' == p + |buf|)
    && (p + |buf| > MAX_FILE_SIZE ==>
          && result == -1
          && 0 <= MAX_FILE_SIZE - p
          && Content(f') == Content(f)[..p] + buf[..MAX_FILE_SIZE - p]
          && p' == 0)
  }

  lemma WriteFileRefines(f: FileV, c: Cursor, buf: seq<byte>)
    requires FileInv(f) && Packed(f) && CursorOk(c, f) && !f.freed && (c.at < 0 ==> f.occ == []) && Pos(c) <= Bytes(f.occ)
    ensures var k := Room(Pos(c), |buf|);
            var g := WriteFile(f, Pos(c), buf[..k]);
            && Packed(g) && Bytes(f.occ) <= |f.mem| && Bytes(f.occ) <= Bytes(g.occ) <= |g.mem|
            && WriteCursor(c, |f.occ|, |buf|).file == c.file
            && Pos(WriteCursor(c, |f.occ|, |buf|)) <= Bytes(g.occ)
            && WritesFlat(f, Pos(c), buf, g, Pos(WriteCursor(c, |f.occ|, |buf|)), if k < |buf| then -1 else |buf|)
  {
    hide WriteFile, WriteCursor, Packed, FileInv, CursorOk, Bytes, Content;
    PosInFile(f, c);
    var k := Room(Pos(c), |buf|);
    var data := buf[..k];
    PackedWrite(f, Pos(c), data);
    WrittenContent(f, Pos(c), data);
    WriteMoves(c, |f.occ|, |buf|);
    ContentSize(f);
    assert k == |buf| ==> data == buf;
    FullTail(Content(f), Pos(c), k, MAX_FILE_SIZE);
  }

  lemma PosInFile(f: FileV, c: Cursor)
    requires FileInv(f) && CursorOk(c, f) && Pos(c) <= Bytes(f.occ)
    ensures 0 <= Pos(c) <= Bytes(f.occ) <= |f.mem| <= MAX_FILE_SIZE
  {
    BytesBound(f.occ);
  }

  lemma ContentSize(f: FileV)
    requires Bytes(f.occ) <= |f.mem|
    ensures |Content(f)| == Bytes(f.occ)
  {
  }

  /** Nothing is left behind a write that goes to the end of the largest file. */
  lemma FullTail(content: seq<byte>, p: nat, k: nat, max: nat)
    requires p <= |content| <= max && p + k <= max
    ensures p + k == max ==> content[Min(p + k, |content|)..] == []
  {
  }

  /** ufs_write puts the buffer at the descriptor's position in the flat file and moves the descriptor behind it. */
  lemma WriteRefines(fs: Fs, fd: int, buf: seq<byte>)
    requires Inv(fs) && Flat(fs) && fd != |fs.table| && !BadFd(fs, fd)
    requires Allows(fs.table[fd].value.permissions, UFS_WRITE_ONLY)
    ensures var (fs', n) := Write(fs, fd, buf);
            var c := fs.table[fd].value;
            && Flat(fs')
            && Bytes(fs.files[c.file].occ) <= |fs.files[c.file].mem|
            && Bytes(fs'.files[c.file].occ) <= |fs'.files[c.file].mem|
            && WritesFlat(fs.files[c.file], Pos(c), buf, fs'.files[c.file], Pos(fs'.table[fd].value), n)
            && (n == -1 ==> fs'.error == NoMem)
    ensures var fs' := Write(fs, fd, buf).0;
            && (forall id :: 0 <= id < |fs.files| && id != fs.table[fd].value.file ==> fs'.files[id] == fs.files[id])
            && (forall i :: 0 <= i < |fs.table| && i != fd ==> fs'.table[i] == fs.table[i])
  {
    assert SlotOk(fs, fs.table[fd]) && FlatSlot(fs, fs.table[fd]);
    OpenFileIsAlive(fs, fd);
    var f := fs.files[fs.table[fd].value.file];
    assert FileInv(f) && Packed(f);
    hide WriteFile, WriteCursor, WritesFlat, Inv, Flat, Packed, FlatSlot;
    var c := Started(fs.table[fd].value, |f.occ|);
    var data := buf[..Room(Pos(c), |buf|)];
    var error := if |data| < |buf| then NoMem else NoErr;
    WriteFileRefines(f, c, buf);
    FlatStep(fs, fd, WriteFile(f, Pos(c), data), WriteCursor(c, |f.occ|, |buf|), error);
  }

  // ---------------------------------------------------------------- read

  /** A read on a packed file stops at the end of its bytes; the descriptor follows unless it walks off a full last block. */
  lemma ReadMoves(f: FileV, c: Cursor, n: nat)
    requires FileInv(f) && Packed(f) && CursorOk(c, f) && (c.at < 0 ==> f.occ == []) && Pos(c) <= Bytes(f.occ)
    ensures ReadEnd(c, f.occ, n) == Min(Pos(c) + n, Bytes(f.occ))
    ensures ReadCursor(c, f.occ, n).file == c.file
    ensures var p, k := Pos(ReadCursor(c, f.occ, n)), Min(Pos(c) + n, Bytes(f.occ));
            && (p == k <==> Pos(c) + n <= Bytes(f.occ) || Bytes(f.occ) < BLOCK_SIZE * |f.occ| || f.occ == [])
            && (p != k ==> p == 0)
  {
    BytesBound(f.occ);
    if c.at >= 0 { EndOfPacked(Bytes(f.occ), |f.occ|, c.at); }
  }

  /** What ufs_read returns from position p, and the position p' after it. */
  ghost predicate ReadsFlat(f: FileV, p: int, n: nat, out: seq<byte>, p': int)
    requires Bytes(f.occ) <= |f.mem|
  {
    && 0 <= p <= |Content(f)|
    && out == Content(f)[p..Min(p + n, |Content(f)|)]
    && (p' == p + |out| <==> p + n <= |Content(f)| || |Content(f)| < BLOCK_SIZE * |f.occ| || f.occ == [])
    && (p' != p + |out| ==> p' == 0)
  }

  lemma ReadFileRefines(f: FileV, c: Cursor, n: nat)
    requires FileInv(f) && Packed(f) && CursorOk(c, f) && (c.at < 0 ==> f.occ == []) && Pos(c) <= Bytes(f.occ)
    ensures Bytes(f.occ) <= |f.mem| && 0 <= Pos(c) <= ReadEnd(c, f.occ, n) <= |f.mem|
    ensures ReadsFlat(f, Pos(c), n, f.mem[Pos(c)..ReadEnd(c, f.occ, n)], Pos(ReadCursor(c, f.occ, n)))
    ensures ReadCursor(c, f.occ, n).file == c.file && Pos(ReadCursor(c, f.occ, n)) <= Bytes(f.occ)
  {
    BytesBound(f.occ);
    ReadMoves(f, c, n);
    var end := ReadEnd(c, f.occ, n);
    SliceOfPrefix(f.mem, Bytes(f.occ), Pos(c), end);
  }

  lemma SliceOfPrefix(s: seq<byte>, total: nat, from: nat, to: nat)
    requires from <= to <= total <= |s|
    ensures s[..total][from..to] == s[from..to]
  {
  }

  /**
   ufs_read returns the bytes of the flat file from the descriptor's position on,
   and changes no file. It leaves the descriptor behind them, except when it runs
   past a last block that is completely full: then the next operation starts over
   from byte 0.
   */
  lemma ReadRefines(fs: Fs, fd: int, n: nat)
    requires Inv(fs) && Flat(fs) && fd != |fs.table| && !BadFd(fs, fd)
    requires Allows(fs.table[fd].value.permissions, UFS_READ_ONLY)
    ensures var (fs', k, out) := Read(fs, fd, n);
            var c := fs.table[fd].value;
            && Flat(fs') && fs'.files == fs.files
            && Bytes(fs.files[c.file].occ) <= |fs.files[c.file].mem|
            && ReadsFlat(fs.files[c.file], Pos(c), n, out, Pos(fs'.table[fd].value)) && k == |out|
    ensures forall i :: 0 <= i < |fs.table| && i != fd ==> Read(fs, fd, n).0.table[i] == fs.table[i]
  {
    assert SlotOk(fs, fs.table[fd]) && FlatSlot(fs, fs.table[fd]);
    var f := fs.files[fs.table[fd].value.file];
    assert FileInv(f) && Packed(f);
    var c := Started(fs.table[fd].value, |f.occ|);
    ReadFileRefines(f, c, n);
    hide ReadCursor, ReadEnd, ReadsFlat, Inv, Flat, Packed, FlatSlot, FileInv, CursorOk;
    FlatStep(fs, fd, f, ReadCursor(c, f.occ, n), NoErr);
    assert Read(fs, fd, n).0.files == fs.files;
  }

  /** What one descriptor writes, any other descriptor of the file reads back from the same position. */
  lemma ReadBack(fs: Fs, writer: int, reader: int, buf: seq<byte>)
    requires Inv(fs) && Flat(fs) && writer != |fs.table| && reader != |fs.table| && writer != reader
    requires !BadFd(fs, writer) && !BadFd(fs, reader)
    requires fs.table[reader].value.file == fs.table[writer].value.file
    requires Pos(fs.table[reader].value) == Pos(fs.table[writer].value)
    requires Pos(fs.table[writer].value) + |buf| <= MAX_FILE_SIZE
    requires Allows(fs.table[writer].value.permissions, UFS_WRITE_ONLY)
    requires Allows(fs.table[reader].value.permissions, UFS_READ_ONLY)
    ensures Inv(Write(fs, writer, buf).0)
    ensures Read(Write(fs, writer, buf).0, reader, |buf|).2 == buf
  {
    WriteInv(fs, writer, buf);
    WriteRefines(fs, writer, buf);
    ReadRefines(Write(fs, writer, buf).0, reader, |buf|);
  }

  // ---------------------------------------------------------------- resize

  /** Growing, or asking for the block count the file has, moves nothing. */
  ghost predicate Shrinks(f: FileV, size: nat) { Blocks(size) < |f.occ| }

  /** A shrink stays packed exactly when the blocks before its last one are full. */
  ghost predicate ShrinkIsPacked(f: FileV, size: nat) {
    Shrinks(f, size) ==> BLOCK_SIZE * (Kept(size) - 1) <= Bytes(f.occ)
  }

  lemma PackedResize(f: FileV, size: nat)
    requires FileInv(f) && Packed(f) && size <= MAX_FILE_SIZE
    ensures Packed(ResizeFile(f, size)) <==> ShrinkIsPacked(f, size)
    ensures ShrinkIsPacked(f, size) ==>
              && Bytes(ResizeFile(f, size).occ) == (if Shrinks(f, size) then size else Bytes(f.occ))
              && Bytes(f.occ) <= |f.mem| && Bytes(ResizeFile(f, size).occ) <= |ResizeFile(f, size).mem|
  {
    BytesBound(f.occ);
    if Shrinks(f, size) {
      PackedShrink(f, size);
    } else {
      PackedGrow(f, size);
    }
  }

  lemma PackedGrow(f: FileV, size: nat)
    requires FileInv(f) && Packed(f) && size <= MAX_FILE_SIZE && !Shrinks(f, size) && Bytes(f.occ) <= BLOCK_SIZE * |f.occ|
    ensures var g := ResizeFile(f, size); Packed(g) && Bytes(g.occ) == Bytes(f.occ) <= |g.mem|
  {
    hide Fill, Bytes;
    GrownFill(f, Blocks(size));
    PackedAs(ResizeFile(f, size), Bytes(f.occ));
  }

  lemma PackedShrink(f: FileV, size: nat)
    requires FileInv(f) && Packed(f) && size <= MAX_FILE_SIZE && Shrinks(f, size) && Bytes(f.occ) <= BLOCK_SIZE * |f.occ|
    ensures var g := ResizeFile(f, size);
            && (Packed(g) <==> ShrinkIsPacked(f, size))
            && (ShrinkIsPacked(f, size) ==> Bytes(g.occ) == size <= |g.mem|)
  {
    hide Fill, Bytes;
    var g, kept := ResizeFile(f, size), Kept(size);
    ShrunkFill(Bytes(f.occ), |f.occ|, size);
    assert g.occ == Fill(Bytes(f.occ), |f.occ|)[..kept - 1] + [size - BLOCK_SIZE * (kept - 1)];
    if ShrinkIsPacked(f, size) { PackedAs(g, size); }
  }

  lemma GrownFill(f: FileV, count: nat)
    requires Packed(f) && Bytes(f.occ) <= BLOCK_SIZE * |f.occ| && |f.occ| <= count
    ensures Grow(f, count).occ == Fill(Bytes(f.occ), count)
  {
  }

  /** The occupied counts a shrink leaves are those of `size` bytes, or no packed counts at all. */
  lemma ShrunkFill(total: nat, count: nat, size: nat)
    requires total <= BLOCK_SIZE * count && Blocks(size) < count
    ensures var kept := Kept(size);
            var occ := Fill(total, count)[..kept - 1] + [size - BLOCK_SIZE * (kept - 1)];
            && (BLOCK_SIZE * (kept - 1) <= total ==> occ == Fill(size, kept))
            && (BLOCK_SIZE * (kept - 1) > total ==> forall t :: occ != Fill(t, kept))
  {
    var kept := Kept(size);
    var occ := Fill(total, count)[..kept - 1] + [size - BLOCK_SIZE * (kept - 1)];
    if BLOCK_SIZE * (kept - 1) > total {
      forall t: nat ensures occ != Fill(t, kept) {
        assert occ[kept - 1] > 0 && occ[kept - 2] == Filled(total, kept - 2) < BLOCK_SIZE;
        assert Fill(t, kept)[kept - 1] == Filled(t, kept - 1) && Fill(t, kept)[kept - 2] == Filled(t, kept - 2);
      }
    }
  }

  /** The bytes after a resize: cut to `size`, or left alone when the block count does not fall. */
  lemma ResizeContent(f: FileV, size: nat)
    requires FileInv(f) && Packed(f) && size <= MAX_FILE_SIZE && ShrinkIsPacked(f, size)
    ensures var g := ResizeFile(f, size);
            && Bytes(f.occ) <= |f.mem| && Bytes(g.occ) <= |g.mem|
            && |g.occ| == (if Shrinks(f, size) then Max(1, Blocks(size)) else Blocks(size))
            && (!Shrinks(f, size) ==> Content(g) == Content(f))
            && (Shrinks(f, size) && size <= |Content(f)| ==> Content(g) == Content(f)[..size])
            && (Shrinks(f, size) && size > |Content(f)| ==> Content(g) == Content(f) + f.mem[|Content(f)|..size])
            && (size <= |Content(f)| ==> (Content(g) == Content(f)[..size] <==> Shrinks(f, size) || size == |Content(f)|))
  {
    PackedResize(f, size);
    var g, n := ResizeFile(f, size), Bytes(f.occ);
    hide Bytes, Packed;
    if Shrinks(f, size) {
      CutSlices(f.mem, BLOCK_SIZE * Kept(size), n, size);
    } else {
      assert g.mem[..n] == f.mem[..n];
    }
  }

  lemma CutSlices(mem: seq<byte>, cut: nat, n: nat, size: nat)
    requires n <= |mem| && size <= cut <= |mem|
    ensures mem[..cut][..size] == mem[..size]
    ensures size > n ==> mem[..size] == mem[..n] + mem[n..size]
    ensures size <= n ==> mem[..n][..size] == mem[..size]
  {
  }

  /**
   A shrink and any descriptor before the new end. It keeps its position exactly if its
   index is before that of the new last block; or its block is that one; or its index is
   that one's and it has no block or is not behind the new count; or it has no block and
   only one is left. For a descriptor with the index of its block it is always one of these.
   */
  lemma ResizePosition(f: FileV, c: Cursor, size: nat)
    requires FileInv(f) && CursorOk(c, f) && Shrinks(f, size) && Pos(c) < size
    ensures var kept := Kept(size);
            var last := size - BLOCK_SIZE * (kept - 1);
            Pos(ResizeCursor(c, kept, last)) == Pos(c)
            <==> (|| c.index < kept - 1 || c.at == kept - 1
                  || (c.index == kept - 1 && (c.at < 0 || c.offset <= last))
                  || (c.at < 0 && kept == 1))
    ensures 0 <= c.index == c.at ==> ResizeCursor(c, Kept(size), size - BLOCK_SIZE * (Kept(size) - 1)) == c
  {
  }

  /**
   At or behind the new end, any descriptor lands at or before it: at it exactly if its
   index is that of a block that is left, or its offset reaches the new count.
   */
  lemma ResizePositionBehind(f: FileV, c: Cursor, size: nat)
    requires FileInv(f) && CursorOk(c, f) && Shrinks(f, size) && Pos(c) >= size
    ensures var last := size - BLOCK_SIZE * (Kept(size) - 1);
            var d := ResizeCursor(c, Kept(size), last);
            && Pos(d) <= size && (Pos(d) == size <==> c.index < Kept(size) || c.offset >= last)
            && (0 <= c.index == c.at ==> 0 <= d.index == d.at < Kept(size))
  {
  }

  /** A packed shrink leaves every descriptor of the file within its bytes. */
  lemma ShrinkPositions(f: FileV, c: Cursor, size: nat)
    requires FileInv(f) && CursorOk(c, f) && Shrinks(f, size) && Pos(c) <= Bytes(f.occ)
    ensures var d := ResizeCursor(c, Kept(size), size - BLOCK_SIZE * (Kept(size) - 1)); -1 <= d.at < Kept(size) && Pos(d) <= size
  {
  }

  lemma ResizeFlat(fs: Fs, fd: int, size: nat)
    requires Inv(fs) && Flat(fs) && fd != |fs.table| && !BadFd(fs, fd) && size <= MAX_FILE_SIZE
    ensures fs.table[fd].value.file < |fs.files|
    ensures Flat(Resize(fs, fd, size).0) <==> ShrinkIsPacked(fs.files[fs.table[fd].value.file], size)
  {
    var fs' := Resize(fs, fd, size).0;
    assert SlotOk(fs, fs.table[fd]);
    var id := fs.table[fd].value.file;
    var f := fs.files[id];
    PackedResize(f, size);
    if ShrinkIsPacked(f, size) {
      forall i | 0 <= i < |fs.table| ensures FlatSlot(fs', fs'.table[i]) {
        assert FlatSlot(fs, fs.table[i]) && SlotOk(fs, fs.table[i]);
        if Shrinks(f, size) && fs.table[i].Some? && fs.table[i].value.file == id {
          ShrinkPositions(f, fs.table[i].value, size);
        }
      }
    } else {
      assert !Packed(fs'.files[id]);
    }
  }

  /** ufs_resize on the whole file system: one file changes, its descriptors stay inside it, all others are untouched. */
  lemma ResizeRefines(fs: Fs, fd: int, size: nat)
    requires Inv(fs) && Flat(fs) && fd != |fs.table| && !BadFd(fs, fd) && size <= MAX_FILE_SIZE
    ensures var fs' := Resize(fs, fd, size).0;
            var id := fs.table[fd].value.file;
            && (Flat(fs') <==> ShrinkIsPacked(fs.files[id], size))
            && fs'.files[id] == ResizeFile(fs.files[id], size)
            && (forall k :: 0 <= k < |fs.files| && k != id ==> fs'.files[k] == fs.files[k])
            && (forall i :: 0 <= i < |fs.table| && (fs.table[i].None? || fs.table[i].value.file != id || !Shrinks(fs.files[id], size))
                  ==> fs'.table[i] == fs.table[i])
            && (forall i :: 0 <= i < |fs.table| && fs.table[i].Some? && fs.table[i].value.file == id && Shrinks(fs.files[id], size)
                  ==> fs'.table[i] == Some(ResizeCursor(fs.table[i].value, Kept(size), size - BLOCK_SIZE * (Kept(size) - 1)))
                      && -1 <= fs'.table[i].value.at < Kept(size) && Pos(fs'.table[i].value) <= size)
  {
    ResizeFlat(fs, fd, size);
    var id := fs.table[fd].value.file;
    forall i | 0 <= i < |fs.table| && fs.table[i].Some? && fs.table[i].value.file == id && Shrinks(fs.files[id], size)
      ensures var d := ResizeCursor(fs.table[i].value, Kept(size), size - BLOCK_SIZE * (Kept(size) - 1));
              -1 <= d.at < Kept(size) && Pos(d) <= size
    {
      assert SlotOk(fs, fs.table[i]) && FlatSlot(fs, fs.table[i]);
      ShrinkPositions(fs.files[id], fs.table[i].value, size);
    }
  }

  // ---------------------------------------------------------------- runs

  datatype Op =
    | OpOpen(name: string, flags: int)
    | OpWrite(fd: int, buf: seq<byte>)
    | OpRead(fd: int, n: nat)
    | OpResize(fd: int, size: nat)
    | OpClose(fd: int)
    | OpDelete(name: string)

  /** The one thing callers must not do: name the slot right behind the table. */
  ghost predicate Legal(fs: Fs, op: Op) {
    (op.OpWrite? || op.OpRead? || op.OpResize? || op.OpClose?) ==> op.fd != |fs.table|
  }

  function Step(fs: Fs, op: Op): Fs
    requires Inv(fs) && Legal(fs, op)
  {
    match op
    case OpOpen(name, flags) => Open(fs, name, flags).0
    case OpWrite(fd, buf) => Write(fs, fd, buf).0
    case OpRead(fd, n) => Read(fs, fd, n).0
    case OpResize(fd, size) => Resize(fs, fd, size).0
    case OpClose(fd) => Close(fs, fd).0
    case OpDelete(name) => Delete(fs, name).0
  }

  lemma StepInv(fs: Fs, op: Op)
    requires Inv(fs) && Legal(fs, op)
    ensures Inv(Step(fs, op))
  {
    match op
    case OpOpen(name, flags) => OpenInv(fs, name, flags);
    case OpWrite(fd, buf) => WriteInv(fs, fd, buf);
    case OpRead(fd, n) => ReadInv(fs, fd, n);
    case OpResize(fd, size) => ResizeInv(fs, fd, size);
    case OpClose(fd) => CloseInv(fs, fd);
    case OpDelete(name) => DeleteInv(fs, name);
  }

  /** No operation of the run names the slot behind the table. */
  ghost predicate LegalRun(fs: Fs, ops: seq<Op>)
    requires Inv(fs)
    decreases |ops|
  {
    ops == [] || (Legal(fs, ops[0]) && (StepInv(fs, ops[0]); LegalRun(Step(fs, ops[0]), ops[1..])))
  }

  /** The state after a run; the invariant holds in every state on the way, because it is what lets the run go on. */
  ghost function Run(fs: Fs, ops: seq<Op>): (r: Fs)
    requires Inv(fs) && LegalRun(fs, ops)
    ensures Inv(r)
    decreases |ops|
  {
    if ops == [] then fs else (StepInv(fs, ops[0]); Run(Step(fs, ops[0]), ops[1..]))
  }

  /** Every shrink of the run leaves only full blocks before its last one. */
  ghost predicate Careful(fs: Fs, op: Op) {
    op.OpResize? && 0 <= op.fd < |fs.table| && fs.table[op.fd].Some? && fs.table[op.fd].value.file < |fs.files|
      && op.size <= MAX_FILE_SIZE
    ==> ShrinkIsPacked(fs.files[fs.table[op.fd].value.file], op.size)
  }

  lemma StepFlat(fs: Fs, op: Op)
    requires Inv(fs) && Flat(fs) && Legal(fs, op) && Careful(fs, op)
    ensures Flat(Step(fs, op))
  {
    match op
    case OpWrite(fd, buf) => WriteFlat(fs, fd, buf);
    case OpRead(fd, n) => ReadFlat(fs, fd, n);
    case OpResize(fd, size) =>
      if !BadFd(fs, fd) && size <= MAX_FILE_SIZE { assert SlotOk(fs, fs.table[fd]); ResizeFlat(fs, fd, size); }
      else { SameBytes(fs, Step(fs, op)); }
    case OpOpen(name, flags) => OpenFlat(fs, name, flags);
    case OpClose(fd) => StepInv(fs, op); CloseFlat(fs, fd);
    case OpDelete(name) => StepInv(fs, op); DeleteFlat(fs, name);
  }

  lemma WriteFlat(fs: Fs, fd: int, buf: seq<byte>)
    requires Inv(fs) && Flat(fs) && fd != |fs.table|
    ensures Flat(Write(fs, fd, buf).0)
  {
    if !BadFd(fs, fd) && Allows(fs.table[fd].value.permissions, UFS_WRITE_ONLY) {
      WriteRefines(fs, fd, buf);
    } else {
      SameBytes(fs, Write(fs, fd, buf).0);
    }
  }

  lemma ReadFlat(fs: Fs, fd: int, n: nat)
    requires Inv(fs) && Flat(fs) && fd != |fs.table|
    ensures Flat(Read(fs, fd, n).0)
  {
    if !BadFd(fs, fd) && Allows(fs.table[fd].value.permissions, UFS_READ_ONLY) {
      ReadRefines(fs, fd, n);
    } else {
      SameBytes(fs, Read(fs, fd, n).0);
    }
  }

  lemma OpenFlat(fs: Fs, name: string, flags: int)
    requires Inv(fs) && Flat(fs)
    ensures Flat(Open(fs, name, flags).0)
  {
    FreeSlotExists(fs);
    var k := Find(fs, name, 0);
    if k < |fs.listed| {
      CreateFlat(fs.(error := NoErr), fs.listed[k], Permissions(flags));
    } else if flags % 2 == 1 {
      var added := AddFile(fs, name).(error := NoErr);
      forall i | 0 <= i < |fs.table| ensures FlatSlot(added, added.table[i]) {
        assert FlatSlot(fs, fs.table[i]) && SlotOk(fs, fs.table[i]);
      }
      CreateFlat(added, |fs.files|, Permissions(flags));
    }
  }

  lemma CreateFlat(fs: Fs, id: nat, permissions: int)
    requires Flat(fs) && id < |fs.files| && FirstFree(Extended(fs), 0) < Capacity(fs)
    ensures Flat(CreateDesc(fs, id, permissions).0)
  {
    var fs' := CreateDesc(fs, id, permissions).0;
    forall i | 0 <= i < |fs'.table| ensures FlatSlot(fs', fs'.table[i]) {
      if i < |fs.table| { assert FlatSlot(fs, fs.table[i]); }
    }
  }

  lemma CloseFlat(fs: Fs, fd: int)
    requires Inv(fs) && Flat(fs) && fd != |fs.table| && Inv(Close(fs, fd).0)
    ensures Flat(Close(fs, fd).0)
  {
    var fs' := Close(fs, fd).0;
    forall i | 0 <= i < |fs'.table| && fs'.table[i].Some? ensures !fs'.files[fs'.table[i].value.file].freed {
      OpenFileIsAlive(fs', i);
    }
    SameBytes(fs, fs');
  }

  lemma DeleteFlat(fs: Fs, name: string)
    requires Inv(fs) && Flat(fs) && Inv(Delete(fs, name).0)
    ensures Flat(Delete(fs, name).0)
  {
    var fs' := Delete(fs, name).0;
    forall i | 0 <= i < |fs'.table| && fs'.table[i].Some? ensures !fs'.files[fs'.table[i].value.file].freed {
      OpenFileIsAlive(fs', i);
    }
    SameBytes(fs, fs');
  }

  /** Flat survives a step that creates empty files, frees files and puts descriptors at byte 0, and moves nothing else. */
  lemma SameBytes(fs: Fs, fs': Fs)
    requires Inv(fs) && Flat(fs) && |fs.files| <= |fs'.files|
    requires forall id :: 0 <= id < |fs'.files| ==>
               fs'.files[id].occ == [] || (id < |fs.files| && fs'.files[id].occ == fs.files[id].occ)
    requires forall i :: 0 <= i < |fs'.table| && fs'.table[i].Some? ==>
               || Pos(fs'.table[i].value) == 0
               || (i < |fs.table| && fs'.table[i] == fs.table[i] && fs'.table[i].value.file < |fs.files|
                   && fs'.files[fs'.table[i].value.file].occ == fs.files[fs'.table[i].value.file].occ)
    ensures Flat(fs')
  {
    forall i | 0 <= i < |fs'.table| ensures FlatSlot(fs', fs'.table[i]) {
      if i < |fs.table| { assert FlatSlot(fs, fs.table[i]); }
    }
  }

  ghost predicate CarefulRun(fs: Fs, ops: seq<Op>)
    requires Inv(fs) && LegalRun(fs, ops)
    decreases |ops|
  {
    ops == [] || (Careful(fs, ops[0]) && (StepInv(fs, ops[0]); CarefulRun(Step(fs, ops[0]), ops[1..])))
  }

  /** After every run of careful operations from the empty file system, each file is a flat string and each descriptor a position in it. */
  lemma RunsStayFlat(ops: seq<Op>)
    requires LegalRun(EMPTY, ops) && CarefulRun(EMPTY, ops)
    ensures Flat(Run(EMPTY, ops))
  {
    RunStaysFlat(EMPTY, ops);
  }

  lemma {:induction false} RunStaysFlat(fs: Fs, ops: seq<Op>)
    requires Inv(fs) && Flat(fs) && LegalRun(fs, ops) && CarefulRun(fs, ops)
    ensures Flat(Run(fs, ops))
    decreases |ops|
  {
    if ops != [] {
      StepInv(fs, ops[0]);
      StepFlat(fs, ops[0]);
      RunStaysFlat(Step(fs, ops[0]), ops[1..]);
    }
  }

  // ---------------------------------------------------------------- deleted files

  /** An operation that writes to file `id` or resizes it. */
  ghost predicate Changes(fs: Fs, op: Op, id: nat) {
    (op.OpWrite? || op.OpResize?) && 0 <= op.fd < |fs.table| && fs.table[op.fd].Some? && fs.table[op.fd].value.file == id
  }

  /** A file that is no longer listed, and what any operation may do to it. */
  lemma GhostStep(fs: Fs, op: Op, id: nat)
    requires Inv(fs) && Legal(fs, op) && id < |fs.files| && id !in fs.listed
    ensures Haunts(fs, Step(fs, op), id, Changes(fs, op, id))
  {
    match op
    case OpOpen(name, flags) => GhostOpen(fs, name, flags, id);
    case OpDelete(name) => GhostDelete(fs, name, id);
    case OpClose(fd) => GhostClose(fs, fd, id);
    case OpWrite(fd, buf) => GhostWrite(fs, fd, buf, id);
    case OpRead(fd, n) => assert Read(fs, fd, n).0.files == fs.files;
    case OpResize(fd, size) =>
  }

  lemma GhostWrite(fs: Fs, fd: int, buf: seq<byte>, id: nat)
    requires Inv(fs) && fd != |fs.table| && id < |fs.files| && id !in fs.listed
    ensures Haunts(fs, Write(fs, fd, buf).0, id, !BadFd(fs, fd) && fs.table[fd].value.file == id)
  {
  }

  lemma GhostClose(fs: Fs, fd: int, id: nat)
    requires Inv(fs) && fd != |fs.table| && id < |fs.files| && id !in fs.listed
    ensures Haunts(fs, Close(fs, fd).0, id, false)
  {
    if !BadFd(fs, fd) {
      OpenFileIsAlive(fs, fd);
      CloseInv(fs, fd);
    }
  }

  lemma GhostDelete(fs: Fs, name: string, id: nat)
    requires Inv(fs) && id < |fs.files| && id !in fs.listed
    ensures Haunts(fs, Delete(fs, name).0, id, false)
  {
    if Find(fs, name, 0) < |fs.listed| { DeletedListed(fs, Find(fs, name, 0)); }
  }

  lemma GhostOpen(fs: Fs, name: string, flags: int, id: nat)
    requires Inv(fs) && id < |fs.files| && id !in fs.listed
    ensures Haunts(fs, Open(fs, name, flags).0, id, false)
  {
    FreeSlotExists(fs);
    var k := Find(fs, name, 0);
    assert k < |fs.listed| ==> fs.listed[k] in fs.listed;
  }

  ghost predicate Haunts(fs: Fs, fs': Fs, id: nat, changed: bool)
    requires id < |fs.files|
  {
    && id < |fs'.files| && id !in fs'.listed
    && fs'.files[id].refs <= fs.files[id].refs
    && (fs'.files[id].refs > 0 && !changed ==> fs'.files[id].mem == fs.files[id].mem && fs'.files[id].occ == fs.files[id].occ)
  }

  ghost predicate NeverChanges(fs: Fs, ops: seq<Op>, id: nat)
    requires Inv(fs) && LegalRun(fs, ops)
    decreases |ops|
  {
    ops == [] || (!Changes(fs, ops[0], id) && (StepInv(fs, ops[0]); NeverChanges(Step(fs, ops[0]), ops[1..], id)))
  }

  /**
   A deleted file is never opened again, whatever is created under its name: over any
   run its descriptors only get fewer, it keeps its bytes while one is left unless a
   descriptor of its own changes them, and it is freed exactly when none is left.
   */
  lemma {:induction false} GhostRun(fs: Fs, ops: seq<Op>, id: nat)
    requires Inv(fs) && LegalRun(fs, ops) && id < |fs.files| && id !in fs.listed
    ensures var last := Run(fs, ops);
            && id < |last.files| && id !in last.listed
            && Refs(last.table, id) <= Refs(fs.table, id)
            && (last.files[id].freed <==> Refs(last.table, id) == 0)
            && (!last.files[id].freed && NeverChanges(fs, ops, id) ==>
                  last.files[id].mem == fs.files[id].mem && last.files[id].occ == fs.files[id].occ)
    decreases |ops|
  {
    if ops != [] {
      StepInv(fs, ops[0]);
      GhostStep(fs, ops[0], id);
      GhostRun(Step(fs, ops[0]), ops[1..], id);
    }
  }
}
