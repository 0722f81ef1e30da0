/**
 Every operation of UserFS, successful or not, keeps the invariant of UfsModel:
 block counts and occupied bytes in range, descriptors on existing blocks, reference
 counts equal to the number of open descriptors, unique names, and a removed file
 alive exactly until its last descriptor is closed. `UfsFlat.Run` states this for
 whole runs.
 */
module UfsInvariant {
  import opened UfsModel

  // ---------------------------------------------------------------- counting slots

  function Hit(slot: Slot, id: nat): nat { if slot.Some? && slot.value.file == id then 1 else 0 }

  lemma {:induction false} SlotSet(table: seq<Slot>, k: nat, slot: Slot, id: nat)
    requires k < |table|
    ensures Refs(table[k := slot], id) == Refs(table, id) - Hit(table[k], id) + Hit(slot, id)
    ensures Live(table[k := slot]) ==
            Live(table) - (if table[k].Some? then 1 else 0) + (if slot.Some? then 1 else 0)
  {
    var n := |table| - 1;
    if k < n {
      SlotSet(table[..n], k, slot, id);
      assert table[k := slot][..n] == table[..n][k := slot];
    } else {
      assert table[k := slot][..n] == table[..n];
    }
  }

  /** Tables whose slots name the same files count the same. */
  lemma {:induction false} SameFiles(a: seq<Slot>, b: seq<Slot>, id: nat)
    requires |a| == |b|
    requires forall i :: 0 <= i < |a| ==> a[i].Some? == b[i].Some? && (a[i].Some? ==> a[i].value.file == b[i].value.file)
    ensures Refs(a, id) == Refs(b, id) && Live(a) == Live(b)
  {
    if a != [] { SameFiles(a[..|a| - 1], b[..|a| - 1], id); }
  }

  lemma {:induction false} RefsPositive(table: seq<Slot>, k: nat)
    requires k < |table| && table[k].Some?
    ensures Refs(table, table[k].value.file) >= 1
  {
    if k < |table| - 1 { RefsPositive(table[..|table| - 1], k); }
  }

  lemma {:induction false} NoRefs(table: seq<Slot>, id: nat)
    requires forall i :: 0 <= i < |table| && table[i].Some? ==> table[i].value.file != id
    ensures Refs(table, id) == 0
  {
    if table != [] { NoRefs(table[..|table| - 1], id); }
  }

  /** A file some descriptor is open on is not freed. */
  lemma OpenFileIsAlive(fs: Fs, fd: nat)
    requires Inv(fs) && fd < |fs.table| && fs.table[fd].Some?
    ensures fs.table[fd].value.file < |fs.files| && !fs.files[fs.table[fd].value.file].freed
    ensures fs.files[fs.table[fd].value.file].refs >= 1
  {
    assert SlotOk(fs, fs.table[fd]);
    RefsPositive(fs.table, fd);
  }

  // ---------------------------------------------------------------- one file, one descriptor

  lemma WriteFileInv(f: FileV, c: Cursor, data: seq<byte>)
    requires FileInv(f) && CursorOk(c, f) && !f.freed
    requires Pos(c) + |data| <= MAX_FILE_SIZE
    ensures FileInv(WriteFile(f, Pos(c), data))
    ensures |WriteFile(f, Pos(c), data).occ| == Max(|f.occ|, Blocks(Pos(c) + |data|))
    ensures forall d :: CursorOk(d, f) ==> CursorOk(d, WriteFile(f, Pos(c), data))
  {
  }

  lemma WriteCursorOk(f: FileV, c: Cursor, data: seq<byte>, n: nat)
    requires FileInv(f) && CursorOk(c, f) && (c.at < 0 ==> f.occ == []) && !f.freed
    requires |data| == Room(Pos(c), n)
    ensures CursorOk(WriteCursor(c, |f.occ|, n), WriteFile(f, Pos(c), data))
  {
  }

  lemma ReadCursorOk(f: FileV, c: Cursor, n: nat)
    requires FileInv(f) && CursorOk(c, f)
    ensures CursorOk(ReadCursor(c, f.occ, n), f)
  {
    if c.at >= 0 { EndStops(f.occ, c.at, Pos(c)); }
  }

  /** A read that starts in block `at` finds every block full up to the one it stops in. */
  lemma {:induction false} EndStops(occ: seq<nat>, at: nat, pos: nat)
    requires at < |occ| && BLOCK_SIZE * at <= pos <= BLOCK_SIZE * at + occ[at]
    requires forall i :: 0 <= i < |occ| ==> occ[i] <= BLOCK_SIZE
    ensures forall i :: at <= i < |occ| && BLOCK_SIZE * (i + 1) <= End(occ, at) ==> occ[i] == BLOCK_SIZE
    ensures End(occ, at) < BLOCK_SIZE * |occ| ==>
              occ[End(occ, at) / BLOCK_SIZE] == End(occ, at) % BLOCK_SIZE
    ensures BLOCK_SIZE * at <= End(occ, at) <= BLOCK_SIZE * |occ|
    ensures forall i :: at <= i < |occ| && BLOCK_SIZE * i < End(occ, at) ==> Min(BLOCK_SIZE, End(occ, at) - BLOCK_SIZE * i) <= occ[i]
    decreases |occ| - at
  {
    EndBounds(occ, at);
    if occ[at] == BLOCK_SIZE && at + 1 < |occ| {
      EndStops(occ, at + 1, BLOCK_SIZE * (at + 1));
    }
  }

  lemma ResizeFileInv(f: FileV, size: nat)
    requires FileInv(f) && !f.freed && size <= MAX_FILE_SIZE
    ensures FileInv(ResizeFile(f, size))
    ensures |ResizeFile(f, size).occ| == if Blocks(size) >= |f.occ| then Blocks(size) else Kept(size)
  {
  }

  lemma ResizeCursorOk(f: FileV, c: Cursor, size: nat)
    requires FileInv(f) && CursorOk(c, f) && size <= MAX_FILE_SIZE
    ensures Blocks(size) >= |f.occ| ==> CursorOk(c, ResizeFile(f, size))
    ensures Blocks(size) < |f.occ| ==>
              CursorOk(ResizeCursor(c, Kept(size), size - BLOCK_SIZE * (Kept(size) - 1)), ResizeFile(f, size))
  {
  }

  // ---------------------------------------------------------------- each operation

  /** Changing one file and its descriptors in a way that names, reference counts and the life of files do not see. */
  lemma FileStepInv(fs: Fs, fs': Fs, id: nat)
    requires Inv(fs) && id < |fs.files| && |fs'.files| == |fs.files| && |fs'.table| == |fs.table|
    requires fs'.listed == fs.listed && fs'.count == fs.count
    requires forall k :: 0 <= k < |fs.files| && k != id ==> fs'.files[k] == fs.files[k]
    requires var f, g := fs.files[id], fs'.files[id];
             FileInv(g) && g.name == f.name && g.refs == f.refs && g.removed == f.removed && g.freed == f.freed
    requires forall i :: 0 <= i < |fs.table| ==>
               var s, t := fs.table[i], fs'.table[i];
               s.Some? == t.Some? && (s.Some? ==> t.value.file == s.value.file && SlotOk(fs', t))
    ensures Inv(fs')
  {
    forall k: nat ensures Refs(fs'.table, k) == Refs(fs.table, k) && Live(fs'.table) == Live(fs.table) {
      SameFiles(fs'.table, fs.table, k);
    }
    assert forall i :: 0 <= i < |fs'.table| ==> SlotOk(fs', fs'.table[i]);
  }

  lemma WriteInv(fs: Fs, fd: int, buf: seq<byte>)
    requires Inv(fs) && fd != |fs.table|
    ensures Inv(Write(fs, fd, buf).0)
  {
    if !BadFd(fs, fd) {
      assert SlotOk(fs, fs.table[fd]);
      OpenFileIsAlive(fs, fd);
      var f := fs.files[fs.table[fd].value.file];
      var c := Started(fs.table[fd].value, |f.occ|);
      if Allows(c.permissions, UFS_WRITE_ONLY) {
        AllowedWriteInv(f, c, buf);
        hide WriteFile, WriteCursor, CursorOk, FileInv, Inv;
        var data := buf[..Room(Pos(c), |buf|)];
        DescStepInv(fs, fd, WriteFile(f, Pos(c), data), WriteCursor(c, |f.occ|, |buf|), Write(fs, fd, buf).0.error);
      } else {
        DescStepInv(fs, fd, f, c, NoPermission);
      }
    }
  }

  lemma AllowedWriteInv(f: FileV, c: Cursor, buf: seq<byte>)
    requires FileInv(f) && CursorOk(c, f) && (c.at < 0 ==> f.occ == []) && !f.freed
    ensures 0 <= Pos(c) <= |f.mem| && 0 <= Room(Pos(c), |buf|) <= |buf|
    ensures var g := WriteFile(f, Pos(c), buf[..Room(Pos(c), |buf|)]);
            && FileInv(g) && g.name == f.name && g.refs == f.refs && g.removed == f.removed && g.freed == f.freed
            && CursorOk(WriteCursor(c, |f.occ|, |buf|), g) && WriteCursor(c, |f.occ|, |buf|).file == c.file
            && forall d :: CursorOk(d, f) ==> CursorOk(d, g)
  {
    var data := buf[..Room(Pos(c), |buf|)];
    WriteFileInv(f, c, data);
    WriteCursorOk(f, c, data, |buf|);
  }

  /** The step of one descriptor: it moves, and its file becomes g, on which every other descriptor still stands. */
  lemma DescStepInv(fs: Fs, fd: nat, g: FileV, c: Cursor, error: Error)
    requires Inv(fs) && fd < |fs.table| && fs.table[fd].Some? && fs.table[fd].value.file < |fs.files|
    requires c.file == fs.table[fd].value.file && CursorOk(c, g) && FileInv(g)
    requires var f := fs.files[c.file];
             && g.name == f.name && g.refs == f.refs && g.removed == f.removed && g.freed == f.freed
             && forall d :: CursorOk(d, f) ==> CursorOk(d, g)
    ensures Inv(Moved(fs, fd, g, c, error))
  {
    var fs' := Moved(fs, fd, g, c, error);
    forall i | 0 <= i < |fs.table| && fs.table[i].Some? ensures SlotOk(fs', fs'.table[i]) {
      assert SlotOk(fs, fs.table[i]);
    }
    FileStepInv(fs, fs', c.file);
  }

  lemma ReadInv(fs: Fs, fd: int, n: nat)
    requires Inv(fs) && fd != |fs.table|
    ensures Inv(Read(fs, fd, n).0)
  {
    if !BadFd(fs, fd) {
      assert SlotOk(fs, fs.table[fd]);
      var f := fs.files[fs.table[fd].value.file];
      var c := Started(fs.table[fd].value, |f.occ|);
      ReadCursorOk(f, c, n);
      DescStepInv(fs, fd, f, c, NoPermission);
      DescStepInv(fs, fd, f, ReadCursor(c, f.occ, n), NoErr);
    }
  }

  lemma ResizeInv(fs: Fs, fd: int, size: nat)
    requires Inv(fs) && fd != |fs.table|
    ensures Inv(Resize(fs, fd, size).0)
  {
    if !BadFd(fs, fd) && size <= MAX_FILE_SIZE {
      var id := fs.table[fd].value.file;
      OpenFileIsAlive(fs, fd);
      ResizeFileInv(fs.files[id], size);
      var fs' := Resize(fs, fd, size).0;
      forall i | 0 <= i < |fs.table| && fs.table[i].Some? ensures SlotOk(fs', fs'.table[i]) {
        assert SlotOk(fs, fs.table[i]);
        if fs.table[i].value.file == id { ResizeCursorOk(fs.files[id], fs.table[i].value, size); }
      }
      FileStepInv(fs, fs', id);
    }
  }

  /** A new descriptor in a free slot, its file one reference more. */
  lemma CreateDescInv(fs: Fs, id: nat, permissions: int)
    requires Inv(fs) && id < |fs.files| && id in fs.listed
    requires FirstFree(Extended(fs), 0) < Capacity(fs)
    ensures Inv(CreateDesc(fs, id, permissions).0)
  {
    var (fs', fd) := CreateDesc(fs, id, permissions);
    CreateDescCounts(fs, id, permissions);
    hide Extended, FirstFree, Refs, Live;
    assert LifeOk(fs') && ListedOk(fs');
    assert TableOk(fs') by { CreateDescSlots(fs, id, permissions); }
  }

  lemma CreateDescCounts(fs: Fs, id: nat, permissions: int)
    requires id < |fs.files| && FirstFree(Extended(fs), 0) < Capacity(fs)
    ensures var (fs', fd) := CreateDesc(fs, id, permissions);
            && (forall k: nat :: Refs(fs'.table, k) == Refs(fs.table, k) + (if k == id then 1 else 0))
            && Live(fs'.table) == Live(fs.table) + 1
  {
    var (fs', fd) := CreateDesc(fs, id, permissions);
    CountsExtended(fs, 0);
    SlotSet(Extended(fs), fd, fs'.table[fd], 0);
    forall k: nat ensures Refs(fs'.table, k) == Refs(fs.table, k) + (if k == id then 1 else 0) {
      CountsExtended(fs, k);
      SlotSet(Extended(fs), fd, fs'.table[fd], k);
    }
  }

  lemma CreateDescSlots(fs: Fs, id: nat, permissions: int)
    requires TableOk(fs) && id < |fs.files| && FirstFree(Extended(fs), 0) < Capacity(fs)
    requires FileInv(fs.files[id])
    ensures var fs' := CreateDesc(fs, id, permissions).0;
            forall i :: 0 <= i < |fs'.table| ==> SlotOk(fs', fs'.table[i])
  {
    var (fs', fd) := CreateDesc(fs, id, permissions);
    forall i | 0 <= i < |fs'.table| ensures SlotOk(fs', fs'.table[i]) {
      if i != fd && i < |fs.table| { assert SlotOk(fs, fs.table[i]); }
    }
  }

  /** A file just added breaks only the rule that a file is listed: it is, and nothing refers to it. */
  lemma AddFileInv(fs: Fs, name: string)
    requires Inv(fs) && Find(fs, name, 0) == |fs.listed|
    ensures Inv(AddFile(fs, name).(error := NoErr))
  {
    var added := AddFile(fs, name).(error := NoErr);
    forall i | 0 <= i < |fs.table| ensures SlotOk(added, added.table[i]) {
      assert SlotOk(fs, fs.table[i]);
    }
    forall i | 0 <= i < |fs.table| && fs.table[i].Some? ensures fs.table[i].value.file != |fs.files| {
      assert SlotOk(fs, fs.table[i]);
    }
    NoRefs(fs.table, |fs.files|);
    forall id | 0 <= id < |added.files| ensures id in added.listed <==> id == |fs.files| || id in fs.listed {
      assert id in fs.listed ==> id != |fs.files|;
    }
  }

  lemma OpenInv(fs: Fs, name: string, flags: int)
    requires Inv(fs)
    ensures Inv(Open(fs, name, flags).0)
  {
    var k := Find(fs, name, 0);
    FreeSlotExists(fs);
    if k < |fs.listed| {
      CreateDescInv(fs.(error := NoErr), fs.listed[k], Permissions(flags));
    } else if flags % 2 == 1 {
      AddFileInv(fs, name);
      CreateDescInv(AddFile(fs, name).(error := NoErr), |fs.files|, Permissions(flags));
    }
  }

  lemma CloseInv(fs: Fs, fd: int)
    requires Inv(fs) && fd != |fs.table|
    ensures Inv(Close(fs, fd).0)
  {
    if !BadFd(fs, fd) {
      var id := fs.table[fd].value.file;
      OpenFileIsAlive(fs, fd);
      var fs' := Close(fs, fd).0;
      forall k: nat
        ensures Refs(fs'.table, k) == Refs(fs.table, k) - (if k == id then 1 else 0)
        ensures Live(fs'.table) == Live(fs.table) - 1
      {
        SlotSet(fs.table, fd, None, k);
      }
      forall i | 0 <= i < |fs'.table| ensures SlotOk(fs', fs'.table[i]) {
        assert SlotOk(fs, fs.table[i]);
        if fs'.table[i].Some? { RefsPositive(fs'.table, i); }
      }
    }
  }

  lemma DeletedListed(fs: Fs, k: nat)
    requires Inv(fs) && k < |fs.listed|
    ensures forall x :: x in fs.listed[..k] + fs.listed[k + 1..] <==> x in fs.listed && x != fs.listed[k]
  {
    hide FileInv, LifeOk, TableOk;
    var rest := fs.listed[..k] + fs.listed[k + 1..];
    forall x | x in fs.listed && x != fs.listed[k] ensures x in rest {
      var i :| 0 <= i < |fs.listed| && fs.listed[i] == x;
      assert rest[if i < k then i else i - 1] == x;
    }
    forall x | x in rest ensures x in fs.listed && x != fs.listed[k] {
      var i :| 0 <= i < |rest| && rest[i] == x;
      assert fs.listed[if i < k then i else i + 1] == x;
    }
  }

  lemma DeletedNames(fs: Fs, fs': Fs, k: nat)
    requires ListedOk(fs) && k < |fs.listed| && |fs'.files| == |fs.files|
    requires fs'.listed == fs.listed[..k] + fs.listed[k + 1..]
    requires forall i :: 0 <= i < |fs.files| ==> fs'.files[i].name == fs.files[i].name
    ensures ListedOk(fs')
  {
    forall i, j | 0 <= i < j < |fs'.listed| ensures fs'.files[fs'.listed[i]].name != fs'.files[fs'.listed[j]].name {
      assert fs'.listed[i] == fs.listed[if i < k then i else i + 1];
      assert fs'.listed[j] == fs.listed[if j < k then j else j + 1];
    }
  }

  lemma DeleteInv(fs: Fs, name: string)
    requires Inv(fs)
    ensures Inv(Delete(fs, name).0)
  {
    var k := Find(fs, name, 0);
    if k < |fs.listed| {
      var id := fs.listed[k];
      var fs' := Delete(fs, name).0;
      DeletedNames(fs, fs', k);
      assert LifeOk(fs') by { DeletedListed(fs, k); }
      assert TableOk(fs') by {
        forall i | 0 <= i < |fs'.table| ensures SlotOk(fs', fs'.table[i]) {
          assert SlotOk(fs, fs.table[i]);
          if fs'.table[i].Some? { RefsPositive(fs'.table, i); }
        }
      }
    }
  }
}
