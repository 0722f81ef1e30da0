/**
 UserFS: the global file list and descriptor table as the program keeps them. Each
 operation takes the model, a value of UfsModel.Fs, from its state before the call to
 the state that the function of the same name gives, with the same result; the
 invariant and the theorems about those functions are in UfsInvariant and UfsFlat.
 */
module UserFs {
  import M = UfsModel
  import opened UfsModel
  import opened UfsInvariant
  import opened UfsBlocks

  // ---------------------------------------------------------------- what the tables mean

  /** The objects of the file system, by type. */
  datatype Objects = Objects(files: set<File>, descs: set<Desc>, blocks: set<Block>, memories: set<array<byte>>)

  ghost predicate Within(f: File, all: Objects)
    reads f`blockSet, f`memorySet
  {
    f in all.files && f.blockSet <= all.blocks && f.memorySet <= all.memories
  }

  /** File f is number id; unless freed, its blocks hold v. */
  ghost predicate FileEntry(f: File, id: nat, v: FileV)
    reads f`blockList, f`blocksCount, f`lastBlock, f`refs, f`isRemoved, f`blocks, f`blockSet, f`memorySet, f`freed
    reads f.blockSet, f.memorySet
  {
    f.id == id && (if v.freed then f.freed else FileOk(f, v))
  }

  ghost predicate Separate(f: File, g: File)
    reads f`blockSet, f`memorySet, g`blockSet, g`memorySet
  {
    f != g && f.blockSet !! g.blockSet && f.memorySet !! g.memorySet
  }

  ghost predicate FilesOk(registry: seq<File>, files: seq<FileV>, all: Objects)
    reads all.files`blockList, all.files`blocksCount, all.files`lastBlock, all.files`refs, all.files`isRemoved
    reads all.files`blocks, all.files`blockSet, all.files`memorySet, all.files`freed, all.blocks, all.memories
  {
    && |registry| == |files|
    && (forall id :: 0 <= id < |registry| ==> registry[id] in all.files)
    && (forall id {:trigger Within(registry[id], all)} :: 0 <= id < |registry| ==> Within(registry[id], all))
    && (forall id {:trigger FileEntry(registry[id], id, files[id])} :: 0 <= id < |registry| ==>
          Within(registry[id], all) && FileEntry(registry[id], id, files[id]))
    && (forall a, b {:trigger Separate(registry[a], registry[b])} :: 0 <= a < |registry| && 0 <= b < |registry| && a != b ==>
          Separate(registry[a], registry[b]))
  }

  /** The file at place i of the list, NULL outside. */
  ghost function FileAt(registry: seq<File>, listed: seq<nat>, i: int): File? {
    if 0 <= i < |listed| && listed[i] < |registry| then registry[listed[i]] else null
  }

  /** The links of f, which is the file at place i of the list. */
  ghost predicate ListEntry(f: File, registry: seq<File>, listed: seq<nat>, i: nat)
    reads f`next, f`prev
  {
    f.next == FileAt(registry, listed, i + 1) && f.prev == FileAt(registry, listed, i - 1)
  }

  ghost predicate ListOk(head: File?, registry: seq<File>, listed: seq<nat>, files: set<File>)
    reads files`next, files`prev
  {
    && head == FileAt(registry, listed, 0)
    && (forall i :: 0 <= i < |listed| ==> listed[i] < |registry| && registry[listed[i]] in files)
    && (forall i {:trigger ListEntry(registry[listed[i]], registry, listed, i)} :: 0 <= i < |listed| ==>
          ListEntry(registry[listed[i]], registry, listed, i))
  }

  ghost predicate SlotEntry(d: Desc?, i: nat, slot: Slot, registry: seq<File>, files: set<File>)
    reads d, files`blocks
  {
    if slot.None? then d == null
    else && d != null && d.fd == i
         && slot.value.file < |registry| && registry[slot.value.file] in files
         && DescOk(d, registry[slot.value.file], slot.value)
  }

  ghost predicate SlotsOk(descriptors: seq<Desc?>, table: seq<Slot>, registry: seq<File>, files: set<File>, descs: set<Desc>)
    reads descs, files`blocks
  {
    && |descriptors| == |table|
    && (forall i :: 0 <= i < |table| && descriptors[i] != null ==> descriptors[i] in descs)
    && (forall i {:trigger SlotEntry(descriptors[i], i, table[i], registry, files)} :: 0 <= i < |table| ==>
          SlotEntry(descriptors[i], i, table[i], registry, files))
  }

  // ---------------------------------------------------------------- one file of many changes

  /** File f has changed, within its own blocks or into fresh ones: every other file is as it was. */
  ghost predicate Grown(f: File, all: Objects, all': Objects)
    reads f`blockSet, f`memorySet
  {
    all' == all.(blocks := all.blocks + f.blockSet, memories := all.memories + f.memorySet)
  }

  method WriteAmongFiles(d: Desc, ghost id: nat, buf: seq<byte>, ghost c: Cursor,
                         ghost registry: seq<File>, ghost files: seq<FileV>, ghost all: Objects)
    returns (r: int, ghost all': Objects)
    requires FilesOk(registry, files, all) && id < |registry| && !files[id].freed && registry[id] == d.file
    requires DescOk(d, d.file, c) && FileInv(files[id]) && CursorOk(c, files[id]) && (c.at < 0 ==> files[id].occ == [])
    modifies d`currentBlock, d`currentBlockIndex, d`offset
    modifies d.file`blockList, d.file`lastBlock, d.file`blocksCount, d.file`blocks, d.file`blockSet, d.file`memorySet
    modifies d.file.blockSet, d.file.memorySet
    ensures Wrote(d, d.file, files[id], c, buf, r)
    ensures FilesOk(registry, files[id := WriteFile(files[id], Pos(c), Fitting(c, buf))], all')
    ensures old(d.file.blocks) <= d.file.blocks && Grown(d.file, all, all')
    ensures fresh(all'.blocks - all.blocks) && fresh(all'.memories - all.memories)
  {
    hide FileOk, FileInv, CursorOk, WriteFile, WriteCursor, DescOk, Pos, Room, Fitting, Wrote;
    var f := d.file;
    assert FileEntry(f, id, files[id]) && Within(f, all);
    r := WriteBlocks(d, f, buf, files[id], c);
    all' := all.(blocks := all.blocks + f.blockSet, memories := all.memories + f.memorySet);
    WroteFacts(d, f, files[id], c, buf, r);
    ghost var g := WriteFile(files[id], Pos(c), Fitting(c, buf));
    forall k | 0 <= k < |registry| ensures Within(registry[k], all') {
      assert old(Within(registry[k], all) && (k != id ==> Separate(registry[k], f)));
    }
    forall k | 0 <= k < |registry| ensures FileEntry(registry[k], k, files[id := g][k]) {
      assert old(FileEntry(registry[k], k, files[k]) && (k != id ==> Separate(registry[k], f)));
    }
    forall a, b | 0 <= a < |registry| && 0 <= b < |registry| && a != b ensures Separate(registry[a], registry[b]) {
      assert old(Separate(registry[a], registry[b]) && Within(registry[a], all) && Within(registry[b], all));
    }
  }

  /** The descriptors of file id are on blocks it has. */
  ghost predicate AtBlocks(table: seq<Slot>, id: nat, count: nat) {
    forall i :: 0 <= i < |table| && table[i].Some? && table[i].value.file == id ==> table[i].value.at < count
  }

  lemma EntryCounts(registry: seq<File>, files: seq<FileV>, all: Objects, id: nat)
    requires FilesOk(registry, files, all) && id < |registry| && !files[id].freed
    ensures |registry| == |files| && registry[id].blocksCount == |registry[id].blocks| == |files[id].occ|
    ensures |files[id].mem| == BLOCK_SIZE * |files[id].occ|
    ensures forall a :: 0 <= a < |registry| && registry[a] == registry[id] ==> a == id
  {
    assert FileEntry(registry[id], id, files[id]);
    forall a | 0 <= a < |registry| ensures registry[a].id == a { assert FileEntry(registry[a], a, files[a]); }
  }

  /** The bytes of buf there is room for. */
  function Fitting(c: Cursor, buf: seq<byte>): seq<byte> {
    var k := Room(Pos(c), |buf|);
    if 0 <= k <= |buf| then buf[..k] else []
  }

  function WriteResult(c: Cursor, buf: seq<byte>): int { if |Fitting(c, buf)| < |buf| then -1 else |buf| }

  /** The model after descriptor c in slot fd has written to its file v. */
  function WriteModel(fs: Fs, fd: nat, buf: seq<byte>, c: Cursor, v: FileV): Fs
    requires fd < |fs.table| && c.file < |fs.files| && |v.mem| == BLOCK_SIZE * |v.occ| && 0 <= Pos(c) <= |v.mem|
  {
    Moved(fs, fd, WriteFile(v, Pos(c), Fitting(c, buf)), WriteCursor(c, |v.occ|, |buf|).(file := c.file),
          if WriteResult(c, buf) == -1 then NoMem else NoErr)
  }

  /** What ufs_write needs of the model, and what it gives. */
  lemma WriteStep(fs: Fs, fd: nat, buf: seq<byte>, c: Cursor, v: FileV)
    requires Inv(fs) && fd < |fs.table| && fs.table[fd] == Some(c) && c.file < |fs.files| && v == fs.files[c.file]
    requires c.at < 0 ==> v.occ == []
    ensures FileInv(v) && CursorOk(c, v) && !v.freed && AtBlocks(fs.table, c.file, |v.occ|)
    ensures |v.mem| == BLOCK_SIZE * |v.occ| && 0 <= Pos(c) <= |v.mem| && 0 <= Room(Pos(c), |buf|) <= |buf|
    ensures WriteCursor(c, |v.occ|, |buf|).file == c.file
    ensures Inv(WriteModel(fs, fd, buf, c, v))
    ensures var fs' := WriteModel(fs, fd, buf, c, v);
            && fs'.files == fs.files[c.file := WriteFile(v, Pos(c), Fitting(c, buf))] && fs'.listed == fs.listed
            && fs'.table == fs.table[fd := Some(WriteCursor(c, |v.occ|, |buf|))] && fs'.count == fs.count
            && fs'.error == (if WriteResult(c, buf) == -1 then NoMem else NoErr)
  {
    assert SlotOk(fs, fs.table[fd]);
    OpenFileIsAlive(fs, fd);
    AllowedWriteInv(v, c, buf);
    AtBlocksOf(fs, c.file);
    hide WriteFile, WriteCursor;
    assert WriteCursor(c, |v.occ|, |buf|).(file := c.file) == WriteCursor(c, |v.occ|, |buf|);
    DescStepInv(fs, fd, WriteFile(v, Pos(c), Fitting(c, buf)), WriteCursor(c, |v.occ|, |buf|),
                if WriteResult(c, buf) == -1 then NoMem else NoErr);
  }

  lemma AtBlocksOf(fs: Fs, id: nat)
    requires Inv(fs) && id < |fs.files|
    ensures AtBlocks(fs.table, id, |fs.files[id].occ|)
  {
    forall i | 0 <= i < |fs.table| && fs.table[i].Some? && fs.table[i].value.file == id
      ensures fs.table[i].value.at < |fs.files[id].occ|
    {
      assert SlotOk(fs, fs.table[i]);
    }
  }

  /** The same among all descriptors: the others stay on their blocks. */
  method WriteAmongSlots(d: Desc, ghost fd: nat, buf: seq<byte>, ghost c: Cursor, ghost registry: seq<File>, ghost files: seq<FileV>,
                         ghost all: Objects, ghost descriptors: seq<Desc?>, ghost table: seq<Slot>)
    returns (r: int, ghost all': Objects)
    requires FilesOk(registry, files, all) && SlotsOk(descriptors, table, registry, all.files, all.descs)
    requires fd < |table| && table[fd] == Some(c) && descriptors[fd] == d && c.file < |registry| && !files[c.file].freed
    requires FileInv(files[c.file]) && CursorOk(c, files[c.file]) && (c.at < 0 ==> files[c.file].occ == [])
    requires AtBlocks(table, c.file, |files[c.file].occ|)
    modifies d`currentBlock, d`currentBlockIndex, d`offset
    modifies d.file`blockList, d.file`lastBlock, d.file`blocksCount, d.file`blocks, d.file`blockSet, d.file`memorySet
    modifies d.file.blockSet, d.file.memorySet
    ensures var v := files[c.file];
            && |v.mem| == BLOCK_SIZE * |v.occ| && 0 <= Pos(c) <= |v.mem| && 0 <= Room(Pos(c), |buf|) <= |buf|
            && r == WriteResult(c, buf)
            && FilesOk(registry, files[c.file := WriteFile(v, Pos(c), Fitting(c, buf))], all')
            && SlotsOk(descriptors, table[fd := Some(WriteCursor(c, |v.occ|, |buf|))], registry, all'.files, all'.descs)
    ensures all'.files == all.files && all'.descs == all.descs && all.blocks <= all'.blocks && all.memories <= all'.memories
    ensures fresh(all'.blocks - all.blocks) && fresh(all'.memories - all.memories)
  {
    hide FilesOk, FileInv, CursorOk, WriteFile, WriteCursor, Wrote, WriteResult, Fitting, Room, FileOk, Grown, Pos;
    assert SlotEntry(d, fd, table[fd], registry, all.files);
    EntryCounts(registry, files, all, c.file);
    ghost var v := files[c.file];
    WriteCursorFile(v, c, buf);
    ghost var table' := table[fd := Some(WriteCursor(c, |v.occ|, |buf|))];
    r, all' := WriteAmongFiles(d, c.file, buf, c, registry, files, all);
    WroteFacts(d, registry[c.file], v, c, buf, r);
    GrownFacts(d.file, all, all');
    forall i | 0 <= i < |table| ensures SlotEntry(descriptors[i], i, table'[i], registry, all.files) {
      assert old(SlotEntry(descriptors[i], i, table[i], registry, all.files));
    }
  }

  lemma WriteCursorFile(v: FileV, c: Cursor, buf: seq<byte>)
    requires FileInv(v) && CursorOk(c, v) && (c.at < 0 ==> v.occ == []) && !v.freed
    ensures WriteCursor(c, |v.occ|, |buf|).file == c.file
    ensures |v.mem| == BLOCK_SIZE * |v.occ| && 0 <= Pos(c) <= |v.mem|
  {
    AllowedWriteInv(v, c, buf);
  }

  lemma WroteFacts(d: Desc, f: File, v: FileV, c: Cursor, buf: seq<byte>, r: int)
    requires Wrote(d, f, v, c, buf, r)
    ensures |v.mem| == BLOCK_SIZE * |v.occ| && 0 <= Pos(c) <= |v.mem| && 0 <= Room(Pos(c), |buf|) <= |buf|
    ensures r == WriteResult(c, buf) && DescOk(d, f, WriteCursor(c, |v.occ|, |buf|))
    ensures FileOk(f, WriteFile(v, Pos(c), Fitting(c, buf)))
  {
  }

  lemma GrownFacts(f: File, all: Objects, all': Objects)
    requires Grown(f, all, all')
    ensures all'.files == all.files && all'.descs == all.descs && all.blocks <= all'.blocks && all.memories <= all'.memories
  {
  }

  method ReadAmongSlots(d: Desc, ghost fd: nat, n: nat, ghost c: Cursor, ghost v: FileV, ghost registry: seq<File>,
                        ghost files: set<File>, ghost descs: set<Desc>, ghost descriptors: seq<Desc?>, ghost table: seq<Slot>)
    returns (out: seq<byte>)
    requires SlotsOk(descriptors, table, registry, files, descs)
    requires fd < |table| && table[fd] == Some(c) && descriptors[fd] == d && c.file < |registry| && FileOk(registry[c.file], v)
    requires FileInv(v) && CursorOk(c, v) && (c.at < 0 ==> v.occ == [])
    modifies d`currentBlock, d`currentBlockIndex, d`offset
    ensures 0 <= Pos(c) <= ReadEnd(c, v.occ, n) <= |v.mem| && out == v.mem[Pos(c)..ReadEnd(c, v.occ, n)]
    ensures SlotsOk(descriptors, table[fd := Some(ReadCursor(c, v.occ, n))], registry, files, descs)
  {
    hide FileOk, FileInv, CursorOk, ReadEnd, Pos, ReadCursor;
    assert SlotEntry(d, fd, table[fd], registry, files);
    out := ReadBlocks(d, d.file, n, v, c);
    ReadCursorFile(v, c, n);
    ghost var table' := table[fd := Some(ReadCursor(c, v.occ, n))];
    forall i | 0 <= i < |table| ensures SlotEntry(descriptors[i], i, table'[i], registry, files) {
      assert old(SlotEntry(descriptors[i], i, table[i], registry, files));
    }
  }

  lemma ReadCursorFile(v: FileV, c: Cursor, n: nat)
    requires CursorOk(c, v)
    ensures (c.at < 0 || (c.at < |v.occ| && 0 <= c.offset)) && ReadCursor(c, v.occ, n).file == c.file
  {
  }

  // ---------------------------------------------------------------- resize among all files and descriptors

  method GrowAmongFiles(f: File, newCount: nat, ghost id: nat, ghost registry: seq<File>, ghost files: seq<FileV>, ghost all: Objects)
    returns (ghost all': Objects)
    requires FilesOk(registry, files, all) && id < |registry| && !files[id].freed && registry[id] == f && newCount >= |files[id].occ|
    modifies f`blockList, f`lastBlock, f`blocksCount, f`blocks, f`blockSet, f`memorySet, f.blockSet
    ensures FilesOk(registry, files[id := Grow(files[id], newCount)], all')
    ensures old(f.blocks) <= f.blocks && Grown(f, all, all')
    ensures fresh(all'.blocks - all.blocks) && fresh(all'.memories - all.memories)
  {
    hide FileOk, Grow;
    assert FileEntry(f, id, files[id]) && Within(f, all);
    FileOkCounts(f, files[id]);
    GrowBlocks(f, newCount, files[id]);
    ghost var g := Grow(files[id], newCount);
    NotFreed(f, g);
    all' := all.(blocks := all.blocks + f.blockSet, memories := all.memories + f.memorySet);
    forall k | 0 <= k < |registry| ensures Within(registry[k], all') {
      assert old(Within(registry[k], all) && (k != id ==> Separate(registry[k], f)));
    }
    forall k | 0 <= k < |registry| ensures FileEntry(registry[k], k, files[id := g][k]) {
      assert old(FileEntry(registry[k], k, files[k]) && (k != id ==> Separate(registry[k], f)));
    }
    forall a, b | 0 <= a < |registry| && 0 <= b < |registry| && a != b ensures Separate(registry[a], registry[b]) {
      assert old(Separate(registry[a], registry[b]) && Within(registry[a], all) && Within(registry[b], all));
    }
  }

  lemma NotFreed(f: File, v: FileV)
    requires FileOk(f, v)
    ensures !v.freed
  {
  }

  /** The file after a shrink to newCount blocks, or one, the last holding `last` bytes. */
  function Shrunk(v: FileV, newCount: nat, last: nat): FileV
    requires |v.mem| == BLOCK_SIZE * |v.occ| && newCount < |v.occ|
  {
    var kept := Max(1, newCount);
    v.(mem := v.mem[..BLOCK_SIZE * kept], occ := v.occ[..kept - 1] + [last])
  }

  method ShrinkAmongFiles(f: File, newCount: nat, last: nat, ghost id: nat, ghost registry: seq<File>, ghost files: seq<FileV>, ghost all: Objects)
    requires FilesOk(registry, files, all) && id < |registry| && !files[id].freed && registry[id] == f && newCount < |files[id].occ|
    modifies f`lastBlock, f`blocksCount, f`blocks, f.blockSet
    ensures |files[id].mem| == BLOCK_SIZE * |files[id].occ|
    ensures FilesOk(registry, files[id := Shrunk(files[id], newCount, last)], all)
    ensures |old(f.blocks)| == |files[id].occ| && f.blocks == old(f.blocks)[..Max(1, newCount)]
  {
    hide FileOk;
    assert FileEntry(f, id, files[id]) && Within(f, all);
    FileOkCounts(f, files[id]);
    ghost var g := Shrunk(files[id], newCount, last);
    ShrinkBlocks(f, newCount, last, files[id]);
    NotFreed(f, g);
    forall k | 0 <= k < |registry| ensures FileEntry(registry[k], k, files[id := g][k]) {
      assert old(FileEntry(registry[k], k, files[k]) && (k != id ==> Separate(registry[k], f)));
    }
    forall k | 0 <= k < |registry| ensures Within(registry[k], all) { assert old(Within(registry[k], all)); }
    forall a, b | 0 <= a < |registry| && 0 <= b < |registry| && a != b ensures Separate(registry[a], registry[b]) {
      assert old(Separate(registry[a], registry[b]));
    }
  }

  /** A slot whose descriptor, when it is open on file id, still points into the list `blocks`. */
  ghost predicate SlotBefore(d: Desc?, i: nat, slot: Slot, registry: seq<File>, files: set<File>, id: nat, blocks: seq<Block>)
    reads d, files`blocks
  {
    if slot.None? then d == null
    else && d != null && d.fd == i
         && slot.value.file < |registry| && registry[slot.value.file] in files
         && DescOn(d, registry[slot.value.file], if slot.value.file == id then blocks else registry[slot.value.file].blocks, slot.value)
  }

  ghost predicate SlotsBefore(descriptors: seq<Desc?>, table: seq<Slot>, registry: seq<File>, files: set<File>, descs: set<Desc>,
                              from: nat, id: nat, blocks: seq<Block>)
    reads descs, files`blocks
  {
    && |descriptors| == |table|
    && (forall i :: 0 <= i < |table| && descriptors[i] != null ==> descriptors[i] in descs)
    && (forall i {:trigger SlotBefore(descriptors[i], i, table[i], registry, files, id, blocks)} :: from <= i < |table| ==>
          SlotBefore(descriptors[i], i, table[i], registry, files, id, blocks))
  }

  /** What the loop of ufs_resize does to one descriptor of the file. */
  method RepairDescriptor(d: Desc, f: File, ghost c: Cursor, ghost blocks: seq<Block>, ghost kept: nat, ghost last: nat)
    requires DescOn(d, f, blocks, c) && c.at <= c.index && 1 <= kept <= |blocks| && f.blocks == blocks[..kept]
    requires f.blocksCount == kept && f.lastBlock == f.blocks[kept - 1] && f.lastBlock.occupied == last
    modifies d`currentBlock, d`currentBlockIndex, d`offset
    ensures DescOk(d, f, ResizeCursor(c, kept, last)) && ResizeCursor(c, kept, last).file == c.file
  {
    if d.currentBlockIndex >= f.blocksCount {
      d.currentBlockIndex := f.blocksCount - 1;
      d.currentBlock := f.lastBlock;
    }
    if d.currentBlockIndex == f.blocksCount - 1 {
      var newOffset := if f.lastBlock != null then f.lastBlock.occupied else 0;
      d.offset := Min(d.offset, newOffset);
    }
  }

  /** Each block index of a descriptor of file id is at least its block. */
  ghost predicate Indexed(table: seq<Slot>, id: nat) {
    forall i :: 0 <= i < |table| && table[i].Some? && table[i].value.file == id ==> table[i].value.at <= table[i].value.index
  }

  method RepairDescriptors(descriptors: seq<Desc?>, f: File, ghost id: nat, ghost kept: nat, ghost last: nat, ghost registry: seq<File>,
                           ghost files: set<File>, ghost descs: set<Desc>, ghost table: seq<Slot>, ghost blocks: seq<Block>)
    requires SlotsBefore(descriptors, table, registry, files, descs, 0, id, blocks) && Indexed(table, id)
    requires id < |registry| && forall a :: 0 <= a < |registry| ==> (registry[a] == f <==> a == id)
    requires 1 <= kept <= |blocks| && f.blocks == blocks[..kept]
    requires f.blocksCount == kept && f.lastBlock == f.blocks[kept - 1] && f.lastBlock.occupied == last
    modifies descs`currentBlock, descs`currentBlockIndex, descs`offset
    ensures SlotsOk(descriptors, ResizeTable(table, id, kept, last), registry, files, descs)
  {
    hide ResizeCursor;
    ghost var table' := ResizeTable(table, id, kept, last);
    for i := 0 to |descriptors|
      invariant SlotsBefore(descriptors, table, registry, files, descs, i, id, blocks)
      invariant forall j {:trigger SlotEntry(descriptors[j], j, table'[j], registry, files)} :: 0 <= j < i ==>
                  SlotEntry(descriptors[j], j, table'[j], registry, files)
    {
      var desc := descriptors[i];
      assert SlotBefore(desc, i, table[i], registry, files, id, blocks);
      label L:
      if desc != null && desc.file == f {
        RepairDescriptor(desc, f, table[i].value, blocks, kept, last);
      }
      assert SlotEntry(desc, i, table'[i], registry, files);
      forall j | 0 <= j < i ensures SlotEntry(descriptors[j], j, table'[j], registry, files) {
        assert old@L(SlotEntry(descriptors[j], j, table'[j], registry, files));
      }
      forall j | i < j < |table| ensures SlotBefore(descriptors[j], j, table[j], registry, files, id, blocks) {
        assert old@L(SlotBefore(descriptors[j], j, table[j], registry, files, id, blocks));
      }
    }
  }

  method GrowAmongSlots(f: File, newCount: nat, ghost id: nat, ghost registry: seq<File>, ghost files: seq<FileV>, ghost all: Objects,
                        ghost descriptors: seq<Desc?>, ghost table: seq<Slot>)
    returns (ghost all': Objects)
    requires FilesOk(registry, files, all) && SlotsOk(descriptors, table, registry, all.files, all.descs)
    requires id < |registry| && !files[id].freed && registry[id] == f && newCount >= |files[id].occ|
    requires AtBlocks(table, id, |files[id].occ|)
    modifies f`blockList, f`lastBlock, f`blocksCount, f`blocks, f`blockSet, f`memorySet, f.blockSet
    ensures FilesOk(registry, files[id := Grow(files[id], newCount)], all')
    ensures SlotsOk(descriptors, table, registry, all'.files, all'.descs)
    ensures all'.files == all.files && all'.descs == all.descs && all.blocks <= all'.blocks && all.memories <= all'.memories
    ensures fresh(all'.blocks - all.blocks) && fresh(all'.memories - all.memories)
  {
    hide FilesOk, Grow, Grown;
    EntryCounts(registry, files, all, id);
    all' := GrowAmongFiles(f, newCount, id, registry, files, all);
    GrownFacts(f, all, all');
    forall i | 0 <= i < |table| ensures SlotEntry(descriptors[i], i, table[i], registry, all.files) {
      assert old(SlotEntry(descriptors[i], i, table[i], registry, all.files));
    }
  }

  method ShrinkAmongSlots(f: File, newCount: nat, last: nat, ghost id: nat, ghost registry: seq<File>, ghost files: seq<FileV>,
                          ghost all: Objects, descriptors: seq<Desc?>, ghost table: seq<Slot>)
    requires FilesOk(registry, files, all) && SlotsOk(descriptors, table, registry, all.files, all.descs)
    requires id < |registry| && !files[id].freed && registry[id] == f && newCount < |files[id].occ|
    requires Indexed(table, id)
    modifies f`lastBlock, f`blocksCount, f`blocks, f.blockSet
    modifies all.descs`currentBlock, all.descs`currentBlockIndex, all.descs`offset
    ensures |files[id].mem| == BLOCK_SIZE * |files[id].occ|
    ensures FilesOk(registry, files[id := Shrunk(files[id], newCount, last)], all)
    ensures SlotsOk(descriptors, ResizeTable(table, id, Max(1, newCount), last), registry, all.files, all.descs)
  {
    hide FilesOk, ResizeTable, ResizeCursor, Shrunk;
    EntryCounts(registry, files, all, id);
    ghost var blocks := f.blocks;
    ghost var g := Shrunk(files[id], newCount, last);
    ShrinkAmongFiles(f, newCount, last, id, registry, files, all);
    forall i | 0 <= i < |table| ensures SlotBefore(descriptors[i], i, table[i], registry, all.files, id, blocks) {
      assert old(SlotEntry(descriptors[i], i, table[i], registry, all.files));
    }
    ShrunkEntry(registry, files, all, id, newCount, last);
    RepairDescriptors(descriptors, f, id, Max(1, newCount), last, registry, all.files, all.descs, table, blocks);
  }

  lemma ShrunkEntry(registry: seq<File>, files: seq<FileV>, all: Objects, id: nat, newCount: nat, last: nat)
    requires id < |files| && |files[id].mem| == BLOCK_SIZE * |files[id].occ| && newCount < |files[id].occ|
    requires FilesOk(registry, files[id := Shrunk(files[id], newCount, last)], all) && !files[id].freed
    ensures var f := registry[id];
            && f.blocksCount == |f.blocks| == Max(1, newCount)
            && f.lastBlock == f.blocks[|f.blocks| - 1] && f.lastBlock.occupied == last
  {
    var g := Shrunk(files[id], newCount, last);
    var f := registry[id];
    assert FileEntry(f, id, files[id := g][id]);
    LastBlockIs(f, g);
    InFile(f, g, |f.blocks| - 1);
  }

  // ---------------------------------------------------------------- reference counts, removal, the file list

  /** One descriptor of the file is gone; a removed file goes with its last one. */
  method DropRef(f: File, ghost id: nat, ghost registry: seq<File>, ghost files: seq<FileV>, ghost all: Objects)
    requires FilesOk(registry, files, all) && id < |registry| && !files[id].freed && registry[id] == f
    modifies f`refs, f`freed, f.blockSet
    ensures var g := files[id].(refs := files[id].refs - 1);
            FilesOk(registry, files[id := if g.removed && g.refs == 0 then FreeFile(g) else g], all)
  {
    assert FileEntry(f, id, files[id]) && Within(f, all);
    ghost var g := files[id].(refs := files[id].refs - 1);
    ghost var h := if g.removed && g.refs == 0 then FreeFile(g) else g;
    f.refs := f.refs - 1;
    SameBlocks(f, files[id], g);
    if f.isRemoved && f.refs == 0 {
      FreeFileBlocks(f, g);
    }
    forall k | 0 <= k < |registry| ensures FileEntry(registry[k], k, files[id := h][k]) {
      assert old(FileEntry(registry[k], k, files[k]) && (k != id ==> Separate(registry[k], f)));
    }
    forall k | 0 <= k < |registry| ensures Within(registry[k], all) { assert old(Within(registry[k], all)); }
    forall a, b | 0 <= a < |registry| && 0 <= b < |registry| && a != b ensures Separate(registry[a], registry[b]) {
      assert old(Separate(registry[a], registry[b]));
    }
  }

  /** A file taken off the list: freed when no descriptor is open on it, marked when one is. */
  method RemoveFile(f: File, ghost id: nat, ghost registry: seq<File>, ghost files: seq<FileV>, ghost all: Objects)
    requires FilesOk(registry, files, all) && id < |registry| && !files[id].freed && registry[id] == f
    modifies f`isRemoved, f`freed, f.blockSet
    ensures FilesOk(registry, files[id := if files[id].refs == 0 then FreeFile(files[id]) else files[id].(removed := true)], all)
  {
    assert FileEntry(f, id, files[id]) && Within(f, all);
    ghost var h := if files[id].refs == 0 then FreeFile(files[id]) else files[id].(removed := true);
    if f.refs == 0 {
      FreeFileBlocks(f, files[id]);
    } else {
      f.isRemoved := true;
      SameBlocks(f, files[id], h);
    }
    forall k | 0 <= k < |registry| ensures FileEntry(registry[k], k, files[id := h][k]) {
      assert old(FileEntry(registry[k], k, files[k]) && (k != id ==> Separate(registry[k], f)));
    }
    forall k | 0 <= k < |registry| ensures Within(registry[k], all) { assert old(Within(registry[k], all)); }
    forall a, b | 0 <= a < |registry| && 0 <= b < |registry| && a != b ensures Separate(registry[a], registry[b]) {
      assert old(Separate(registry[a], registry[b]));
    }
  }

  ghost predicate AllDifferent(registry: seq<File>, listed: seq<nat>) {
    forall i, j :: 0 <= i < j < |listed| && listed[i] < |registry| && listed[j] < |registry| ==>
      registry[listed[i]] != registry[listed[j]]
  }

  /** Takes the file at place k out of the doubly linked list; its own links are left as they are. */
  method Unlink(f: File, head: File?, ghost k: nat, ghost registry: seq<File>, ghost listed: seq<nat>, ghost files: set<File>)
    returns (head': File?)
    requires ListOk(head, registry, listed, files) && AllDifferent(registry, listed)
    requires k < |listed| && registry[listed[k]] == f
    modifies files`next, files`prev
    ensures ListOk(head', registry, listed[..k] + listed[k + 1..], files)
  {
    ghost var rest := listed[..k] + listed[k + 1..];
    assert ListEntry(f, registry, listed, k);
    head' := head;
    if f.prev != null { f.prev.next := f.next; } else { head' := f.next; }
    if f.next != null { f.next.prev := f.prev; }
    forall i | 0 <= i < |rest| ensures ListEntry(registry[rest[i]], registry, rest, i) {
      var j := if i < k then i else i + 1;
      assert rest[i] == listed[j];
      assert old(ListEntry(registry[listed[j]], registry, listed, j));
    }
  }

  /** Puts a new file at the end of the list. */
  method LinkFile(f: File, head: File?, ghost registry: seq<File>, ghost listed: seq<nat>, ghost files: set<File>) returns (head': File?)
    requires ListOk(head, registry, listed, files) && AllDifferent(registry, listed) && f !in files
    requires f.next == null && f.prev == null
    modifies f`prev, files`next
    ensures ListOk(head', registry + [f], listed + [|registry|], files + {f})
  {
    ghost var n := |listed|;
    if head == null {
      head' := f;
      assert listed == [];
    } else {
      head' := head;
      var last := head;
      ghost var i := 0;
      assert ListEntry(last, registry, listed, 0);
      while last.next != null
        invariant 0 <= i < n && last == registry[listed[i]] && ListEntry(last, registry, listed, i)
        decreases n - i
      {
        last := last.next;
        i := i + 1;
        assert ListEntry(registry[listed[i]], registry, listed, i);
      }
      last.next := f;
      f.prev := last;
    }
    ghost var listed' := listed + [|registry|];
    ghost var registry' := registry + [f];
    forall i | 0 <= i < |listed'| ensures ListEntry(registry'[listed'[i]], registry', listed', i) {
      if i < n { assert old(ListEntry(registry[listed[i]], registry, listed, i)); }
    }
  }

  method AddRef(f: File, ghost id: nat, ghost registry: seq<File>, ghost files: seq<FileV>, ghost all: Objects)
    requires FilesOk(registry, files, all) && id < |registry| && !files[id].freed && registry[id] == f
    modifies f`refs
    ensures FilesOk(registry, files[id := files[id].(refs := files[id].refs + 1)], all)
    ensures f.blockList == BlockAt(f.blocks, 0) && |f.blocks| == |files[id].occ|
  {
    assert FileEntry(f, id, files[id]) && Within(f, all);
    ghost var g := files[id].(refs := files[id].refs + 1);
    f.refs := f.refs + 1;
    SameBlocks(f, files[id], g);
    forall k | 0 <= k < |registry| ensures FileEntry(registry[k], k, files[id := g][k]) {
      assert old(FileEntry(registry[k], k, files[k]) && (k != id ==> Separate(registry[k], f)));
    }
    forall k | 0 <= k < |registry| ensures Within(registry[k], all) { assert old(Within(registry[k], all)); }
    forall a, b | 0 <= a < |registry| && 0 <= b < |registry| && a != b ensures Separate(registry[a], registry[b]) {
      assert old(Separate(registry[a], registry[b]));
    }
  }

  /** The slot search of create_filedesc; its bound would let it read one slot too far, but a free one comes before. */
  method FirstFreeSlot(descriptors: seq<Desc?>, capacity: int, ghost table: seq<Slot>, ghost registry: seq<File>, ghost all: Objects)
    returns (fd: int)
    requires SlotsOk(descriptors, table, registry, all.files, all.descs)
    requires capacity == |descriptors| && FirstFree(table, 0) < |table|
    ensures fd == FirstFree(table, 0)
  {
    fd := 0;
    while fd <= capacity
      invariant 0 <= fd <= FirstFree(table, 0) && FirstFree(table, 0) == FirstFree(table, fd)
    {
      assert SlotEntry(descriptors[fd], fd, table[fd], registry, all.files);
      if descriptors[fd] == null { break; }
      fd := fd + 1;
    }
  }

  /** The table gets four more slots when as many descriptors as slots have been created. */
  method MakeRoom(descriptors: seq<Desc?>, count: int, capacity: int, ghost fs: Fs, ghost registry: seq<File>, ghost all: Objects)
    returns (descriptors': seq<Desc?>, capacity': int)
    requires SlotsOk(descriptors, fs.table, registry, all.files, all.descs) && capacity == |descriptors| && count == fs.count
    ensures SlotsOk(descriptors', Extended(fs), registry, all.files, all.descs) && capacity' == |descriptors'| == |Extended(fs)|
  {
    descriptors', capacity' := descriptors, capacity;
    if count == capacity {
      capacity' := capacity + 4;
      descriptors' := descriptors + [null, null, null, null];
    }
    ghost var table' := Extended(fs);
    forall i | 0 <= i < |table'| ensures SlotEntry(descriptors'[i], i, table'[i], registry, all.files) {
      if i < |descriptors| { assert SlotEntry(descriptors[i], i, fs.table[i], registry, all.files); }
    }
  }

  /** The table with room for one more descriptor, and the first free slot of it. */
  method RoomAndSlot(descriptors: seq<Desc?>, count: int, capacity: int, ghost fs: Fs, ghost registry: seq<File>, ghost all: Objects)
    returns (descriptors': seq<Desc?>, capacity': int, fd: int)
    requires SlotsOk(descriptors, fs.table, registry, all.files, all.descs) && capacity == |descriptors| && count == fs.count
    requires FirstFree(Extended(fs), 0) < |Extended(fs)|
    ensures SlotsOk(descriptors', Extended(fs), registry, all.files, all.descs) && capacity' == |descriptors'| == |Extended(fs)|
    ensures fd == FirstFree(Extended(fs), 0)
  {
    hide *;
    descriptors', capacity' := MakeRoom(descriptors, count, capacity, fs, registry, all);
    fd := FirstFreeSlot(descriptors', capacity', Extended(fs), registry, all);
  }

  /** A new descriptor of file f in the free slot fd. */
  method OpenOn(f: File, fd: int, permissions: int, descriptors: seq<Desc?>, ghost id: nat, ghost registry: seq<File>,
                ghost files: seq<FileV>, ghost all: Objects, ghost table: seq<Slot>)
    returns (descriptors': seq<Desc?>, ghost all': Objects)
    requires FilesOk(registry, files, all) && SlotsOk(descriptors, table, registry, all.files, all.descs)
    requires id < |registry| && !files[id].freed && registry[id] == f && f in all.files && 0 <= fd < |table|
    modifies f`refs
    ensures |registry| == |files| && |descriptors'| == |descriptors|
    ensures FilesOk(registry, files[id := files[id].(refs := files[id].refs + 1)], all')
    ensures SlotsOk(descriptors', table[fd := Some(FreshCursor(files[id], id, permissions))], registry, all'.files, all'.descs)
    ensures all'.files == all.files && all'.blocks == all.blocks && all'.memories == all.memories && fresh(all'.descs - all.descs)
  {
    hide *;
    EntryCounts(registry, files, all, id);
    AddRef(f, id, registry, files, all);
    var d := new Desc(f, fd, permissions);
    NewDescEntry(d, f, files[id], id, permissions);
    TakeSlot(descriptors, table, registry, all, fd, d, FreshCursor(files[id], id, permissions));
    descriptors' := descriptors[fd := d];
    MoreDescs(registry, files[id := files[id].(refs := files[id].refs + 1)], all, d);
    all' := all.(descs := all.descs + {d});
  }

  /** A file without blocks, linked behind the others. */
  method NewFile(name: string, head: File?, ghost registry: seq<File>, ghost listed: seq<nat>, ghost files: seq<FileV>, ghost all: Objects)
    returns (f: File, head': File?)
    requires FilesOk(registry, files, all) && ListOk(head, registry, listed, all.files) && AllDifferent(registry, listed)
    modifies all.files`next
    ensures fresh(f)
    ensures FilesOk(registry + [f], files + [FileV(name, [], [], 0, false, false)], all.(files := all.files + {f}))
    ensures ListOk(head', registry + [f], listed + [|registry|], all.files + {f})
  {
    hide *;
    f := new File(name, |registry|);
    head' := LinkFile(f, head, registry, listed, all.files);
    NewFileEntry(f, |registry|, name);
    AddEntry(f, registry, files, all, FileV(name, [], [], 0, false, false));
  }

  /** The descriptor in slot fd goes to the head of the blocks of its file if it has no block. */
  method StartOnSlot(d: Desc, ghost fd: nat, ghost c: Cursor, ghost v: FileV, ghost registry: seq<File>, ghost all: Objects,
                     ghost descriptors: seq<Desc?>, ghost table: seq<Slot>)
    requires SlotsOk(descriptors, table, registry, all.files, all.descs) && fd < |table| && table[fd] == Some(c) && descriptors[fd] == d
    requires c.file < |registry| && DescOk(d, registry[c.file], c) && d.file == registry[c.file]
    requires d.file.blockList == BlockAt(d.file.blocks, 0) && |d.file.blocks| == |v.occ| && c.at < |v.occ|
    modifies d`currentBlock, d`currentBlockIndex
    ensures SlotsOk(descriptors, table[fd := Some(Started(c, |v.occ|))], registry, all.files, all.descs)
  {
    assert forall i :: 0 <= i < |table| ==> SlotEntry(descriptors[i], i, table[i], registry, all.files);
    if d.currentBlock == null && d.file.blockList != null {
      d.currentBlock := d.file.blockList;
      d.currentBlockIndex := d.currentBlockIndex + 1;
    }
    ghost var table' := table[fd := Some(Started(c, |v.occ|))];
    forall i | 0 <= i < |table| ensures SlotEntry(descriptors[i], i, table'[i], registry, all.files) {
      assert old(SlotEntry(descriptors[i], i, table[i], registry, all.files));
    }
  }

  /** ufs_resize on the blocks of the file and on its descriptors. */
  method ResizeAmong(f: File, size: nat, ghost fd: nat, ghost fs: Fs, ghost registry: seq<File>, ghost all: Objects, descriptors: seq<Desc?>)
    returns (ghost all': Objects)
    requires Inv(fs) && fd < |fs.table| && fs.table[fd].Some? && !BadFd(fs, fd) && size <= MAX_FILE_SIZE
    requires FilesOk(registry, fs.files, all) && SlotsOk(descriptors, fs.table, registry, all.files, all.descs)
    requires fs.table[fd].value.file < |registry| && registry[fs.table[fd].value.file] == f
    modifies f`blockList, f`lastBlock, f`blocksCount, f`blocks, f`blockSet, f`memorySet, f.blockSet
    modifies all.descs`currentBlock, all.descs`currentBlockIndex, all.descs`offset
    ensures FilesOk(registry, M.Resize(fs, fd, size).0.files, all')
    ensures SlotsOk(descriptors, M.Resize(fs, fd, size).0.table, registry, all'.files, all'.descs)
    ensures all'.files == all.files && all'.descs == all.descs && all.blocks <= all'.blocks && all.memories <= all'.memories
    ensures fresh(all'.blocks - all.blocks) && fresh(all'.memories - all.memories)
  {
    hide *;
    ResizeCases(fs, fd, size);
    ghost var id := fs.table[fd].value.file;
    EntryCounts(registry, fs.files, all, id);
    var newCount, remainder := BlockCounts(size);
    all' := all;
    if newCount >= f.blocksCount {
      all' := GrowAmongSlots(f, newCount, id, registry, fs.files, all, descriptors, fs.table);
    } else {
      ShrinkAmongSlots(f, newCount, remainder, id, registry, fs.files, all, descriptors, fs.table);
    }
  }

  class Ufs {
    var fileList: File?
    var fileDescriptors: seq<Desc?>
    var descriptorCount: int
    var descriptorCapacity: int
    var errorCode: Error
    ghost var model: Fs
    ghost var registry: seq<File>
    ghost var all: Objects

    ghost predicate Scalars()
      reads this
    {
      && errorCode == model.error
      && descriptorCount == model.count
      && descriptorCapacity == |fileDescriptors| == |model.table|
      && |registry| == |model.files|
    }

    ghost predicate Valid()
      reads this, all.files, all.descs, all.blocks, all.memories
    {
      && Scalars()
      && Inv(model)
      && FilesOk(registry, model.files, all)
      && ListOk(fileList, registry, model.listed, all.files)
      && SlotsOk(fileDescriptors, model.table, registry, all.files, all.descs)
    }

    lemma Parts()
      requires Valid()
      ensures errorCode == model.error && descriptorCount == model.count
      ensures descriptorCapacity == |fileDescriptors| == |model.table| && |registry| == |model.files|
      ensures Inv(model) && FilesOk(registry, model.files, all) && ListOk(fileList, registry, model.listed, all.files)
      ensures SlotsOk(fileDescriptors, model.table, registry, all.files, all.descs)
    {
    }

    lemma Whole()
      requires errorCode == model.error && descriptorCount == model.count
      requires descriptorCapacity == |fileDescriptors| == |model.table| && |registry| == |model.files|
      requires Inv(model) && FilesOk(registry, model.files, all) && ListOk(fileList, registry, model.listed, all.files)
      requires SlotsOk(fileDescriptors, model.table, registry, all.files, all.descs)
      ensures Valid()
    {
    }

    constructor ()
      ensures Valid() && model == EMPTY && all == Objects({}, {}, {}, {})
    {
      fileList, fileDescriptors, descriptorCount, descriptorCapacity, errorCode := null, [], 0, 0, NoErr;
      model, registry, all := EMPTY, [], Objects({}, {}, {}, {});
    }

    method SetError(e: Error)
      requires Valid()
      modifies this`errorCode, this`model
      ensures Valid() && model == old(model).(error := e)
    {
      ErrorInv(model, e);
      hide Inv;
      errorCode := e;
      model := model.(error := e);
    }

    /** The descriptor in slot fd, its file and their model. */
    lemma OpenSlot(fd: nat)
      requires Valid() && fd < |model.table| && (model.table[fd].Some? || fileDescriptors[fd] != null)
      ensures model.table[fd].Some? && fileDescriptors[fd] != null
      ensures fileDescriptors[fd] in all.descs && fileDescriptors[fd].fd == fd
      ensures var c := model.table[fd].value;
              && c.file < |registry| && registry[c.file] in all.files && Within(registry[c.file], all)
              && DescOk(fileDescriptors[fd], registry[c.file], c)
              && fileDescriptors[fd].permissions == c.permissions && fileDescriptors[fd].file == registry[c.file]
              && !model.files[c.file].freed && FileOk(registry[c.file], model.files[c.file])
              && CursorOk(c, model.files[c.file]) && FileInv(model.files[c.file])
    {
      assert SlotEntry(fileDescriptors[fd], fd, model.table[fd], registry, all.files);
      var c := model.table[fd].value;
      assert SlotOk(model, model.table[fd]);
      OpenFileIsAlive(model, fd);
      assert FileEntry(registry[c.file], c.file, model.files[c.file]);
    }

    /** The objects ufs_write and ufs_resize may change are among all. */
    lemma OpenSlotWithin(fd: nat)
      requires Valid() && fd < |model.table| && fileDescriptors[fd] != null
      ensures var f := fileDescriptors[fd].file; f in all.files && f.blockSet <= all.blocks && f.memorySet <= all.memories
    {
      OpenSlot(fd);
    }

    /** init_filedesc_current_block: a descriptor without a block goes to the head of the list. */
    method InitCurrentBlock(desc: Desc, ghost fd: nat)
      requires Valid() && fd < |model.table| && fileDescriptors[fd] == desc
      modifies desc`currentBlock, desc`currentBlockIndex, this`model
      ensures Valid() && old(model.table[fd]).Some?
      ensures var c := old(model.table[fd]).value;
              && c.file < |old(model.files)|
              && model == Moved(old(model), fd, old(model.files)[c.file], Started(c, |old(model.files)[c.file].occ|), old(model.error))
    {
      hide *;
      Parts();
      OpenSlot(fd);
      ghost var c := model.table[fd].value;
      ghost var v := model.files[c.file];
      StartStep(model, fd);
      FileOkCounts(registry[c.file], v);
      LastBlockIs(registry[c.file], v);
      StartOnSlot(desc, fd, c, v, registry, all, fileDescriptors, model.table);
      model := Moved(model, fd, v, Started(c, |v.occ|), model.error);
      Whole();
    }

    /** Sets the error, with the blocks and descriptors changed before. */
    method Become(e: Error, ghost m: Fs, ghost after: Objects)
      requires e == m.error && descriptorCount == m.count
      requires descriptorCapacity == |fileDescriptors| == |m.table| && |registry| == |m.files|
      requires Inv(m) && FilesOk(registry, m.files, after) && ListOk(fileList, registry, m.listed, after.files)
      requires SlotsOk(fileDescriptors, m.table, registry, after.files, after.descs)
      modifies this`errorCode, this`model, this`all
      ensures Valid() && model == m && all == after
    {
      hide *;
      errorCode := e;
      model := m;
      all := after;
      Whole();
    }

    /** ufs_write on a descriptor that may write and has been put on a block, if its file has one. */
    method WriteStarted(desc: Desc, ghost fd: nat, buf: seq<byte>, ghost c: Cursor, ghost v: FileV) returns (r: int)
      requires Valid() && fd < |model.table| && fileDescriptors[fd] == desc && model.table[fd] == Some(c)
      requires c.file < |model.files| && v == model.files[c.file] && (c.at < 0 ==> v.occ == [])
      requires |v.mem| == BLOCK_SIZE * |v.occ| && 0 <= Pos(c) <= |v.mem|
      modifies this`model, this`errorCode, this`all, desc, all.files, all.blocks, all.memories
      ensures all.files == old(all.files) && all.descs == old(all.descs)
      ensures fresh(all.blocks - old(all.blocks)) && fresh(all.memories - old(all.memories))
      ensures Valid() && r == WriteResult(c, buf) && model == WriteModel(old(model), fd, buf, c, v)
    {
      hide *;
      Parts();
      OpenSlot(fd);
      WriteStep(model, fd, buf, c, v);
      OpenSlotWithin(fd);
      ghost var after;
      r, after := WriteAmongSlots(desc, fd, buf, c, registry, model.files, all, fileDescriptors, model.table);
      Become(if r == -1 then NoMem else NoErr, WriteModel(model, fd, buf, c, v), after);
    }

    lemma SlotNull(fd: int)
      requires Valid() && 0 <= fd < |model.table|
      ensures |fileDescriptors| == |model.table| && (fileDescriptors[fd] == null <==> model.table[fd].None?)
    {
      assert SlotEntry(fileDescriptors[fd], fd, model.table[fd], registry, all.files);
    }

    /** handle_err_no_file. */
    method NoSuchDescriptor(fd: int) returns (bad: bool)
      requires Valid() && fd != descriptorCapacity
      ensures fd != |model.table| && bad == BadFd(model, fd)
      ensures !bad ==> 0 <= fd < |fileDescriptors| && fileDescriptors[fd] != null
    {
      if 0 <= fd < |model.table| { SlotNull(fd); }
      bad := fd < 0 || fd > descriptorCapacity || fileDescriptors[fd] == null;
    }

    method Write(fd: int, buf: seq<byte>) returns (r: int)
      requires Valid() && fd != descriptorCapacity
      modifies this, all.descs, all.files, all.blocks, all.memories
      ensures all.files == old(all.files) && all.descs == old(all.descs)
      ensures fresh(all.blocks - old(all.blocks)) && fresh(all.memories - old(all.memories))
      ensures Valid() && (model, r) == M.Write(old(model), fd, buf)
    {
      hide *;
      var bad := NoSuchDescriptor(fd);
      Parts();
      WriteCases(model, fd, buf);
      if bad {
        SetError(NoFile);
        return -1;
      }
      var desc := fileDescriptors[fd];
      SlotNull(fd);
      OpenSlot(fd);
      ghost var c := model.table[fd].value;
      ghost var v := model.files[c.file];
      InitCurrentBlock(desc, fd);
      if !Allows(desc.permissions, UFS_WRITE_ONLY) {
        SetError(NoPermission);
        return -1;
      }
      r := WriteStarted(desc, fd, buf, Started(c, |v.occ|), v);
    }

    /** ufs_read on a descriptor that may read and has been put on a block, if its file has one. */
    method ReadStarted(desc: Desc, ghost fd: nat, n: nat, ghost c: Cursor, ghost v: FileV) returns (out: seq<byte>)
      requires Valid() && fd < |model.table| && fileDescriptors[fd] == desc && model.table[fd] == Some(c)
      requires c.file < |model.files| && v == model.files[c.file] && (c.at < 0 ==> v.occ == [])
      requires CursorOk(c, v) && FileInv(v) && 0 <= Pos(c) <= ReadEnd(c, v.occ, n) <= |v.mem| && ReadCursor(c, v.occ, n).file == c.file
      modifies this`model, this`errorCode, desc
      ensures all == old(all) && fileDescriptors == old(fileDescriptors)
      ensures Valid() && out == v.mem[Pos(c)..ReadEnd(c, v.occ, n)]
      ensures model == Moved(old(model), fd, v, ReadCursor(c, v.occ, n), NoErr)
    {
      hide *;
      Parts();
      OpenSlot(fd);
      MovedFacts(model, fd, v, ReadCursor(c, v.occ, n), NoErr);
      ReadStepInv(model, fd, n, c, v);
      out := ReadAmongSlots(desc, fd, n, c, v, registry, all.files, all.descs, fileDescriptors, model.table);
      errorCode := NoErr;
      model := Moved(model, fd, v, ReadCursor(c, v.occ, n), NoErr);
      Whole();
    }

    method Read(fd: int, n: nat) returns (r: int, out: seq<byte>)
      requires Valid() && fd != descriptorCapacity
      modifies this, all.descs
      ensures all == old(all)
      ensures Valid() && (model, r, out) == M.Read(old(model), fd, n)
    {
      hide *;
      out := [];
      var bad := NoSuchDescriptor(fd);
      Parts();
      ReadCases(model, fd, n);
      if bad {
        SetError(NoFile);
        return -1, [];
      }
      var desc := fileDescriptors[fd];
      SlotNull(fd);
      OpenSlot(fd);
      ghost var c := Started(model.table[fd].value, |model.files[model.table[fd].value.file].occ|);
      ghost var v := model.files[c.file];
      InitCurrentBlock(desc, fd);
      if !Allows(desc.permissions, UFS_READ_ONLY) {
        SetError(NoPermission);
        return -1, [];
      }
      out := ReadStarted(desc, fd, n, c, v);
      r := |out|;
    }

    /** ufs_resize once its arguments have passed the checks. */
    method ResizeOpen(fd: nat, size: nat)
      requires Valid() && fd < |model.table| && fileDescriptors[fd] != null && !BadFd(model, fd) && size <= MAX_FILE_SIZE
      modifies this, all.descs, all.files, all.blocks
      ensures all.files == old(all.files) && all.descs == old(all.descs)
      ensures fresh(all.blocks - old(all.blocks)) && fresh(all.memories - old(all.memories))
      ensures Valid() && (model, 0) == M.Resize(old(model), fd, size)
    {
      hide *;
      Parts();
      ResizeCases(model, fd, size);
      ResizeInv(model, fd, size);
      OpenSlot(fd);
      OpenSlotWithin(fd);
      all := ResizeAmong(fileDescriptors[fd].file, size, fd, model, registry, all, fileDescriptors);
      errorCode := NoErr;
      model := M.Resize(model, fd, size).0;
      Whole();
    }

    method Resize(fd: int, size: nat) returns (r: int)
      requires Valid() && fd != descriptorCapacity
      modifies this, all.descs, all.files, all.blocks
      ensures all.files == old(all.files) && all.descs == old(all.descs)
      ensures fresh(all.blocks - old(all.blocks)) && fresh(all.memories - old(all.memories))
      ensures Valid() && (model, r) == M.Resize(old(model), fd, size)
    {
      hide *;
      var bad := NoSuchDescriptor(fd);
      Parts();
      ResizeCases(model, fd, size);
      if bad {
        SetError(NoFile);
        r := -1;
      } else if size > MAX_FILE_SIZE {
        SetError(NoMem);
        r := -1;
      } else {
        ResizeOpen(fd, size);
        r := 0;
      }
    }

    method Close(fd: int) returns (r: int)
      requires Valid() && fd != descriptorCapacity
      modifies this, all.files, all.blocks
      ensures all == old(all)
      ensures Valid() && (model, r) == M.Close(old(model), fd)
    {
      hide *;
      var bad := NoSuchDescriptor(fd);
      Parts();
      CloseCases(model, fd);
      if bad {
        SetError(NoFile);
        return -1;
      }
      SlotNull(fd);
      CloseOpen(fd);
      r := 0;
    }

    method CloseOpen(fd: nat)
      requires Valid() && fd < |model.table| && fileDescriptors[fd] != null && !BadFd(model, fd)
      modifies this, all.files, all.blocks
      ensures all == old(all)
      ensures Valid() && (model, 0) == M.Close(old(model), fd)
    {
      hide *;
      Parts();
      CloseCases(model, fd);
      CloseInv(model, fd);
      OpenSlot(fd);
      OpenSlotWithin(fd);
      DropRef(fileDescriptors[fd].file, model.table[fd].value.file, registry, model.files, all);
      FreeSlot(fileDescriptors, model.table, registry, all, fd);
      fileDescriptors := fileDescriptors[fd := null];
      errorCode := NoErr;
      model := M.Close(model, fd).0;
      Whole();
    }

    /** The listed files are different ones. */
    lemma ListedDiffer()
      requires Valid()
      ensures AllDifferent(registry, model.listed)
    {
      forall i, j | 0 <= i < j < |model.listed| && model.listed[i] < |registry| && model.listed[j] < |registry|
        ensures registry[model.listed[i]] != registry[model.listed[j]]
      {
        ListedName(i);
        ListedName(j);
      }
    }

    /** A listed file is among all. */
    lemma ListedWithin(id: nat)
      requires Valid() && id in model.listed
      ensures id < |registry| && registry[id] in all.files
    {
      var i :| 0 <= i < |model.listed| && model.listed[i] == id;
      ListedName(i);
    }

    lemma ListedName(i: nat)
      requires Valid() && i < |model.listed|
      ensures var id := model.listed[i];
              && id < |registry| && |registry| == |model.files| && !model.files[id].freed && registry[id] in all.files
              && registry[id].name == model.files[id].name && Within(registry[id], all) && FileOk(registry[id], model.files[id])
              && registry[id].next == FileAt(registry, model.listed, i + 1)
    {
      var id := model.listed[i];
      assert FileEntry(registry[id], id, model.files[id]);
      assert id in model.listed;
      assert ListEntry(registry[id], registry, model.listed, i);
    }

    /** The loop of ufs_open and ufs_delete over the file list: the file at place k, or NULL. */
    method FindFile(name: string) returns (f: File?, ghost k: nat)
      requires Valid()
      ensures k <= |model.listed| && k == Find(model, name, 0)
      ensures f == FileAt(registry, model.listed, Find(model, name, 0)) && (f == null <==> Find(model, name, 0) == |model.listed|)
    {
      hide Inv, FilesOk, SlotsOk, FileOk;
      InvListed(model);
      f := fileList;
      k := 0;
      while f != null && f.name != name
        invariant k <= |model.listed| && f == FileAt(registry, model.listed, k) && (f == null ==> k == |model.listed|)
        invariant Find(model, name, 0) == Find(model, name, k)
        decreases |model.listed| - k
      {
        ListedName(k);
        f := f.next;
        k := k + 1;
        if k < |model.listed| { ListedName(k); }
      }
      if f != null { ListedName(k); }
    }

    /** ufs_delete once the file has been found. */
    method DeleteFound(f: File, ghost name: string, ghost k: nat)
      requires Valid() && k == Find(model, name, 0) < |model.listed| && f == FileAt(registry, model.listed, k)
      modifies this, all.files, all.blocks
      ensures all == old(all)
      ensures Valid() && (model, 0) == M.Delete(old(model), name)
    {
      hide *;
      Parts();
      DeleteCases(model, name);
      DeleteInv(model, name);
      ListedDiffer();
      ListedName(k);
      FileAtIs(registry, model.listed, k);
      fileList := Unlink(f, fileList, k, registry, model.listed, all.files);
      RemoveFile(f, model.listed[k], registry, model.files, all);
      errorCode := NoErr;
      model := M.Delete(model, name).0;
      Whole();
    }

    method Delete(name: string) returns (r: int)
      requires Valid()
      modifies this, all.files, all.blocks
      ensures all == old(all)
      ensures Valid() && (model, r) == M.Delete(old(model), name)
    {
      hide *;
      var f, k := FindFile(name);
      Parts();
      DeleteCases(model, name);
      if f == null {
        SetError(NoFile);
        r := -1;
      } else {
        DeleteFound(f, name, k);
        r := 0;
      }
    }

    /** add_file: a new file without blocks at the end of the list. */
    method AddFile(name: string) returns (f: File)
      requires Valid() && Find(model, name, 0) == |model.listed|
      modifies this, all.files
      ensures Valid() && model == M.AddFile(old(model), name).(error := NoErr)
      ensures f == registry[|old(model.files)|] && registry == old(registry) + [f] && fresh(f)
      ensures all == old(all).(files := old(all.files) + {f})
    {
      hide *;
      Parts();
      ListedDiffer();
      AddFileInv(model, name);
      AddFileFacts(model, name);
      f, fileList := NewFile(name, fileList, registry, model.listed, model.files, all);
      AddFileSlots(fileDescriptors, model.table, registry, all, f);
      errorCode := NoErr;
      registry := registry + [f];
      all := all.(files := all.files + {f});
      model := M.AddFile(model, name).(error := NoErr);
      Whole();
    }

    /** create_filedesc: the first free slot of the table, made longer when as many descriptors as slots have been created. */
    method CreateFiledesc(f: File, permissions: int, ghost id: nat) returns (fd: int)
      requires Valid() && id < |registry| && registry[id] == f && id in model.listed
      modifies this, all.files
      ensures FirstFree(Extended(old(model)), 0) < Capacity(old(model)) && id < |old(model.files)|
      ensures Valid() && (model, fd) == CreateDesc(old(model), id, permissions)
      ensures all.files == old(all.files) && all.blocks == old(all.blocks) && all.memories == old(all.memories)
      ensures fresh(all.descs - old(all.descs))
    {
      hide *;
      Parts();
      CreateCases(model, id, permissions);
      ListedAlive(model, id);
      ListedWithin(id);
      CreateDescInv(model, id, permissions);
      fileDescriptors, descriptorCapacity, fd := RoomAndSlot(fileDescriptors, descriptorCount, descriptorCapacity, model, registry, all);
      fileDescriptors, all := OpenOn(f, fd, permissions, fileDescriptors, id, registry, model.files, all, Extended(model));
      model := CreateDesc(model, id, permissions).0;
      descriptorCount := descriptorCount + 1;
      Whole();
    }

    method Open(name: string, flags: int) returns (fd: int)
      requires Valid()
      modifies this, all.files
      ensures all.blocks == old(all.blocks) && all.memories == old(all.memories)
      ensures fresh(all.files - old(all.files)) && fresh(all.descs - old(all.descs))
      ensures Valid() && (model, fd) == M.Open(old(model), name, flags)
    {
      hide *;
      var f, k := FindFile(name);
      Parts();
      InvListed(model);
      OpenCases(model, name, flags);
      FileAtIs(registry, model.listed, k);
      var needsFileCreation := flags % 2 == 1;
      ghost var id;
      if f == null {
        if !needsFileCreation {
          SetError(NoFile);
          return -1;
        }
        f := AddFile(name);
        id := |old(model.files)|;
      } else {
        SetError(NoErr);
        id := old(model.listed)[k];
      }
      var permissions := if needsFileCreation then flags - 1 else flags;
      if permissions == 0 { permissions := UFS_READ_WRITE; }
      fd := CreateFiledesc(f, permissions, id);
    }
  }

  lemma ErrorInv(fs: Fs, e: Error)
    requires Inv(fs)
    ensures Inv(fs.(error := e))
  {
    var fs' := fs.(error := e);
    forall i | 0 <= i < |fs.table| ensures SlotOk(fs', fs'.table[i]) { assert SlotOk(fs, fs.table[i]); }
  }

  /** ufs_write by the branches it takes. */
  lemma WriteCases(fs: Fs, fd: int, buf: seq<byte>)
    requires Inv(fs) && fd != |fs.table|
    ensures BadFd(fs, fd) ==> M.Write(fs, fd, buf) == (fs.(error := NoFile), -1)
    ensures !BadFd(fs, fd) ==>
              var c0 := fs.table[fd].value;
              && c0.file < |fs.files|
              && var v := fs.files[c0.file];
              var c := Started(c0, |v.occ|);
              var fs1 := Moved(fs, fd, v, c, fs.error);
              && c.file == c0.file && c.permissions == c0.permissions && (c.at < 0 ==> v.occ == [])
              && |v.mem| == BLOCK_SIZE * |v.occ| && 0 <= Pos(c) <= |v.mem|
              && fs1.files == fs.files && fs1.table == fs.table[fd := Some(c)]
              && (if Allows(c.permissions, UFS_WRITE_ONLY)
                  then M.Write(fs, fd, buf) == (WriteModel(fs1, fd, buf, c, v), WriteResult(c, buf))
                  else M.Write(fs, fd, buf) == (fs1.(error := NoPermission), -1))
  {
    if !BadFd(fs, fd) {
      var c0 := fs.table[fd].value;
      assert SlotOk(fs, fs.table[fd]);
      OpenFileIsAlive(fs, fd);
      var v := fs.files[c0.file];
      var c := Started(c0, |v.occ|);
      AllowedWriteInv(v, c, buf);
      hide WriteFile, WriteCursor, FileInv, CursorOk, Inv;
      var k := Room(Pos(c), |buf|);
      assert Fitting(c, buf) == buf[..k];
      MovedTwice(fs, fd, v, c, fs.error, WriteFile(v, Pos(c), buf[..k]), WriteCursor(c, |v.occ|, |buf|), if k < |buf| then NoMem else NoErr);
      assert WriteCursor(c, |v.occ|, |buf|).(file := c.file) == WriteCursor(c, |v.occ|, |buf|);
    }
  }

  lemma MovedTwice(fs: Fs, fd: nat, v: FileV, c: Cursor, e: Error, v': FileV, c': Cursor, e': Error)
    requires fd < |fs.table| && c.file == c'.file < |fs.files|
    ensures Moved(Moved(fs, fd, v, c, e), fd, v', c', e') == Moved(fs, fd, v', c', e')
  {
    assert fs.files[c.file := v][c.file := v'] == fs.files[c.file := v'];
    assert fs.table[fd := Some(c)][fd := Some(c')] == fs.table[fd := Some(c')];
  }

  /** ufs_read by the branches it takes. */
  lemma ReadCases(fs: Fs, fd: int, n: nat)
    requires Inv(fs) && fd != |fs.table|
    ensures BadFd(fs, fd) ==> M.Read(fs, fd, n) == (fs.(error := NoFile), -1, [])
    ensures !BadFd(fs, fd) ==>
              var c0 := fs.table[fd].value;
              && c0.file < |fs.files|
              && var v := fs.files[c0.file];
              var c := Started(c0, |v.occ|);
              var fs1 := Moved(fs, fd, v, c, fs.error);
              && c.file == c0.file && c.permissions == c0.permissions && (c.at < 0 ==> v.occ == [])
              && CursorOk(c, v) && FileInv(v) && 0 <= Pos(c) <= ReadEnd(c, v.occ, n) <= |v.mem|
              && ReadCursor(c, v.occ, n).file == c.file
              && fs1.files == fs.files && fs1.table == fs.table[fd := Some(c)]
              && (if Allows(c.permissions, UFS_READ_ONLY)
                  then M.Read(fs, fd, n) == (Moved(fs1, fd, v, ReadCursor(c, v.occ, n), NoErr), ReadEnd(c, v.occ, n) - Pos(c),
                                             v.mem[Pos(c)..ReadEnd(c, v.occ, n)])
                  else M.Read(fs, fd, n) == (fs1.(error := NoPermission), -1, []))
  {
    if !BadFd(fs, fd) {
      var c0 := fs.table[fd].value;
      assert SlotOk(fs, fs.table[fd]);
      var v := fs.files[c0.file];
      var c := Started(c0, |v.occ|);
      ReadEndBounds(v, c, n);
      ReadCursorFile(v, c, n);
      hide ReadCursor, ReadEnd, Inv;
      MovedTwice(fs, fd, v, c, fs.error, v, ReadCursor(c, v.occ, n), NoErr);
    }
  }

  lemma MovedFacts(fs: Fs, fd: nat, v: FileV, c: Cursor, e: Error)
    requires fd < |fs.table| && c.file < |fs.files| && v == fs.files[c.file]
    ensures var fs' := Moved(fs, fd, v, c, e);
            && fs'.files == fs.files && fs'.table == fs.table[fd := Some(c)] && fs'.listed == fs.listed
            && fs'.count == fs.count && fs'.error == e
  {
  }

  /** The bytes in the last of the blocks that `size` bytes need. */
  function LastBytes(size: nat): nat {
    if size > 0 && size % BLOCK_SIZE == 0 then BLOCK_SIZE else size % BLOCK_SIZE
  }

  method BlockCounts(size: nat) returns (count: nat, remainder: nat)
    ensures count == Blocks(size) && remainder == LastBytes(size)
  {
    count := size / BLOCK_SIZE;
    if size % BLOCK_SIZE != 0 { count := count + 1; }
    remainder := size % BLOCK_SIZE;
    if size > 0 && remainder == 0 { remainder := remainder + BLOCK_SIZE; }
  }

  /** ufs_resize by the branches it takes. */
  lemma ResizeCases(fs: Fs, fd: int, size: nat)
    requires Inv(fs) && fd != |fs.table|
    ensures BadFd(fs, fd) ==> M.Resize(fs, fd, size) == (fs.(error := NoFile), -1)
    ensures !BadFd(fs, fd) && size > MAX_FILE_SIZE ==> M.Resize(fs, fd, size) == (fs.(error := NoMem), -1)
    ensures !BadFd(fs, fd) && size <= MAX_FILE_SIZE ==>
              var newCount, last := Blocks(size), LastBytes(size);
              var (fs', r) := M.Resize(fs, fd, size);
              var id := fs.table[fd].value.file;
              && id < |fs.files| && !fs.files[id].freed && |fs.files[id].mem| == BLOCK_SIZE * |fs.files[id].occ|
              && AtBlocks(fs.table, id, |fs.files[id].occ|) && Indexed(fs.table, id)
              && r == 0 && fs'.error == NoErr && fs'.listed == fs.listed && fs'.count == fs.count
              && (newCount >= |fs.files[id].occ| ==>
                    fs'.files == fs.files[id := Grow(fs.files[id], newCount)] && fs'.table == fs.table)
              && (newCount < |fs.files[id].occ| ==>
                    && fs'.files == fs.files[id := Shrunk(fs.files[id], newCount, last)]
                    && fs'.table == ResizeTable(fs.table, id, Max(1, newCount), last))
  {
    if !BadFd(fs, fd) && size <= MAX_FILE_SIZE {
      var id := fs.table[fd].value.file;
      OpenFileIsAlive(fs, fd);
      AtBlocksOf(fs, id);
      assert FileInv(fs.files[id]);
      forall i | 0 <= i < |fs.table| && fs.table[i].Some? && fs.table[i].value.file == id
        ensures fs.table[i].value.at <= fs.table[i].value.index
      {
        assert SlotOk(fs, fs.table[i]);
      }
      assert Indexed(fs.table, id);
      hide Inv, ResizeTable, AtBlocks, Indexed;
    }
  }

  lemma ReadStepInv(fs: Fs, fd: nat, n: nat, c: Cursor, v: FileV)
    requires Inv(fs) && fd < |fs.table| && fs.table[fd] == Some(c) && c.file < |fs.files| && v == fs.files[c.file]
    requires CursorOk(c, v) && FileInv(v) && ReadCursor(c, v.occ, n).file == c.file
    ensures Inv(Moved(fs, fd, v, ReadCursor(c, v.occ, n), NoErr))
  {
    ReadCursorOk(v, c, n);
    DescStepInv(fs, fd, v, ReadCursor(c, v.occ, n), NoErr);
  }

  lemma StartStep(fs: Fs, fd: nat)
    requires Inv(fs) && fd < |fs.table| && fs.table[fd].Some?
    ensures var c := fs.table[fd].value;
            && c.file < |fs.files| && c.at < |fs.files[c.file].occ| && Started(c, |fs.files[c.file].occ|).file == c.file
            && var v := fs.files[c.file];
            && var fs' := Moved(fs, fd, v, Started(c, |v.occ|), fs.error);
            && Inv(fs') && fs'.files == fs.files && fs'.listed == fs.listed && fs'.count == fs.count && fs'.error == fs.error
            && fs'.table == fs.table[fd := Some(Started(c, |v.occ|))]
  {
    var c := fs.table[fd].value;
    assert SlotOk(fs, fs.table[fd]);
    OpenFileIsAlive(fs, fd);
    DescStepInv(fs, fd, fs.files[c.file], Started(c, |fs.files[c.file].occ|), fs.error);
  }

  lemma InvListed(fs: Fs)
    requires Inv(fs)
    ensures forall i :: 0 <= i < |fs.listed| ==> fs.listed[i] < |fs.files|
  {
  }

  lemma FileAtIs(registry: seq<File>, listed: seq<nat>, k: nat)
    ensures FileAt(registry, listed, k) == if k < |listed| && listed[k] < |registry| then registry[listed[k]] else null
  {
  }

  lemma FreeSlot(descriptors: seq<Desc?>, table: seq<Slot>, registry: seq<File>, all: Objects, fd: nat)
    requires SlotsOk(descriptors, table, registry, all.files, all.descs) && fd < |table|
    ensures |descriptors| == |table| && SlotsOk(descriptors[fd := null], table[fd := None], registry, all.files, all.descs)
  {
    var descriptors', table' := descriptors[fd := null], table[fd := None];
    forall i | 0 <= i < |table| ensures SlotEntry(descriptors'[i], i, table'[i], registry, all.files) {
      assert SlotEntry(descriptors[i], i, table[i], registry, all.files);
    }
  }

  /** ufs_close by the branches it takes. */
  lemma CloseCases(fs: Fs, fd: int)
    requires Inv(fs) && fd != |fs.table|
    ensures BadFd(fs, fd) ==> M.Close(fs, fd) == (fs.(error := NoFile), -1)
    ensures !BadFd(fs, fd) ==>
              var (fs', r) := M.Close(fs, fd);
              var id := fs.table[fd].value.file;
              && id < |fs.files|
              && var g := fs.files[id].(refs := fs.files[id].refs - 1);
              && fs'.files == fs.files[id := if g.removed && g.refs == 0 then FreeFile(g) else g]
              && r == 0 && fs'.error == NoErr && fs'.listed == fs.listed && fs'.count == fs.count
              && fs'.table == fs.table[fd := None]
  {
    if !BadFd(fs, fd) { assert SlotOk(fs, fs.table[fd]); }
  }

  /** ufs_delete by the branches it takes. */
  lemma DeleteCases(fs: Fs, name: string)
    requires Inv(fs)
    ensures var k := Find(fs, name, 0);
            && (k == |fs.listed| ==> M.Delete(fs, name) == (fs.(error := NoFile), -1))
            && (k < |fs.listed| ==>
                  var (fs', r) := M.Delete(fs, name);
                  var id := fs.listed[k];
                  && id < |fs.files| && !fs.files[id].freed
                  && fs'.files == fs.files[id := if fs.files[id].refs == 0 then FreeFile(fs.files[id]) else fs.files[id].(removed := true)]
                  && fs'.listed == fs.listed[..k] + fs.listed[k + 1..]
                  && r == 0 && fs'.error == NoErr && fs'.count == fs.count && fs'.table == fs.table)
  {
    var k := Find(fs, name, 0);
    if k < |fs.listed| { assert fs.listed[k] in fs.listed; }
  }

  lemma AddFileFacts(fs: Fs, name: string)
    ensures var fs' := M.AddFile(fs, name).(error := NoErr);
            && fs'.files == fs.files + [FileV(name, [], [], 0, false, false)] && fs'.listed == fs.listed + [|fs.files|]
            && fs'.table == fs.table && fs'.count == fs.count && fs'.error == NoErr
  {
  }

  lemma NewFileEntry(f: File, id: nat, name: string)
    requires f.name == name && f.id == id && f.blocks == [] && f.blockSet == {} && f.memorySet == {} && f.blockList == null
    requires f.lastBlock == null && f.blocksCount == 0 && f.refs == 0 && !f.isRemoved && !f.freed
    ensures FileEntry(f, id, FileV(name, [], [], 0, false, false))
  {
  }

  lemma AddEntry(f: File, registry: seq<File>, files: seq<FileV>, all: Objects, v: FileV)
    requires FilesOk(registry, files, all) && FileEntry(f, |registry|, v) && f !in all.files && f.blockSet == {} && f.memorySet == {}
    ensures FilesOk(registry + [f], files + [v], all.(files := all.files + {f}))
  {
    var registry', files', all' := registry + [f], files + [v], all.(files := all.files + {f});
    forall k | 0 <= k < |registry'| ensures Within(registry'[k], all') {
      if k < |registry| { assert Within(registry[k], all); }
    }
    forall k | 0 <= k < |registry'| ensures FileEntry(registry'[k], k, files'[k]) {
      if k < |registry| { assert FileEntry(registry[k], k, files[k]); }
    }
    forall a, b | 0 <= a < |registry'| && 0 <= b < |registry'| && a != b ensures Separate(registry'[a], registry'[b]) {
      if a < |registry| && b < |registry| { assert Separate(registry[a], registry[b]); }
    }
  }

  lemma AddFileSlots(descriptors: seq<Desc?>, table: seq<Slot>, registry: seq<File>, all: Objects, f: File)
    requires SlotsOk(descriptors, table, registry, all.files, all.descs)
    ensures SlotsOk(descriptors, table, registry + [f], all.files + {f}, all.descs)
  {
    forall i | 0 <= i < |table| ensures SlotEntry(descriptors[i], i, table[i], registry + [f], all.files + {f}) {
      assert SlotEntry(descriptors[i], i, table[i], registry, all.files);
    }
  }

  lemma ListedAlive(fs: Fs, id: nat)
    requires Inv(fs) && id in fs.listed
    ensures id < |fs.files| && !fs.files[id].freed
  {
    var i :| 0 <= i < |fs.listed| && fs.listed[i] == id;
  }

  lemma CreateCases(fs: Fs, id: nat, permissions: int)
    requires Inv(fs) && id in fs.listed
    ensures id < |fs.files| && FirstFree(Extended(fs), 0) < Capacity(fs) == |Extended(fs)|
    ensures Extended(fs) == if fs.count == |fs.table| then fs.table + [None, None, None, None] else fs.table
    ensures var (fs', fd) := CreateDesc(fs, id, permissions);
            var f := fs.files[id];
            && fd == FirstFree(Extended(fs), 0)
            && fs'.files == fs.files[id := f.(refs := f.refs + 1)] && fs'.listed == fs.listed && fs'.error == fs.error
            && fs'.table == Extended(fs)[fd := Some(FreshCursor(f, id, permissions))] && fs'.count == fs.count + 1
  {
    ListedAlive(fs, id);
    FreeSlotExists(fs);
  }

  lemma NewDescEntry(d: Desc, f: File, v: FileV, id: nat, permissions: int)
    requires d.file == f && d.permissions == permissions && d.currentBlock == f.blockList && d.offset == 0
    requires d.currentBlockIndex == (if f.blockList == null then -1 else 0)
    requires f.blockList == BlockAt(f.blocks, 0) && |f.blocks| == |v.occ|
    ensures DescOk(d, f, FreshCursor(v, id, permissions)) && FreshCursor(v, id, permissions).file == id
  {
  }

  lemma TakeSlot(descriptors: seq<Desc?>, table: seq<Slot>, registry: seq<File>, all: Objects, fd: nat, d: Desc, c: Cursor)
    requires SlotsOk(descriptors, table, registry, all.files, all.descs) && fd < |table|
    requires c.file < |registry| && registry[c.file] in all.files && DescOk(d, registry[c.file], c) && d.fd == fd
    ensures |descriptors| == |table|
    ensures SlotsOk(descriptors[fd := d], table[fd := Some(c)], registry, all.files, all.descs + {d})
  {
    var descriptors', table' := descriptors[fd := d], table[fd := Some(c)];
    forall i | 0 <= i < |table| ensures SlotEntry(descriptors'[i], i, table'[i], registry, all.files) {
      assert SlotEntry(descriptors[i], i, table[i], registry, all.files);
    }
  }

  /** ufs_open by the branches it takes. */
  lemma OpenCases(fs: Fs, name: string, flags: int)
    requires Inv(fs)
    ensures var k := Find(fs, name, 0);
            && (k < |fs.listed| ==>
                  && fs.listed[k] < |fs.files| && fs.listed[k] in fs.listed
                  && FirstFree(Extended(fs.(error := NoErr)), 0) < Capacity(fs.(error := NoErr))
                  && M.Open(fs, name, flags) == CreateDesc(fs.(error := NoErr), fs.listed[k], Permissions(flags)))
            && (k == |fs.listed| && flags % 2 == 0 ==> M.Open(fs, name, flags) == (fs.(error := NoFile), -1))
            && (k == |fs.listed| && flags % 2 == 1 ==>
                  var added := M.AddFile(fs, name).(error := NoErr);
                  && |fs.files| < |added.files| && |fs.files| in added.listed
                  && FirstFree(Extended(added), 0) < Capacity(added)
                  && M.Open(fs, name, flags) == CreateDesc(added, |fs.files|, Permissions(flags)))
    ensures Permissions(flags) == (if (if flags % 2 == 1 then flags - 1 else flags) == 0 then UFS_READ_WRITE
                                   else if flags % 2 == 1 then flags - 1 else flags)
  {
    FreeSlotExists(fs);
  }

  lemma MoreDescs(registry: seq<File>, files: seq<FileV>, all: Objects, d: Desc)
    requires FilesOk(registry, files, all)
    ensures FilesOk(registry, files, all.(descs := all.descs + {d}))
  {
    var all' := all.(descs := all.descs + {d});
    forall k | 0 <= k < |registry| ensures Within(registry[k], all') && FileEntry(registry[k], k, files[k]) {
      assert Within(registry[k], all) && FileEntry(registry[k], k, files[k]);
    }
    forall a, b | 0 <= a < |registry| && 0 <= b < |registry| && a != b ensures Separate(registry[a], registry[b]) {
      assert Separate(registry[a], registry[b]);
    }
  }
}
