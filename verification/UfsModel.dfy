/**
 The state of UserFS as plain values, and every operation as one transition on it.

 A file is the concatenated memory of its blocks plus the `occupied` count of each
 block; a descriptor names its block by number, `at` (-1 when its block pointer is
 NULL), next to the `index` the code keeps for it. The model keeps both, as the code
 does, because they part when a descriptor that has walked off the end of a full file is
 used again (UfsIndex says exactly how they go together until then).
 UserFs.dfy proves that the linked structures of the program behave as these functions.
 */
module UfsModel {

  const BLOCK_SIZE := 512
  const MAX_FILE_SIZE := 1024 * 1024 * 100
  const MAX_BLOCKS := 204800

  const UFS_READ_ONLY := 2
  const UFS_WRITE_ONLY := 4
  const UFS_READ_WRITE := 8

  newtype byte = b: int | 0 <= b < 256

  datatype Error = NoErr | NoFile | NoMem | NoPermission

  datatype FileV = FileV(name: string, mem: seq<byte>, occ: seq<nat>, refs: int, removed: bool, freed: bool)

  datatype Cursor = Cursor(file: nat, at: int, index: int, offset: int, permissions: int)

  /** An entry of the descriptor table. */
  datatype Slot = None | Some(value: Cursor)

  /** `files` holds every file ever created (identity = position); `listed` is the file list. */
  datatype Fs = Fs(files: seq<FileV>, listed: seq<nat>, table: seq<Slot>, count: nat, error: Error)

  const EMPTY := Fs([], [], [], 0, NoErr)

  function Min(a: int, b: int): int { if a < b then a else b }

  function Max(a: int, b: int): int { if a < b then b else a }

  function Zeros(n: nat): seq<byte> { seq(n, _ => 0) }

  function ZeroCounts(n: nat): seq<nat> { seq(n, _ => 0) }

  /** The number of blocks that `size` bytes need. */
  function Blocks(size: nat): nat { (size + BLOCK_SIZE - 1) / BLOCK_SIZE }

  function Splice(s: seq<byte>, pos: nat, data: seq<byte>): seq<byte>
    requires pos + |data| <= |s|
  {
    s[..pos] + data + s[pos + |data|..]
  }

  // ---------------------------------------------------------------- one file

  /** `occupied` of block i after bytes [lo, hi) of the file have been stored. */
  function RaisedAt(o: nat, i: nat, lo: nat, hi: nat): nat {
    if lo < hi && lo < BLOCK_SIZE * (i + 1) && BLOCK_SIZE * i < hi
    then Max(o, Min(BLOCK_SIZE, hi - BLOCK_SIZE * i)) else o
  }

  function Raise(occ: seq<nat>, lo: nat, hi: nat): (r: seq<nat>)
    ensures |r| == |occ|
  {
    seq(|occ|, i requires 0 <= i < |occ| => RaisedAt(occ[i], i, lo, hi))
  }

  /** The file with blocks appended until it has at least `count` of them. */
  function Grow(f: FileV, count: nat): FileV {
    if count <= |f.occ| then f
    else f.(mem := f.mem + Zeros(BLOCK_SIZE * (count - |f.occ|)), occ := f.occ + ZeroCounts(count - |f.occ|))
  }

  ghost predicate Shaped(f: FileV) {
    |f.mem| == BLOCK_SIZE * |f.occ| && forall i :: 0 <= i < |f.occ| ==> f.occ[i] <= BLOCK_SIZE
  }

  /** Storing `data` at byte position `pos` of a file that has the blocks for it. */
  function Put(f: FileV, pos: nat, data: seq<byte>): FileV
    requires pos + |data| <= |f.mem|
  {
    f.(mem := Splice(f.mem, pos, data), occ := Raise(f.occ, pos, pos + |data|))
  }

  /** Storing `data` at byte position `pos`. */
  function WriteFile(f: FileV, pos: nat, data: seq<byte>): (r: FileV)
    requires |f.mem| == BLOCK_SIZE * |f.occ| && pos <= |f.mem|
  {
    Put(Grow(f, Blocks(pos + |data|)), pos, data)
  }

  /** Where a read that starts in block `at` must stop: the first gap, or the end of the last block. */
  function End(occ: seq<nat>, at: nat): nat
    requires at <= |occ|
    decreases |occ| - at
  {
    if at == |occ| then BLOCK_SIZE * |occ|
    else if occ[at] < BLOCK_SIZE then BLOCK_SIZE * at + occ[at]
    else End(occ, at + 1)
  }

  /** The blocks a shrink to `size` leaves: never fewer than one. */
  function Kept(size: nat): nat { Max(1, Blocks(size)) }

  function ResizeFile(f: FileV, size: nat): FileV
    requires |f.mem| == BLOCK_SIZE * |f.occ|
  {
    if Blocks(size) >= |f.occ| then Grow(f, Blocks(size))
    else
      var kept := Kept(size);
      f.(mem := f.mem[..BLOCK_SIZE * kept], occ := f.occ[..kept - 1] + [size - BLOCK_SIZE * (kept - 1)])
  }

  // ---------------------------------------------------------------- one descriptor

  /** The byte a descriptor's next read or write starts at. */
  function Pos(c: Cursor): int { if c.at < 0 then 0 else BLOCK_SIZE * c.at + c.offset }

  /** A descriptor with no block is put on the head of the list before it is used. */
  function Started(c: Cursor, blocks: nat): Cursor {
    if c.at < 0 < blocks then c.(at := 0, index := c.index + 1) else c
  }

  /** Past the last block: the block pointer is NULL. */
  function WalkedOff(c: Cursor, blocks: nat): Cursor {
    c.(at := -1, index := c.index + (blocks - c.at), offset := 0)
  }

  /** On the last of the bytes before `pos`. */
  function MovedTo(c: Cursor, pos: nat): Cursor
    requires pos > 0
  {
    var at := (pos - 1) / BLOCK_SIZE;
    c.(at := at, index := c.index + (at - c.at), offset := pos - BLOCK_SIZE * at)
  }

  function Room(pos: int, n: nat): int { Min(n, MAX_FILE_SIZE - pos) }

  /** Where writing n bytes leaves a started descriptor of a file that had `blocks` blocks. */
  function WriteCursor(c: Cursor, blocks: nat, n: nat): Cursor
    requires 0 <= Pos(c)
  {
    var synced := c.(index := c.at);
    var end := Pos(c) + n;
    if n == 0 then c
    else if end > MAX_FILE_SIZE then WalkedOff(if MAX_BLOCKS > blocks then synced else c, MAX_BLOCKS)
    else MovedTo(if Blocks(end) > blocks then synced else c, end)
  }

  /** The end of the bytes a read of n bytes returns to a started descriptor. */
  function ReadEnd(c: Cursor, occ: seq<nat>, n: nat): int
    requires c.at <= |occ|
  {
    if c.at < 0 then 0 else Min(Pos(c) + n, End(occ, c.at))
  }

  /** Where reading n bytes leaves a started descriptor. */
  function ReadCursor(c: Cursor, occ: seq<nat>, n: nat): Cursor
    requires c.at < 0 || (c.at < |occ| && 0 <= c.offset)
  {
    if n == 0 || c.at < 0 then c
    else
      var end := End(occ, c.at);
      if Pos(c) + n <= end then MovedTo(c, Pos(c) + n)
      else if end < BLOCK_SIZE * |occ| then
        var at := end / BLOCK_SIZE;
        c.(at := at, index := c.index + (at - c.at), offset := end % BLOCK_SIZE)
      else WalkedOff(c, |occ|)
  }

  /** What a shrink to `kept` blocks, the last holding `last` bytes, does to a descriptor. */
  function ResizeCursor(c: Cursor, kept: nat, last: nat): Cursor {
    var d := if c.index >= kept then c.(index := kept - 1, at := kept - 1) else c;
    if d.index == kept - 1 then d.(offset := Min(d.offset, last)) else d
  }

  // ---------------------------------------------------------------- the descriptor table

  /** How many slots hold a descriptor of file `id`. */
  function Refs(table: seq<Slot>, id: nat): nat {
    if table == [] then 0
    else Refs(table[..|table| - 1], id) + (if table[|table| - 1].Some? && table[|table| - 1].value.file == id then 1 else 0)
  }

  /** How many slots are taken. */
  function Live(table: seq<Slot>): nat {
    if table == [] then 0 else Live(table[..|table| - 1]) + (if table[|table| - 1].Some? then 1 else 0)
  }

  function FirstFree(table: seq<Slot>, from: nat): (r: nat)
    requires from <= |table|
    ensures from <= r <= |table|
    ensures forall k :: from <= k < r ==> table[k].Some?
    ensures r < |table| ==> table[r].None?
    decreases |table| - from
  {
    if from == |table| || table[from].None? then from else FirstFree(table, from + 1)
  }

  function Capacity(fs: Fs): nat {
    if fs.count == |fs.table| then |fs.table| + 4 else |fs.table|
  }

  function Extended(fs: Fs): (r: seq<Slot>)
    ensures |r| == Capacity(fs)
  {
    if fs.count == |fs.table| then fs.table + [None, None, None, None] else fs.table
  }

  function FreshCursor(f: FileV, id: nat, permissions: int): Cursor {
    var start := if |f.occ| == 0 then -1 else 0;
    Cursor(id, start, start, 0, permissions)
  }

  function CreateDesc(fs: Fs, id: nat, permissions: int): (Fs, int)
    requires id < |fs.files|
    requires FirstFree(Extended(fs), 0) < Capacity(fs)
  {
    var f := fs.files[id];
    var fd := FirstFree(Extended(fs), 0);
    (fs.(files := fs.files[id := f.(refs := f.refs + 1)],
         table := Extended(fs)[fd := Some(FreshCursor(f, id, permissions))],
         count := fs.count + 1), fd)
  }

  /** A descriptor number with no open descriptor. The code admits fd == capacity and then reads past the table. */
  predicate BadFd(fs: Fs, fd: int)
    requires fd != |fs.table|
  {
    fd < 0 || fd > |fs.table| || fs.table[fd].None?
  }

  /** The bit of value `bit`, a power of two, in the two's complement of flags. */
  predicate Bit(flags: int, bit: int) { bit > 0 && (flags / bit) % 2 == 1 }

  predicate Allows(permissions: int, mode: int) {
    Bit(permissions, UFS_READ_WRITE) || Bit(permissions, mode)
  }

  // ---------------------------------------------------------------- the operations

  /** The position in the file list of the file called `name`, or its length. */
  function Find(fs: Fs, name: string, from: nat): (r: nat)
    requires from <= |fs.listed|
    requires forall i :: 0 <= i < |fs.listed| ==> fs.listed[i] < |fs.files|
    ensures from <= r <= |fs.listed|
    ensures forall i :: from <= i < r ==> fs.files[fs.listed[i]].name != name
    ensures r < |fs.listed| ==> fs.files[fs.listed[r]].name == name
    decreases |fs.listed| - from
  {
    if from == |fs.listed| || fs.files[fs.listed[from]].name == name then from else Find(fs, name, from + 1)
  }

  function AddFile(fs: Fs, name: string): Fs {
    fs.(files := fs.files + [FileV(name, [], [], 0, false, false)], listed := fs.listed + [|fs.files|])
  }

  function Permissions(flags: int): int {
    var p := if flags % 2 == 1 then flags - 1 else flags;
    if p == 0 then UFS_READ_WRITE else p
  }

  function Open(fs: Fs, name: string, flags: int): (Fs, int)
    requires Inv(fs)
  {
    var k := Find(fs, name, 0);
    if k < |fs.listed| then
      FreeSlotExists(fs);
      CreateDesc(fs.(error := NoErr), fs.listed[k], Permissions(flags))
    else if flags % 2 == 0 then (fs.(error := NoFile), -1)
    else
      FreeSlotExists(fs);
      CreateDesc(AddFile(fs, name).(error := NoErr), |fs.files|, Permissions(flags))
  }

  /** Descriptor fd becomes c, its file becomes f. */
  function Moved(fs: Fs, fd: nat, f: FileV, c: Cursor, error: Error): Fs
    requires fd < |fs.table| && c.file < |fs.files|
  {
    fs.(files := fs.files[c.file := f], table := fs.table[fd := Some(c)], error := error)
  }

  function Write(fs: Fs, fd: int, buf: seq<byte>): (Fs, int)
    requires Inv(fs) && fd != |fs.table|
  {
    if BadFd(fs, fd) then (fs.(error := NoFile), -1)
    else
      var f := fs.files[fs.table[fd].value.file];
      var c := Started(fs.table[fd].value, |f.occ|);
      if !Allows(c.permissions, UFS_WRITE_ONLY) then
        (Moved(fs, fd, f, c, NoPermission), -1)
      else
        var k := Room(Pos(c), |buf|);
        (Moved(fs, fd, WriteFile(f, Pos(c), buf[..k]), WriteCursor(c, |f.occ|, |buf|), if k < |buf| then NoMem else NoErr),
         if k < |buf| then -1 else |buf|)
  }

  function Read(fs: Fs, fd: int, n: nat): (Fs, int, seq<byte>)
    requires Inv(fs) && fd != |fs.table|
  {
    if BadFd(fs, fd) then (fs.(error := NoFile), -1, [])
    else
      var f := fs.files[fs.table[fd].value.file];
      var c := Started(fs.table[fd].value, |f.occ|);
      if !Allows(c.permissions, UFS_READ_ONLY) then
        (Moved(fs, fd, f, c, NoPermission), -1, [])
      else
        ReadEndBounds(f, c, n);
        var end := ReadEnd(c, f.occ, n);
        (Moved(fs, fd, f, ReadCursor(c, f.occ, n), NoErr), end - Pos(c), f.mem[Pos(c)..end])
  }

  function FreeFile(f: FileV): FileV { f.(mem := [], occ := [], freed := true) }

  function Close(fs: Fs, fd: int): (Fs, int)
    requires Inv(fs) && fd != |fs.table|
  {
    if BadFd(fs, fd) then (fs.(error := NoFile), -1)
    else
      var id := fs.table[fd].value.file;
      var f := fs.files[id].(refs := fs.files[id].refs - 1);
      var g := if f.removed && f.refs == 0 then FreeFile(f) else f;
      (fs.(files := fs.files[id := g], table := fs.table[fd := None], error := NoErr), 0)
  }

  function Delete(fs: Fs, name: string): (Fs, int)
    requires Inv(fs)
  {
    var k := Find(fs, name, 0);
    if k == |fs.listed| then (fs.(error := NoFile), -1)
    else
      var id := fs.listed[k];
      var f := fs.files[id];
      var g := if f.refs == 0 then FreeFile(f) else f.(removed := true);
      (fs.(files := fs.files[id := g], listed := fs.listed[..k] + fs.listed[k + 1..], error := NoErr), 0)
  }

  function ResizeTable(table: seq<Slot>, id: nat, kept: nat, last: nat): (r: seq<Slot>)
    ensures |r| == |table|
  {
    seq(|table|, i requires 0 <= i < |table| =>
      if table[i].Some? && table[i].value.file == id then Some(ResizeCursor(table[i].value, kept, last)) else table[i])
  }

  function Resize(fs: Fs, fd: int, size: nat): (Fs, int)
    requires Inv(fs) && fd != |fs.table|
  {
    if BadFd(fs, fd) then (fs.(error := NoFile), -1)
    else if size > MAX_FILE_SIZE then (fs.(error := NoMem), -1)
    else
      var id := fs.table[fd].value.file;
      var f := fs.files[id];
      var table :=
        if Blocks(size) >= |f.occ| then fs.table
        else ResizeTable(fs.table, id, Kept(size), size - BLOCK_SIZE * (Kept(size) - 1));
      (fs.(files := fs.files[id := ResizeFile(f, size)], table := table, error := NoErr), 0)
  }

  // ---------------------------------------------------------------- what every operation keeps

  /** A descriptor on a file: its block exists, its offset is within the block's occupied bytes. */
  ghost predicate CursorOk(c: Cursor, f: FileV) {
    && -1 <= c.at < |f.occ|
    && c.at <= c.index
    && (if c.at < 0 then c.offset == 0 else 0 <= c.offset <= f.occ[c.at])
  }

  ghost predicate FileInv(f: FileV) {
    && Shaped(f)
    && |f.occ| <= MAX_BLOCKS
    && (f.freed ==> f.occ == [])
  }

  ghost predicate SlotOk(fs: Fs, slot: Slot) {
    slot.Some? ==>
      && slot.value.file < |fs.files|
      && CursorOk(slot.value, fs.files[slot.value.file])
  }

  ghost predicate ListedOk(fs: Fs) {
    && (forall i :: 0 <= i < |fs.listed| ==> fs.listed[i] < |fs.files|)
    && (forall i, j :: 0 <= i < j < |fs.listed| ==> fs.files[fs.listed[i]].name != fs.files[fs.listed[j]].name)
  }

  /** The life of a file: listed, then removed but open, then freed, exactly at its last close. */
  ghost predicate LifeOk(fs: Fs) {
    forall id :: 0 <= id < |fs.files| ==>
      var f := fs.files[id];
      && f.refs == Refs(fs.table, id)
      && (id in fs.listed ==> !f.removed && !f.freed)
      && (id !in fs.listed ==> (f.freed <==> f.refs == 0) && (f.removed || f.freed))
  }

  ghost predicate TableOk(fs: Fs) {
    && (forall i :: 0 <= i < |fs.table| ==> SlotOk(fs, fs.table[i]))
    && Live(fs.table) <= fs.count <= |fs.table|
  }

  ghost predicate Inv(fs: Fs) {
    && (forall id :: 0 <= id < |fs.files| ==> FileInv(fs.files[id]))
    && ListedOk(fs)
    && LifeOk(fs)
    && TableOk(fs)
  }

  // ---------------------------------------------------------------- lemmas the definitions above need

  lemma {:induction false} FullTable(table: seq<Slot>)
    requires forall i :: 0 <= i < |table| ==> table[i].Some?
    ensures Live(table) == |table|
  {
    if table != [] { FullTable(table[..|table| - 1]); }
  }

  lemma EmptySlot(table: seq<Slot>, id: nat)
    ensures Live(table + [None]) == Live(table)
    ensures Refs(table + [None], id) == Refs(table, id)
  {
    assert (table + [None])[..|table|] == table;
  }

  lemma CountsExtended(fs: Fs, id: nat)
    ensures Live(Extended(fs)) == Live(fs.table)
    ensures Refs(Extended(fs), id) == Refs(fs.table, id)
  {
    var t := fs.table;
    EmptySlot(t, id);
    EmptySlot(t + [None], id);
    EmptySlot(t + [None] + [None], id);
    EmptySlot(t + [None] + [None] + [None], id);
    assert t + [None] + [None] + [None] + [None] == t + [None, None, None, None];
  }

  /** The slot search of ufs_open always stops inside the table, at a free slot. */
  lemma FreeSlotExists(fs: Fs)
    requires Live(fs.table) <= fs.count <= |fs.table|
    ensures FirstFree(Extended(fs), 0) < Capacity(fs)
    ensures Extended(fs)[FirstFree(Extended(fs), 0)].None?
  {
    CountsExtended(fs, 0);
    if FirstFree(Extended(fs), 0) == Capacity(fs) { FullTable(Extended(fs)); }
  }

  lemma {:induction false} EndBounds(occ: seq<nat>, at: nat)
    requires at <= |occ|
    requires forall i :: 0 <= i < |occ| ==> occ[i] <= BLOCK_SIZE
    ensures BLOCK_SIZE * at <= End(occ, at) <= BLOCK_SIZE * |occ|
    ensures at < |occ| ==> BLOCK_SIZE * at + occ[at] <= End(occ, at)
    decreases |occ| - at
  {
    if at < |occ| && occ[at] == BLOCK_SIZE { EndBounds(occ, at + 1); }
  }

  lemma ReadEndBounds(f: FileV, c: Cursor, n: nat)
    requires Shaped(f) && CursorOk(c, f)
    ensures 0 <= Pos(c) <= ReadEnd(c, f.occ, n) <= |f.mem|
  {
    if c.at >= 0 { EndBounds(f.occ, c.at); }
  }
}
