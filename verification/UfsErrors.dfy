/**
 What the calls of UserFS answer: which they refuse, with which error, and what a
 refused call leaves. Permissions are the bits of the flags a descriptor was opened
 with, here by their place in the number: bit 8 is set if p % 16 >= 8.
 */
module UfsErrors {
  import opened UfsModel
  import opened UfsInvariant
  import opened UfsFlat
  import opened UfsNames

  /** The caller's descriptors: the numbers of the slots in use. */
  predicate InUse(fs: Fs, fd: int) { 0 <= fd < |fs.table| && fs.table[fd].Some? }

  predicate MayWrite(p: int) { p % 16 >= 8 || p % 8 >= 4 }

  predicate MayRead(p: int) { p % 16 >= 8 || p % 4 >= 2 }

  lemma AllowsBits(p: int)
    ensures Allows(p, UFS_WRITE_ONLY) <==> MayWrite(p)
    ensures Allows(p, UFS_READ_ONLY) <==> MayRead(p)
  {
    BitEight(p);
    BitFour(p);
    BitTwo(p);
  }

  lemma BitEight(p: int)
    ensures (p / 8) % 2 == 1 <==> p % 16 >= 8
  {
    var k, j := p / 8, p / 8 / 2;
    assert p == 16 * j + (8 * (k % 2) + p % 8);
  }

  lemma BitFour(p: int)
    ensures (p / 4) % 2 == 1 <==> p % 8 >= 4
  {
    var k, j := p / 4, p / 4 / 2;
    assert p == 8 * j + (4 * (k % 2) + p % 4);
  }

  lemma BitTwo(p: int)
    ensures (p / 2) % 2 == 1 <==> p % 4 >= 2
  {
    var k, j := p / 2, p / 2 / 2;
    assert p == 4 * j + (2 * (k % 2) + p % 2);
  }

  /** The call has failed with this error; files, list and other descriptors are as before, and fd is where it was in its file. */
  ghost predicate Refused(fs: Fs, fs': Fs, fd: int, r: int, error: Error) {
    && r == -1 && fs'.error == error
    && fs'.files == fs.files && fs'.listed == fs.listed && |fs'.table| == |fs.table|
    && (forall i :: 0 <= i < |fs.table| && (i != fd || fs.table[i].None?) ==> fs'.table[i] == fs.table[i])
    && (InUse(fs, fd) ==> InUse(fs', fd) && Pos(fs'.table[fd].value) == Pos(fs.table[fd].value))
  }

  // ---------------------------------------------------------------- each call

  /** ufs_write answers by the descriptor, its permissions and the room left, and by nothing else. */
  lemma WriteAnswers(fs: Fs, fd: int, buf: seq<byte>)
    requires Inv(fs) && fd != |fs.table|
    ensures var (fs', r) := Write(fs, fd, buf);
            if !InUse(fs, fd) then Refused(fs, fs', fd, r, NoFile)
            else if !MayWrite(fs.table[fd].value.permissions) then Refused(fs, fs', fd, r, NoPermission)
            else if Pos(fs.table[fd].value) + |buf| > 104857600 then r == -1 && fs'.error == NoMem
            else r == |buf| && fs'.error == NoErr
  {
    if InUse(fs, fd) {
      assert SlotOk(fs, fs.table[fd]);
      AllowsBits(fs.table[fd].value.permissions);
      hide Inv, WriteFile, WriteCursor;
    }
  }

  lemma ReadAnswers(fs: Fs, fd: int, n: nat)
    requires Inv(fs) && fd != |fs.table|
    ensures var (fs', r, out) := Read(fs, fd, n);
            if !InUse(fs, fd) then Refused(fs, fs', fd, r, NoFile) && out == []
            else if !MayRead(fs.table[fd].value.permissions) then Refused(fs, fs', fd, r, NoPermission) && out == []
            else r == |out| && fs'.error == NoErr
  {
    if InUse(fs, fd) {
      assert SlotOk(fs, fs.table[fd]);
      AllowsBits(fs.table[fd].value.permissions);
      var f := fs.files[fs.table[fd].value.file];
      ReadEndBounds(f, Started(fs.table[fd].value, |f.occ|), n);
      hide Inv, ReadCursor, ReadEnd;
    }
  }

  lemma ResizeAnswers(fs: Fs, fd: int, size: nat)
    requires Inv(fs) && fd != |fs.table|
    ensures var (fs', r) := Resize(fs, fd, size);
            if !InUse(fs, fd) then Refused(fs, fs', fd, r, NoFile)
            else if size > 104857600 then Refused(fs, fs', fd, r, NoMem)
            else r == 0 && fs'.error == NoErr
  {
  }

  lemma CloseAnswers(fs: Fs, fd: int)
    requires Inv(fs) && fd != |fs.table|
    ensures var (fs', r) := Close(fs, fd);
            if InUse(fs, fd) then r == 0 && fs'.error == NoErr && !InUse(fs', fd) else Refused(fs, fs', fd, r, NoFile)
  {
  }

  // ---------------------------------------------------------------- permissions over runs

  /** The number of the first bit, UFS_CREATE, taken away. */
  function Mode(flags: int): int { flags - flags % 2 }

  /** Opened without a mode a descriptor may do both. */
  predicate OpenedForWriting(flags: int) { Mode(flags) == 0 || MayWrite(Mode(flags)) }

  predicate OpenedForReading(flags: int) { Mode(flags) == 0 || MayRead(Mode(flags)) }

  lemma OpenedWith(fs: Fs, name: string, flags: int)
    requires Inv(fs)
    ensures var (fs', fd) := Open(fs, name, flags);
            && Inv(fs') && (fd == -1 || InUse(fs', fd))
            && (fd != -1 ==> fs'.error == NoErr && (MayWrite(fs'.table[fd].value.permissions) <==> OpenedForWriting(flags)))
            && (fd != -1 ==> (MayRead(fs'.table[fd].value.permissions) <==> OpenedForReading(flags)))
  {
    OpenInv(fs, name, flags);
    OpenGives(fs, name, flags);
    Granted(flags);
    hide Inv, MayWrite, MayRead, Permissions, OpenedForWriting, OpenedForReading, Open, Exists;
  }

  /** What is stored of the flags allows what they say. */
  lemma Granted(flags: int)
    ensures MayWrite(Permissions(flags)) <==> OpenedForWriting(flags)
    ensures MayRead(Permissions(flags)) <==> OpenedForReading(flags)
  {
    hide MayWrite, MayRead;
    NoMode();
  }

  /** Bit 8 alone allows both. */
  lemma NoMode()
    ensures MayWrite(8) && MayRead(8)
  {
  }

  /** Descriptor fd is not closed. */
  predicate NeverCloses(ops: seq<Op>, fd: nat) { forall k :: 0 <= k < |ops| ==> ops[k] != OpClose(fd) }

  /** Descriptor fd is as open as before. */
  ghost predicate SameMode(fs: Fs, fs': Fs, fd: nat) {
    InUse(fs, fd) && InUse(fs', fd) && fs'.table[fd].value.permissions == fs.table[fd].value.permissions
  }

  lemma StepKeepsMode(fs: Fs, op: Op, fd: nat)
    requires Inv(fs) && Legal(fs, op) && InUse(fs, fd) && op != OpClose(fd)
    ensures SameMode(fs, Step(fs, op), fd)
  {
    hide Inv, SameMode, Open, Write, Read, Resize, Close, Delete;
    match op
    case OpOpen(name, flags) => OpenKeepsMode(fs, name, flags, fd);
    case OpWrite(i, buf) => WriteKeepsMode(fs, i, buf, fd);
    case OpRead(i, n) => ReadKeepsMode(fs, i, n, fd);
    case OpResize(i, size) => ResizeKeepsMode(fs, i, size, fd);
    case OpClose(i) => CloseKeepsMode(fs, i, fd);
    case OpDelete(name) => DeleteKeepsMode(fs, name, fd);
  }

  lemma OpenKeepsMode(fs: Fs, name: string, flags: int, fd: nat)
    requires Inv(fs) && InUse(fs, fd)
    ensures SameMode(fs, Open(fs, name, flags).0, fd)
  {
    OpenGives(fs, name, flags);
    hide Inv, Open, Exists, Permissions;
  }

  lemma WriteKeepsMode(fs: Fs, i: int, buf: seq<byte>, fd: nat)
    requires Inv(fs) && i != |fs.table| && InUse(fs, fd)
    ensures SameMode(fs, Write(fs, i, buf).0, fd)
  {
    if InUse(fs, i) { assert SlotOk(fs, fs.table[i]); }
    hide Inv, WriteFile, Allows;
  }

  lemma ReadKeepsMode(fs: Fs, i: int, n: nat, fd: nat)
    requires Inv(fs) && i != |fs.table| && InUse(fs, fd)
    ensures SameMode(fs, Read(fs, i, n).0, fd)
  {
    if InUse(fs, i) { assert SlotOk(fs, fs.table[i]); }
    hide Inv, ReadEnd, Allows;
  }

  lemma ResizeKeepsMode(fs: Fs, i: int, size: nat, fd: nat)
    requires Inv(fs) && i != |fs.table| && InUse(fs, fd)
    ensures SameMode(fs, Resize(fs, i, size).0, fd)
  {
    hide ResizeFile;
  }

  lemma CloseKeepsMode(fs: Fs, i: int, fd: nat)
    requires Inv(fs) && i != |fs.table| && InUse(fs, fd) && i != fd
    ensures SameMode(fs, Close(fs, i).0, fd)
  {
  }

  lemma DeleteKeepsMode(fs: Fs, name: string, fd: nat)
    requires Inv(fs) && InUse(fs, fd)
    ensures SameMode(fs, Delete(fs, name).0, fd)
  {
  }

  lemma {:induction false} RunKeepsMode(fs: Fs, ops: seq<Op>, fd: nat)
    requires Inv(fs) && LegalRun(fs, ops) && InUse(fs, fd) && NeverCloses(ops, fd)
    ensures SameMode(fs, Run(fs, ops), fd)
    decreases |ops|
  {
    hide Inv, Step;
    if ops != [] {
      StepInv(fs, ops[0]);
      StepKeepsMode(fs, ops[0], fd);
      assert forall k :: 0 <= k < |ops[1..]| ==> ops[1..][k] == ops[k + 1];
      RunKeepsMode(Step(fs, ops[0]), ops[1..], fd);
    }
  }

  /** The call is refused for lack of permission exactly if `refused`. */
  ghost predicate RefusedExactly(fs: Fs, fs': Fs, fd: nat, r: int, refused: bool) {
    if refused then Refused(fs, fs', fd, r, NoPermission) else fs'.error != NoPermission
  }

  /**
   A descriptor, as long as it stays open, may write and read exactly what the flags of
   its ufs_open say: write with no mode or bit 8 or bit 4, read with none or bit 8 or bit 2.
   */
  lemma ModeDecides(fs: Fs, name: string, flags: int, ops: seq<Op>, buf: seq<byte>, n: nat)
    requires Inv(fs) && Open(fs, name, flags).1 >= 0 && Inv(Open(fs, name, flags).0)
    requires LegalRun(Open(fs, name, flags).0, ops) && NeverCloses(ops, Open(fs, name, flags).1)
    ensures var fd := Open(fs, name, flags).1;
            var fs2 := Run(Open(fs, name, flags).0, ops);
            && Inv(fs2) && InUse(fs2, fd)
            && RefusedExactly(fs2, Write(fs2, fd, buf).0, fd, Write(fs2, fd, buf).1, !OpenedForWriting(flags))
            && RefusedExactly(fs2, Read(fs2, fd, n).0, fd, Read(fs2, fd, n).1, !OpenedForReading(flags))
  {
    OpenedWith(fs, name, flags);
    var fs1, fd := Open(fs, name, flags).0, Open(fs, name, flags).1;
    RunKeepsMode(fs1, ops, fd);
    var fs2 := Run(fs1, ops);
    WriteAnswers(fs2, fd, buf);
    ReadAnswers(fs2, fd, n);
  }

  /** Whether cutting or growing the file to `size` changes it. */
  predicate Resizes(f: FileV, size: nat) {
    Blocks(size) != |f.occ| && !(size == 0 && |f.occ| == 1 && f.occ[0] == 0)
  }

  /**
   The header promises a read-only descriptor only reading. Writes through it change
   nothing, but ufs_resize does not look at permissions: a call that names the
   descriptor changes its file exactly if it is a resize that changes the file.
   */
  lemma ReadOnlyChanges(fs: Fs, op: Op, fd: nat)
    requires Inv(fs) && InUse(fs, fd) && fs.table[fd].value.file < |fs.files|
    requires !MayWrite(fs.table[fd].value.permissions)
    requires op.OpWrite? || op.OpRead? || op.OpResize?
    requires op.fd == fd
    ensures var id := fs.table[fd].value.file;
            Step(fs, op).files != fs.files <==> op.OpResize? && op.size <= 104857600 && Resizes(fs.files[id], op.size)
  {
    assert SlotOk(fs, fs.table[fd]);
    var f := fs.files[fs.table[fd].value.file];
    assert FileInv(f);
    match op
    case OpWrite(_, buf) => WriteAnswers(fs, fd, buf);
    case OpRead(_, n) => assert Read(fs, fd, n).0.files == fs.files;
    case OpResize(_, size) => ResizeChanges(f, size);
  }

  lemma ResizeChanges(f: FileV, size: nat)
    requires FileInv(f)
    ensures ResizeFile(f, size) != f <==> Resizes(f, size)
  {
    if Blocks(size) >= |f.occ| {
      assert |Grow(f, Blocks(size)).occ| == Blocks(size);
    } else if Kept(size) == |f.occ| {
      assert f.mem[..BLOCK_SIZE * Kept(size)] == f.mem;
      assert |f.occ| == 1 && f.occ[..0] == [];
    } else {
      assert |ResizeFile(f, size).occ| == Kept(size);
    }
  }
}
