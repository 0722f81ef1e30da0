/**
 The block list of one file as the program keeps it: blocks linked by pointers, with
 memory and counters changed in place, and a descriptor that points into the list.
 The loops of ufs_write, ufs_read, ufs_resize and free_file are proved to do to the
 heap what the functions of UfsModel do to the file's value.
 */
module UfsBlocks {
  import opened UfsModel
  import opened UfsInvariant

  class Block {
    const memory: array<byte>
    var occupied: int
    var next: Block?
    var prev: Block?
    ghost var freed: bool

    constructor ()
      ensures fresh(memory) && memory[..] == Zeros(BLOCK_SIZE)
      ensures occupied == 0 && next == null && prev == null && !freed
    {
      memory := new byte[BLOCK_SIZE](_ => 0);
      occupied, next, prev, freed := 0, null, null, false;
    }
  }

  class File {
    var blockList: Block?
    var blocksCount: int
    var lastBlock: Block?
    var refs: int
    const name: string
    var next: File?
    var prev: File?
    var isRemoved: bool
    ghost var blocks: seq<Block>
    ghost var blockSet: set<Block>
    ghost var memorySet: set<array<byte>>
    ghost const id: nat
    ghost var freed: bool

    constructor (name: string, ghost id: nat)
      ensures this.name == name && this.id == id && blockList == null && lastBlock == null
      ensures blocks == [] && blockSet == {} && memorySet == {}
      ensures blocksCount == 0 && refs == 0 && next == null && prev == null && !isRemoved && !freed
    {
      this.name, this.id, blockList, lastBlock := name, id, null, null;
      blocks, blockSet, memorySet := [], {}, {};
      blocksCount, refs, next, prev, isRemoved, freed := 0, 0, null, null, false, false;
    }
  }

  class Desc {
    var file: File
    var currentBlock: Block?
    var offset: int
    var currentBlockIndex: int
    var permissions: int
    const fd: int

    constructor (file: File, fd: int, permissions: int)
      ensures this.file == file && this.fd == fd && this.permissions == permissions
      ensures currentBlock == file.blockList && offset == 0
      ensures currentBlockIndex == if file.blockList == null then -1 else 0
    {
      this.file, this.fd, this.permissions := file, fd, permissions;
      currentBlock, offset := file.blockList, 0;
      currentBlockIndex := if file.blockList == null then -1 else 0;
    }
  }

  // ---------------------------------------------------------------- what the pointers mean

  /** The block at index `at`, NULL outside the list. */
  ghost function BlockAt(blocks: seq<Block>, at: int): Block? {
    if 0 <= at < |blocks| then blocks[at] else null
  }

  ghost predicate LinkOk(b: Block, blocks: seq<Block>, i: nat)
    reads b`freed, b`next, b`prev
  {
    !b.freed && b.next == BlockAt(blocks, i + 1) && b.prev == BlockAt(blocks, i - 1)
  }

  ghost predicate DataOk(b: Block, i: nat, v: FileV)
    requires i < |v.occ| && |v.mem| == BLOCK_SIZE * |v.occ|
    reads b`occupied, b.memory
  {
    b.occupied == v.occ[i] && b.memory[..] == v.mem[BLOCK_SIZE * i..BLOCK_SIZE * (i + 1)]
  }

  ghost predicate InSets(b: Block, blockSet: set<Block>, memorySet: set<array<byte>>) {
    b in blockSet && b.memory in memorySet
  }

  ghost predicate Apart(b: Block, c: Block) { b != c && b.memory != c.memory }

  /** Head, tail, next and prev pointers agree with the sequence of blocks; each block has memory of its own. */
  ghost predicate Linked(f: File)
    reads f`blockList, f`lastBlock, f`blocksCount, f`blocks, f`blockSet, f`memorySet
    reads f.blockSet`freed, f.blockSet`next, f.blockSet`prev
  {
    && f.blocksCount == |f.blocks|
    && f.blockList == BlockAt(f.blocks, 0)
    && f.lastBlock == BlockAt(f.blocks, |f.blocks| - 1)
    && (forall i {:trigger InSets(f.blocks[i], f.blockSet, f.memorySet)} :: 0 <= i < |f.blocks| ==>
          InSets(f.blocks[i], f.blockSet, f.memorySet))
    && (forall i, j {:trigger Apart(f.blocks[i], f.blocks[j])} :: 0 <= i < j < |f.blocks| ==> Apart(f.blocks[i], f.blocks[j]))
    && (forall i {:trigger LinkOk(f.blocks[i], f.blocks, i)} :: 0 <= i < |f.blocks| ==>
          InSets(f.blocks[i], f.blockSet, f.memorySet) && LinkOk(f.blocks[i], f.blocks, i))
  }

  /** The blocks hold the bytes and the occupied counts of v. */
  ghost predicate Holds(f: File, v: FileV)
    reads f`blocks, f`blockSet, f`memorySet, f.blockSet`occupied, f.memorySet
  {
    && |f.blocks| == |v.occ| && |v.mem| == BLOCK_SIZE * |v.occ|
    && (forall i {:trigger DataOk(f.blocks[i], i, v)} :: 0 <= i < |f.blocks| ==>
          InSets(f.blocks[i], f.blockSet, f.memorySet) && DataOk(f.blocks[i], i, v))
  }

  ghost predicate FileOk(f: File, v: FileV)
    reads f`blockList, f`lastBlock, f`blocksCount, f`blocks, f`blockSet, f`memorySet, f`refs, f`isRemoved, f`freed
    reads f.blockSet, f.memorySet
  {
    && Linked(f) && Holds(f, v)
    && !f.freed && !v.freed && f.name == v.name && f.refs == v.refs && f.isRemoved == v.removed
  }

  ghost predicate DescOk(d: Desc, f: File, c: Cursor)
    reads d, f`blocks
  {
    DescOn(d, f, f.blocks, c)
  }

  /** Descriptor d of file f points where c does in the list `blocks`. */
  ghost predicate DescOn(d: Desc, f: File, blocks: seq<Block>, c: Cursor)
    reads d
  {
    && d.file == f
    && d.currentBlock == BlockAt(blocks, c.at)
    && d.currentBlockIndex == c.index
    && d.offset == c.offset
    && d.permissions == c.permissions
  }

  // ---------------------------------------------------------------- lemmas about the model's sequences

  /** One block's worth of a write. */
  function Stored(v: FileV, at: nat, offset: nat, chunk: seq<byte>): FileV
    requires at < |v.occ| && |v.mem| == BLOCK_SIZE * |v.occ| && offset + |chunk| <= BLOCK_SIZE
  {
    v.(mem := Splice(v.mem, BLOCK_SIZE * at + offset, chunk), occ := v.occ[at := Max(v.occ[at], offset + |chunk|)])
  }

  lemma StoredIsWrite(v: FileV, at: nat, offset: nat, chunk: seq<byte>)
    requires at < |v.occ| && |v.mem| == BLOCK_SIZE * |v.occ| && offset + |chunk| <= BLOCK_SIZE && chunk != []
    ensures WriteFile(v, BLOCK_SIZE * at + offset, chunk) == Stored(v, at, offset, chunk)
  {
    var pos := BLOCK_SIZE * at + offset;
    assert Raise(v.occ, pos, pos + |chunk|) == v.occ[at := Max(v.occ[at], offset + |chunk|)];
  }

  lemma StoredSlices(v: FileV, at: nat, offset: nat, chunk: seq<byte>, i: nat)
    requires at < |v.occ| && |v.mem| == BLOCK_SIZE * |v.occ| && offset + |chunk| <= BLOCK_SIZE && i < |v.occ|
    ensures var was := v.mem[BLOCK_SIZE * i..BLOCK_SIZE * (i + 1)];
            Stored(v, at, offset, chunk).mem[BLOCK_SIZE * i..BLOCK_SIZE * (i + 1)] ==
            if i == at then was[..offset] + chunk + was[offset + |chunk|..] else was
  {
  }

  lemma GrowWrite(v: FileV, pos: nat, chunk: seq<byte>)
    requires |v.mem| == BLOCK_SIZE * |v.occ| && pos == BLOCK_SIZE * |v.occ| && chunk != []
    ensures WriteFile(Grow(v, |v.occ| + 1), pos, chunk) == WriteFile(v, pos, chunk)
  {
    var n := Blocks(pos + |chunk|);
    GrowGrow(v, |v.occ| + 1, n);
  }

  lemma GrowGrow(v: FileV, n: nat, m: nat)
    requires |v.occ| <= n <= m
    ensures Grow(Grow(v, n), m) == Grow(v, m)
  {
    assert ZeroCounts(n - |v.occ|) + ZeroCounts(m - n) == ZeroCounts(m - |v.occ|);
    assert Zeros(BLOCK_SIZE * (n - |v.occ|)) + Zeros(BLOCK_SIZE * (m - n)) == Zeros(BLOCK_SIZE * (m - |v.occ|));
    assert Grow(Grow(v, n), m).occ == Grow(v, m).occ;
    assert Grow(Grow(v, n), m).mem == Grow(v, m).mem;
  }

  lemma SpliceAppend(m: seq<byte>, z: seq<byte>, pos: nat, a: seq<byte>, b: seq<byte>)
    requires pos + |a| <= |m| && pos + |a| + |b| <= |m| + |z|
    ensures Splice(Splice(m, pos, a) + z, pos + |a|, b) == Splice(m + z, pos, a + b)
  {
  }

  lemma RaiseAppend(occ: seq<nat>, more: nat, lo: nat, mid: nat, hi: nat)
    requires lo <= mid <= hi && mid <= BLOCK_SIZE * |occ|
    ensures Raise(Raise(occ, lo, mid) + ZeroCounts(more), mid, hi) == Raise(occ + ZeroCounts(more), lo, hi)
  {
  }

  /** The blocks appended on the way from n to m. */
  function Added(v: FileV, n: nat, m: nat): nat { Max(m - Max(n, |v.occ|), 0) }

  function WithZeros(v: FileV, more: nat): FileV {
    v.(mem := v.mem + Zeros(BLOCK_SIZE * more), occ := v.occ + ZeroCounts(more))
  }

  lemma GrowInTwo(v: FileV, n: nat, m: nat)
    requires n <= m
    ensures Grow(v, m) == WithZeros(Grow(v, n), Added(v, n, m))
  {
    if |v.occ| <= n {
      GrowGrow(v, n, m);
    }
    if Added(v, n, m) == 0 {
      assert WithZeros(Grow(v, n), 0).mem == Grow(v, n).mem;
      assert WithZeros(Grow(v, n), 0).occ == Grow(v, n).occ;
    }
  }

  lemma GrowAsZeros(v: FileV, m: nat)
    ensures Grow(v, m) == WithZeros(v, Max(m - |v.occ|, 0))
  {
    GrowInTwo(v, 0, m);
  }

  lemma PutAppend(g: FileV, more: nat, pos: nat, a: seq<byte>, b: seq<byte>)
    requires |g.mem| == BLOCK_SIZE * |g.occ| && pos + |a| <= |g.mem|
    requires pos + |a| + |b| <= |g.mem| + BLOCK_SIZE * more
    ensures Put(WithZeros(Put(g, pos, a), more), pos + |a|, b) == Put(WithZeros(g, more), pos, a + b)
  {
    SpliceAppend(g.mem, Zeros(BLOCK_SIZE * more), pos, a, b);
    RaiseAppend(g.occ, more, pos, pos + |a|, pos + |a| + |b|);
  }

  /** The first of two writes in a row leaves the second to append the same blocks as one write of both. */
  lemma GrowAfterWrite(v: FileV, pos: nat, a: seq<byte>, more: nat, hi: nat)
    requires |v.mem| == BLOCK_SIZE * |v.occ| && pos <= |v.mem| && pos + |a| <= hi
    requires more == Added(v, Blocks(pos + |a|), Blocks(hi))
    ensures var g, w := Grow(v, Blocks(pos + |a|)), WriteFile(v, pos, a);
            && w == Put(g, pos, a)
            && |g.mem| == BLOCK_SIZE * |g.occ| && pos + |a| <= |g.mem| && hi <= |g.mem| + BLOCK_SIZE * more
            && Grow(w, Blocks(hi)) == WithZeros(w, more) && Grow(v, Blocks(hi)) == WithZeros(g, more)
  {
    GrowInTwo(v, Blocks(pos + |a|), Blocks(hi));
    GrowAsZeros(WriteFile(v, pos, a), Blocks(hi));
  }

  /** Two writes in a row are one write of both pieces. */
  lemma WriteAppend(v: FileV, pos: nat, a: seq<byte>, b: seq<byte>)
    requires |v.mem| == BLOCK_SIZE * |v.occ| && pos <= |v.mem|
    ensures var w := WriteFile(v, pos, a);
            |w.mem| == BLOCK_SIZE * |w.occ| && pos + |a| <= |w.mem| && WriteFile(w, pos + |a|, b) == WriteFile(v, pos, a + b)
  {
    var hi := pos + |a| + |b|;
    var more := Added(v, Blocks(pos + |a|), Blocks(hi));
    GrowAfterWrite(v, pos, a, more, hi);
    var g := Grow(v, Blocks(pos + |a|));
    assert |Put(g, pos, a).mem| == |g.mem| && |Put(g, pos, a).occ| == |g.occ|;
    hide Blocks, Added, Grow, WithZeros, Put;
    PutAppend(g, more, pos, a, b);
    assert |a + b| == |a| + |b|;
  }

  // ---------------------------------------------------------------- one file, one descriptor

  method MemCpy(dst: array<byte>, at: nat, src: seq<byte>)
    requires at + |src| <= dst.Length
    modifies dst
    ensures dst[..] == old(dst[..at]) + src + old(dst[at + |src|..])
  {
    forall k | 0 <= k < |src| { dst[at + k] := src[k]; }
  }

  method AddBlock(f: File, ghost v: FileV) returns (b: Block)
    requires FileOk(f, v)
    modifies f`blockList, f`lastBlock, f`blocksCount, f`blocks, f`blockSet, f`memorySet, f.blockSet
    ensures FileOk(f, Grow(v, |v.occ| + 1))
    ensures f.blocks == old(f.blocks) + [b]
    ensures fresh(f.blockSet - old(f.blockSet)) && fresh(f.memorySet - old(f.memorySet))
  {
    b := new Block();
    LinkBlock(f, b, v);
  }

  /** Puts block b behind the last one. */
  method LinkBlock(f: File, b: Block, ghost v: FileV)
    requires FileOk(f, v) && b !in f.blockSet && b.memory !in f.memorySet
    requires b.next == null && !b.freed && b.occupied == 0 && b.memory[..] == Zeros(BLOCK_SIZE)
    modifies b, f`blockList, f`lastBlock, f`blocksCount, f`blocks, f`blockSet, f`memorySet, f.blockSet
    ensures FileOk(f, Grow(v, |v.occ| + 1))
    ensures f.blocks == old(f.blocks) + [b]
    ensures f.blockSet == old(f.blockSet) + {b} && f.memorySet == old(f.memorySet) + {b.memory}
  {
    assert |v.occ| > 0 ==> InSets(f.blocks[|v.occ| - 1], f.blockSet, f.memorySet);
    if f.blockList == null { f.blockList := b; }
    if f.lastBlock != null { f.lastBlock.next := b; }
    b.prev := f.lastBlock;
    f.lastBlock := b;
    f.blocksCount := f.blocksCount + 1;
    f.blocks, f.blockSet, f.memorySet := f.blocks + [b], f.blockSet + {b}, f.memorySet + {b.memory};
    assert Linked(f) by {
      forall i, j | 0 <= i < j < |f.blocks| ensures Apart(f.blocks[i], f.blocks[j]) {
        assert old(InSets(f.blocks[i], f.blockSet, f.memorySet));
        if j < |v.occ| { assert old(Apart(f.blocks[i], f.blocks[j])); }
      }
      forall i | 0 <= i < |f.blocks|
        ensures InSets(f.blocks[i], f.blockSet, f.memorySet) && LinkOk(f.blocks[i], f.blocks, i)
      {
        if i < |v.occ| {
          assert old(InSets(f.blocks[i], f.blockSet, f.memorySet) && LinkOk(f.blocks[i], f.blocks, i));
          if i < |v.occ| - 1 { assert old(Apart(f.blocks[i], f.blocks[|v.occ| - 1])); }
          else { assert old(LinkOk(f.blocks[|v.occ| - 1], f.blocks, |v.occ| - 1)); }
        }
      }
    }
    assert Holds(f, Grow(v, |v.occ| + 1)) by {
      GrownSlices(v, 0);
      forall i | 0 <= i < |f.blocks|
        ensures InSets(f.blocks[i], f.blockSet, f.memorySet) && DataOk(f.blocks[i], i, Grow(v, |v.occ| + 1))
      {
        GrownSlices(v, i);
        if i < |v.occ| { assert old(InSets(f.blocks[i], f.blockSet, f.memorySet) && DataOk(f.blocks[i], i, v)); }
      }
    }
  }

  lemma GrownSlices(v: FileV, i: nat)
    requires |v.mem| == BLOCK_SIZE * |v.occ| && i <= |v.occ|
    ensures var g := Grow(v, |v.occ| + 1);
            && |g.occ| == |v.occ| + 1 && |g.mem| == BLOCK_SIZE * |g.occ|
            && g.occ[i] == (if i < |v.occ| then v.occ[i] else 0)
            && g.mem[BLOCK_SIZE * i..BLOCK_SIZE * (i + 1)] ==
               if i < |v.occ| then v.mem[BLOCK_SIZE * i..BLOCK_SIZE * (i + 1)] else Zeros(BLOCK_SIZE)
  {
  }

  /** Copies chunk into block `at` of f. */
  method StoreChunk(f: File, b: Block, offset: nat, chunk: seq<byte>, ghost at: nat, ghost v: FileV)
    requires FileOk(f, v) && at < |f.blocks| && f.blocks[at] == b && offset + |chunk| <= BLOCK_SIZE
    modifies b`occupied, b.memory
    ensures FileOk(f, Stored(v, at, offset, chunk))
  {
    assert DataOk(b, at, v);
    assert b.memory.Length == BLOCK_SIZE by { assert |b.memory[..]| == BLOCK_SIZE; }
    MemCpy(b.memory, offset, chunk);
    b.occupied := Max(b.occupied, offset + |chunk|);
    ghost var g := Stored(v, at, offset, chunk);
    forall i | 0 <= i < |f.blocks| ensures InSets(f.blocks[i], f.blockSet, f.memorySet) && DataOk(f.blocks[i], i, g) {
      assert old(DataOk(f.blocks[i], i, v));
      assert i == at || Apart(f.blocks[i], b) || Apart(b, f.blocks[i]);
      StoredSlices(v, at, offset, chunk, i);
    }
  }

  // ---------------------------------------------------------------- the loop of ufs_write

  /** The next block, or NULL behind the last of `count`. */
  function Hop(k: Cursor, count: nat): Cursor {
    k.(at := if k.at + 1 < count then k.at + 1 else -1, index := k.index + 1, offset := 0)
  }

  /** The block just appended to a file that had `count`. */
  function OnNewBlock(k: Cursor, count: nat): Cursor { k.(at := count, index := count, offset := 0) }

  /** Descriptor c of file v has written the first `written` bytes of buf: the file is g and the descriptor k. */
  ghost predicate Progress(v: FileV, c: Cursor, buf: seq<byte>, written: nat, g: FileV, k: Cursor) {
    && |v.mem| == BLOCK_SIZE * |v.occ| && 0 <= Pos(c) <= |v.mem| && |v.occ| <= MAX_BLOCKS && written <= |buf|
    && -1 <= c.at < |v.occ| && (c.at < 0 ==> c.offset == 0) && (c.at < 0 ==> v.occ == [])
    && g == WriteFile(v, Pos(c), buf[..written])
    && |g.mem| == BLOCK_SIZE * |g.occ| && |v.occ| <= |g.occ| <= MAX_BLOCKS && |g.occ| == Max(|v.occ|, Blocks(Pos(c) + written))
    && k.file == c.file && k.permissions == c.permissions
    && -1 <= k.at < |g.occ|
    && (if k.at < 0 then k.offset == 0 && Pos(c) + written == |g.mem|
        else 0 <= k.offset <= BLOCK_SIZE && Pos(c) + written == BLOCK_SIZE * k.at + k.offset)
    && (g.occ == [] ==> k.index == c.index)
    && (g.occ != [] ==>
          k.index == (if k.at < 0 then |g.occ| else k.at) + (if |g.occ| > |v.occ| then 0 else c.index - c.at))
    && (0 < written == |buf| ==> k.at >= 0 && k.offset > 0)
    && (|buf| == 0 ==> k == c)
  }

  lemma ProgressStart(v: FileV, c: Cursor, buf: seq<byte>)
    requires FileInv(v) && CursorOk(c, v) && (c.at < 0 ==> v.occ == [])
    ensures Progress(v, c, buf, 0, v, c)
  {
    assert buf[..0] == [];
    WriteNothing(v, Pos(c));
  }

  lemma ProgressHop(v: FileV, c: Cursor, buf: seq<byte>, written: nat, g: FileV, k: Cursor)
    requires Progress(v, c, buf, written, g, k) && written < |buf| && k.at >= 0 && k.offset == BLOCK_SIZE
    ensures Progress(v, c, buf, written, g, Hop(k, |g.occ|))
  {
    hide WriteFile;
  }

  /** The file and its descriptor once there is a block for the next chunk. */
  function Roomy(g: FileV, k: Cursor): FileV { if k.at < 0 then Grow(g, |g.occ| + 1) else g }

  function OnRoom(g: FileV, k: Cursor): Cursor { if k.at < 0 then OnNewBlock(k, |g.occ|) else k }

  lemma ProgressStore(v: FileV, c: Cursor, buf: seq<byte>, written: nat, g: FileV, k: Cursor, chunk: nat)
    requires Progress(v, c, buf, written, g, k) && 0 < chunk <= |buf| - written
    requires k.at < 0 ==> |g.occ| < MAX_BLOCKS
    requires OnRoom(g, k).offset + chunk <= BLOCK_SIZE
    ensures var h, l := Roomy(g, k), OnRoom(g, k);
            && 0 <= l.at < |h.occ| && |h.mem| == BLOCK_SIZE * |h.occ| && 0 <= l.offset
            && Progress(v, c, buf, written + chunk, Stored(h, l.at, l.offset, buf[written..written + chunk]),
                        l.(offset := l.offset + chunk))
  {
    var h, l := Roomy(g, k), OnRoom(g, k);
    StoredStep(v, g, h, Pos(c), buf, written, l.at, l.offset, chunk);
    assert |h.occ| == Max(|v.occ|, Blocks(Pos(c) + written + chunk));
    hide WriteFile, Grow;
  }

  lemma ProgressDone(v: FileV, c: Cursor, buf: seq<byte>, g: FileV, k: Cursor)
    requires Progress(v, c, buf, |buf|, g, k)
    ensures Room(Pos(c), |buf|) == |buf| && g == WriteFile(v, Pos(c), buf) && k == WriteCursor(c, |v.occ|, |buf|)
  {
    assert buf[..|buf|] == buf;
    hide WriteFile;
  }

  lemma ProgressFull(v: FileV, c: Cursor, buf: seq<byte>, written: nat, g: FileV, k: Cursor)
    requires Progress(v, c, buf, written, g, k) && written < |buf| && k.at < 0 && |g.occ| == MAX_BLOCKS
    ensures Room(Pos(c), |buf|) == written && k == WriteCursor(c, |v.occ|, |buf|)
  {
    hide WriteFile;
  }

  /** A block for the next chunk: the descriptor's own, or one appended to the file. */
  method TakeBlock(d: Desc, f: File, ghost v: FileV, ghost k: Cursor)
    requires FileOk(f, v) && DescOk(d, f, k) && -1 <= k.at < |f.blocks|
    modifies d`currentBlock, d`currentBlockIndex, d`offset
    modifies f`blockList, f`lastBlock, f`blocksCount, f`blocks, f`blockSet, f`memorySet, f.blockSet
    ensures FileOk(f, Roomy(v, k)) && DescOk(d, f, OnRoom(v, k)) && 0 <= OnRoom(v, k).at < |f.blocks|
    ensures d.currentBlock != null && InSets(d.currentBlock, f.blockSet, f.memorySet)
    ensures old(f.blocks) <= f.blocks && fresh(f.blockSet - old(f.blockSet)) && fresh(f.memorySet - old(f.memorySet))
  {
    FileOkCounts(f, v);
    if d.currentBlock != null { InFile(f, v, k.at); }
    hide FileOk;
    if d.currentBlock == null {
      var b := AddBlock(f, v);
      FileOkCounts(f, Grow(v, |v.occ| + 1));
      InFile(f, Grow(v, |v.occ| + 1), |f.blocks| - 1);
      d.currentBlock := b;
      d.currentBlockIndex := f.blocksCount - 1;
      d.offset := 0;
    }
  }

  lemma InFile(f: File, v: FileV, i: nat)
    requires FileOk(f, v) && i < |f.blocks|
    ensures InSets(f.blocks[i], f.blockSet, f.memorySet) && LinkOk(f.blocks[i], f.blocks, i)
    ensures |f.blocks| == |v.occ| && |v.mem| == BLOCK_SIZE * |v.occ| && DataOk(f.blocks[i], i, v)
  {
  }

  lemma FileOkCounts(f: File, v: FileV)
    requires FileOk(f, v)
    ensures f.blocksCount == |f.blocks| == |v.occ| && |v.mem| == BLOCK_SIZE * |v.occ|
  {
  }

  /** Copies the next part of the buffer behind the descriptor's offset. */
  method StorePart(d: Desc, f: File, part: seq<byte>, ghost v: FileV, ghost k: Cursor)
    requires FileOk(f, v) && DescOk(d, f, k) && 0 <= k.at < |f.blocks| && 0 <= k.offset <= BLOCK_SIZE - |part|
    modifies d`offset, d.currentBlock`occupied, f.blocks[k.at].memory
    ensures |f.blocks| == |v.occ| && |v.mem| == BLOCK_SIZE * |v.occ|
    ensures FileOk(f, Stored(v, k.at, k.offset, part)) && DescOk(d, f, k.(offset := k.offset + |part|))
  {
    FileOkCounts(f, v);
    hide FileOk;
    StoreChunk(f, d.currentBlock, d.offset, part, k.at, v);
    d.offset := d.offset + |part|;
  }

  method ToNextBlock(d: Desc, f: File, ghost v: FileV, ghost k: Cursor)
    requires FileOk(f, v) && DescOk(d, f, k) && 0 <= k.at < |f.blocks|
    modifies d`currentBlock, d`currentBlockIndex, d`offset
    ensures DescOk(d, f, Hop(k, |v.occ|))
  {
    assert LinkOk(f.blocks[k.at], f.blocks, k.at);
    d.currentBlock := d.currentBlock.next;
    d.currentBlockIndex := d.currentBlockIndex + 1;
    d.offset := 0;
  }

  lemma DescOkFacts(d: Desc, f: File, k: Cursor)
    requires DescOk(d, f, k) && -1 <= k.at < |f.blocks|
    ensures d.offset == k.offset && (d.currentBlock == null <==> k.at < 0)
    ensures k.at >= 0 ==> d.currentBlock == f.blocks[k.at]
  {
  }

  /** Heap and model after `written` bytes. */
  ghost predicate Writing(d: Desc, f: File, v: FileV, c: Cursor, buf: seq<byte>, written: nat, g: FileV, k: Cursor)
    reads d, f, f.blockSet, f.memorySet
  {
    Progress(v, c, buf, written, g, k) && FileOk(f, g) && DescOk(d, f, k)
  }

  lemma WritingFacts(d: Desc, f: File, v: FileV, c: Cursor, buf: seq<byte>, written: nat, g: FileV, k: Cursor)
    requires Writing(d, f, v, c, buf, written, g, k)
    ensures g == WriteFile(v, Pos(c), buf[..written])
    ensures f.blocksCount == |f.blocks| == |g.occ| <= MAX_BLOCKS && -1 <= k.at < |g.occ| && 0 <= k.offset <= BLOCK_SIZE
    ensures d.offset == k.offset && (d.currentBlock == null <==> k.at < 0)
  {
    hide WriteFile;
  }

  /** The block is full: on to the next. */
  method PassBlock(d: Desc, f: File, buf: seq<byte>, written: nat, ghost v: FileV, ghost c: Cursor, ghost g: FileV, ghost k: Cursor)
    requires written < |buf| && Writing(d, f, v, c, buf, written, g, k) && k.at >= 0 && k.offset == BLOCK_SIZE
    modifies d`currentBlock, d`currentBlockIndex, d`offset
    ensures Writing(d, f, v, c, buf, written, g, Hop(k, |g.occ|))
  {
    WritingFacts(d, f, v, c, buf, written, g, k);
    ProgressHop(v, c, buf, written, g, k);
    ToNextBlock(d, f, g, k);
    hide Progress, FileOk, DescOk;
  }

  /** The next part of the buffer goes into the descriptor's block, or into a new one. */
  method FillBlock(d: Desc, f: File, buf: seq<byte>, written: nat, ghost v: FileV, ghost c: Cursor, ghost g: FileV, ghost k: Cursor)
    returns (written': nat, ghost g': FileV, ghost k': Cursor)
    requires written < |buf| && Writing(d, f, v, c, buf, written, g, k)
    requires if k.at < 0 then |g.occ| < MAX_BLOCKS else k.offset < BLOCK_SIZE
    modifies d`currentBlock, d`currentBlockIndex, d`offset
    modifies f`blockList, f`lastBlock, f`blocksCount, f`blocks, f`blockSet, f`memorySet, f.blockSet, f.memorySet
    ensures written < written' <= |buf| && Writing(d, f, v, c, buf, written', g', k')
    ensures old(f.blocks) <= f.blocks && fresh(f.blockSet - old(f.blockSet)) && fresh(f.memorySet - old(f.memorySet))
  {
    WritingFacts(d, f, v, c, buf, written, g, k);
    assert Progress(v, c, buf, written, g, k) && 0 <= OnRoom(g, k).offset < BLOCK_SIZE;
    TakeBlock(d, f, g, k);
    hide Progress, FileOk, DescOk, Writing;
    written', g', k' := FillTaken(d, f, buf, written, v, c, g, k);
  }

  /** As FillBlock, once the descriptor is on the block. */
  method FillTaken(d: Desc, f: File, buf: seq<byte>, written: nat, ghost v: FileV, ghost c: Cursor, ghost g: FileV, ghost k: Cursor)
    returns (written': nat, ghost g': FileV, ghost k': Cursor)
    requires written < |buf| && Progress(v, c, buf, written, g, k) && (k.at < 0 ==> |g.occ| < MAX_BLOCKS)
    requires FileOk(f, Roomy(g, k)) && DescOk(d, f, OnRoom(g, k)) && 0 <= OnRoom(g, k).at < |f.blocks|
    requires 0 <= OnRoom(g, k).offset < BLOCK_SIZE && d.currentBlock != null && InSets(d.currentBlock, f.blockSet, f.memorySet)
    modifies d`offset, d.currentBlock`occupied, d.currentBlock.memory
    ensures written < written' <= |buf| && Writing(d, f, v, c, buf, written', g', k')
  {
    hide *;
    ghost var h, l := Roomy(g, k), OnRoom(g, k);
    DescOkFacts(d, f, l);
    ChunkFits(|buf|, written, l.offset);
    var chunk := Min(BLOCK_SIZE - d.offset, |buf| - written);
    var part := buf[written..written + chunk];
    ProgressStore(v, c, buf, written, g, k, chunk);
    StorePart(d, f, part, h, l);
    written', g', k' := written + chunk, Stored(h, l.at, l.offset, part), l.(offset := l.offset + chunk);
    WritingIs(d, f, v, c, buf, written', g', k');
  }

  lemma ChunkFits(size: nat, written: nat, offset: int)
    requires written < size && 0 <= offset < BLOCK_SIZE
    ensures 0 < Min(BLOCK_SIZE - offset, size - written) <= size - written
    ensures offset + Min(BLOCK_SIZE - offset, size - written) <= BLOCK_SIZE
  {
  }

  lemma WritingIs(d: Desc, f: File, v: FileV, c: Cursor, buf: seq<byte>, written: nat, g: FileV, k: Cursor)
    requires Progress(v, c, buf, written, g, k) && FileOk(f, g) && DescOk(d, f, k)
    ensures Writing(d, f, v, c, buf, written, g, k)
  {
  }

  /** One round of the loop, when there is a block or room for one. */
  method WriteRound(d: Desc, f: File, buf: seq<byte>, written: nat, ghost v: FileV, ghost c: Cursor, ghost g: FileV, ghost k: Cursor)
    returns (written': nat, ghost g': FileV, ghost k': Cursor)
    requires written < |buf| && Writing(d, f, v, c, buf, written, g, k) && (k.at < 0 ==> |g.occ| < MAX_BLOCKS)
    modifies d`currentBlock, d`currentBlockIndex, d`offset
    modifies f`blockList, f`lastBlock, f`blocksCount, f`blocks, f`blockSet, f`memorySet, f.blockSet, f.memorySet
    ensures written <= written' <= |buf| && Writing(d, f, v, c, buf, written', g', k')
    ensures written' == written ==> k.at >= 0 && k.offset == BLOCK_SIZE && k'.offset == 0
    ensures old(f.blocks) <= f.blocks && fresh(f.blockSet - old(f.blockSet)) && fresh(f.memorySet - old(f.memorySet))
  {
    WritingFacts(d, f, v, c, buf, written, g, k);
    hide Writing;
    if d.currentBlock != null && BLOCK_SIZE - d.offset <= 0 {
      PassBlock(d, f, buf, written, v, c, g, k);
      written', g', k' := written, g, Hop(k, |g.occ|);
    } else {
      written', g', k' := FillBlock(d, f, buf, written, v, c, g, k);
    }
  }

  /** The whole effect of the loop of ufs_write. */
  ghost predicate Wrote(d: Desc, f: File, v: FileV, c: Cursor, buf: seq<byte>, result: int)
    reads d, f, f.blockSet, f.memorySet
  {
    && |v.mem| == BLOCK_SIZE * |v.occ| && 0 <= Pos(c) <= |v.mem| && 0 <= Room(Pos(c), |buf|) <= |buf|
    && result == (if Room(Pos(c), |buf|) < |buf| then -1 else |buf|)
    && FileOk(f, WriteFile(v, Pos(c), buf[..Room(Pos(c), |buf|)]))
    && DescOk(d, f, WriteCursor(c, |v.occ|, |buf|))
  }

  method WriteBlocks(d: Desc, f: File, buf: seq<byte>, ghost v: FileV, ghost c: Cursor)
    returns (written: int)
    requires FileOk(f, v) && DescOk(d, f, c)
    requires FileInv(v) && CursorOk(c, v) && (c.at < 0 ==> v.occ == [])
    modifies d`currentBlock, d`currentBlockIndex, d`offset
    modifies f`blockList, f`lastBlock, f`blocksCount, f`blocks, f`blockSet, f`memorySet, f.blockSet, f.memorySet
    ensures Wrote(d, f, v, c, buf, written)
    ensures old(f.blocks) <= f.blocks && fresh(f.blockSet - old(f.blockSet)) && fresh(f.memorySet - old(f.memorySet))
  {
    written := 0;
    ghost var g, k := v, c;
    ProgressStart(v, c, buf);
    assert Writing(d, f, v, c, buf, written, g, k);
    hide Writing, Wrote, Progress, FileOk, DescOk, WriteFile, WriteCursor, FileInv, CursorOk;
    while written < |buf|
      invariant 0 <= written <= |buf| && Writing(d, f, v, c, buf, written, g, k)
      invariant old(f.blocks) <= f.blocks && fresh(f.blockSet - old(f.blockSet)) && fresh(f.memorySet - old(f.memorySet))
      decreases |buf| - written, if k.at >= 0 && k.offset == BLOCK_SIZE then 1 else 0
    {
      WritingFacts(d, f, v, c, buf, written, g, k);
      if d.currentBlock == null && f.blocksCount >= MAX_FILE_SIZE / BLOCK_SIZE {
        WritingFull(d, f, v, c, buf, written, g, k);
        written := -1;
        return;
      }
      written, g, k := WriteRound(d, f, buf, written, v, c, g, k);
    }
    WritingDone(d, f, v, c, buf, g, k);
  }

  lemma WritingFull(d: Desc, f: File, v: FileV, c: Cursor, buf: seq<byte>, written: nat, g: FileV, k: Cursor)
    requires Writing(d, f, v, c, buf, written, g, k) && written < |buf| && k.at < 0 && |g.occ| == MAX_BLOCKS
    ensures Wrote(d, f, v, c, buf, -1)
  {
    hide FileOk, DescOk, WriteFile, WriteCursor;
    ProgressFull(v, c, buf, written, g, k);
  }

  lemma WritingDone(d: Desc, f: File, v: FileV, c: Cursor, buf: seq<byte>, g: FileV, k: Cursor)
    requires Writing(d, f, v, c, buf, |buf|, g, k)
    ensures Wrote(d, f, v, c, buf, |buf|)
  {
    hide FileOk, DescOk, WriteFile, WriteCursor;
    ProgressDone(v, c, buf, g, k);
  }

  /** One round of the loop of ufs_write: h is the file g after the block for the chunk was made. */
  lemma StoredStep(v: FileV, g: FileV, h: FileV, p: nat, buf: seq<byte>, written: nat, at: nat, offset: nat, chunk: nat)
    requires |v.mem| == BLOCK_SIZE * |v.occ| && p <= |v.mem| && written + chunk <= |buf| && chunk > 0
    requires g == WriteFile(v, p, buf[..written]) && |g.mem| == BLOCK_SIZE * |g.occ|
    requires h == g || (h == Grow(g, |g.occ| + 1) && p + written == |g.mem|)
    requires at < |h.occ| && |h.mem| == BLOCK_SIZE * |h.occ| && p + written == BLOCK_SIZE * at + offset && offset + chunk <= BLOCK_SIZE
    ensures Stored(h, at, offset, buf[written..written + chunk]) == WriteFile(v, p, buf[..written + chunk])
  {
    hide WriteFile, Stored, Grow;
    var part := buf[written..written + chunk];
    StoredIsWrite(h, at, offset, part);
    WriteAppend(v, p, buf[..written], part);
    assert buf[..written] + part == buf[..written + chunk];
    if h != g { GrowWrite(g, p + written, part); }
  }

  lemma WriteNothing(v: FileV, pos: nat)
    requires |v.mem| == BLOCK_SIZE * |v.occ| && pos <= |v.mem|
    ensures WriteFile(v, pos, []) == v
  {
    assert Splice(v.mem, pos, []) == v.mem;
    assert Raise(v.occ, pos, pos) == v.occ;
  }

  // ---------------------------------------------------------------- the loop of ufs_read

  /** Descriptor c of file v has read the bytes `out` of the n asked for, and is now k. */
  ghost predicate Reading(v: FileV, c: Cursor, n: nat, out: seq<byte>, k: Cursor) {
    && Shaped(v) && CursorOk(c, v) && (c.at < 0 ==> v.occ == [])
    && |out| <= n && 0 <= Pos(c) && Pos(c) + |out| <= |v.mem| && out == v.mem[Pos(c)..Pos(c) + |out|]
    && k.file == c.file && k.permissions == c.permissions && -1 <= k.at < |v.occ|
    && (c.at < 0 ==> k == c)
    && (c.at >= 0 ==>
          if k.at < 0 then k == WalkedOff(c, |v.occ|) && Pos(c) + |out| == BLOCK_SIZE * |v.occ| == End(v.occ, c.at)
          else && Pos(c) + |out| == BLOCK_SIZE * k.at + k.offset && 0 <= k.offset <= v.occ[k.at]
               && End(v.occ, k.at) == End(v.occ, c.at) && k.index - k.at == c.index - c.at)
    && (0 < |out| == n ==> k.at >= 0 && k.offset > 0)
    && (n == 0 ==> k == c)
  }

  lemma ReadingStart(v: FileV, c: Cursor, n: nat)
    requires FileInv(v) && CursorOk(c, v) && (c.at < 0 ==> v.occ == [])
    ensures Reading(v, c, n, [], c)
  {
  }

  lemma ReadingHop(v: FileV, c: Cursor, n: nat, out: seq<byte>, k: Cursor)
    requires Reading(v, c, n, out, k) && |out| < n && k.at >= 0 && k.offset == BLOCK_SIZE
    ensures Reading(v, c, n, out, Hop(k, |v.occ|))
  {
    assert End(v.occ, k.at) == End(v.occ, k.at + 1);
  }

  lemma ReadingFacts(v: FileV, c: Cursor, n: nat, out: seq<byte>, k: Cursor)
    requires Reading(v, c, n, out, k)
    ensures |out| <= n && -1 <= k.at < |v.occ|
    ensures 0 <= Pos(c) && Pos(c) + |out| <= |v.mem| && out == v.mem[Pos(c)..Pos(c) + |out|]
    ensures k.at >= 0 ==> 0 <= k.offset <= v.occ[k.at] <= BLOCK_SIZE
  {
  }

  lemma SliceOfBlock(mem: seq<byte>, at: nat, offset: nat, chunk: nat)
    requires BLOCK_SIZE * (at + 1) <= |mem| && offset + chunk <= BLOCK_SIZE
    ensures mem[BLOCK_SIZE * at..BLOCK_SIZE * (at + 1)][offset..offset + chunk] ==
            mem[BLOCK_SIZE * at + offset..BLOCK_SIZE * at + offset + chunk]
  {
    var x := mem[BLOCK_SIZE * at..BLOCK_SIZE * (at + 1)][offset..offset + chunk];
    var y := mem[BLOCK_SIZE * at + offset..BLOCK_SIZE * at + offset + chunk];
    assert |x| == |y| && forall i :: 0 <= i < |x| ==> x[i] == y[i];
  }

  lemma ReadingTake(v: FileV, c: Cursor, n: nat, out: seq<byte>, k: Cursor, chunk: nat)
    requires Reading(v, c, n, out, k) && k.at >= 0 && 0 < chunk <= n - |out| && k.offset + chunk <= v.occ[k.at]
    ensures BLOCK_SIZE * k.at + k.offset + chunk <= |v.mem|
    ensures Reading(v, c, n, out + v.mem[BLOCK_SIZE * k.at + k.offset..BLOCK_SIZE * k.at + k.offset + chunk], k.(offset := k.offset + chunk))
  {
    assert c.at >= 0;
  }

  /** The loop is over: all bytes are read, there is no block, or the block holds no more. */
  lemma ReadingDone(v: FileV, c: Cursor, n: nat, out: seq<byte>, k: Cursor)
    requires Reading(v, c, n, out, k)
    requires |out| == n || k.at < 0 || (k.offset == v.occ[k.at] < BLOCK_SIZE)
    ensures k == ReadCursor(c, v.occ, n) && Pos(c) + |out| == ReadEnd(c, v.occ, n)
  {
    if k.at >= 0 { EndBounds(v.occ, k.at); }
  }

  /** Copies bytes of the descriptor's block into the caller's buffer. */
  method TakePart(d: Desc, f: File, chunk: nat, ghost v: FileV, ghost k: Cursor) returns (part: seq<byte>)
    requires FileOk(f, v) && DescOk(d, f, k) && 0 <= k.at < |f.blocks| && 0 <= k.offset <= BLOCK_SIZE - chunk
    modifies d`offset
    ensures DescOk(d, f, k.(offset := k.offset + chunk))
    ensures BLOCK_SIZE * k.at + k.offset + chunk <= |v.mem|
    ensures part == v.mem[BLOCK_SIZE * k.at + k.offset..BLOCK_SIZE * k.at + k.offset + chunk]
  {
    InFile(f, v, k.at);
    SliceOfBlock(v.mem, k.at, k.offset, chunk);
    part := d.currentBlock.memory[..][d.offset..d.offset + chunk];
    d.offset := d.offset + chunk;
  }

  lemma OccupiedAt(d: Desc, f: File, v: FileV, k: Cursor)
    requires FileOk(f, v) && DescOk(d, f, k) && -1 <= k.at < |f.blocks|
    ensures d.offset == k.offset && (d.currentBlock == null <==> k.at < 0) && |f.blocks| == |v.occ|
    ensures k.at >= 0 ==> d.currentBlock.occupied == v.occ[k.at]
  {
    if k.at >= 0 { InFile(f, v, k.at); }
  }

  method ReadBlocks(d: Desc, f: File, n: nat, ghost v: FileV, ghost c: Cursor) returns (out: seq<byte>)
    requires FileOk(f, v) && DescOk(d, f, c) && FileInv(v) && CursorOk(c, v) && (c.at < 0 ==> v.occ == [])
    modifies d`currentBlock, d`currentBlockIndex, d`offset
    ensures 0 <= Pos(c) <= ReadEnd(c, v.occ, n) <= |v.mem| && out == v.mem[Pos(c)..ReadEnd(c, v.occ, n)]
    ensures DescOk(d, f, ReadCursor(c, v.occ, n))
  {
    hide FileOk, DescOk, FileInv, CursorOk, ReadCursor, ReadEnd, Reading;
    out := [];
    ghost var k := c;
    FileOkCounts(f, v);
    ReadingStart(v, c, n);
    ReadingFacts(v, c, n, out, k);
    OccupiedAt(d, f, v, k);
    while |out| < n && d.currentBlock != null
      invariant Reading(v, c, n, out, k) && DescOk(d, f, k) && -1 <= k.at < |f.blocks|
      invariant k.at < 0 ==> d.currentBlock == null
      invariant d.currentBlock == null ==> k.at < 0
      decreases n - |out|, if k.at < 0 then 0 else |v.occ| - k.at
    {
      ReadingFacts(v, c, n, out, k);
      OccupiedAt(d, f, v, k);
      var left := BLOCK_SIZE - d.offset;
      if left <= 0 {
        ReadingHop(v, c, n, out, k);
        ToNextBlock(d, f, v, k);
        k := Hop(k, |v.occ|);
      } else {
        left := Min(left, n - |out|);
        left := Min(left, d.currentBlock.occupied - d.offset);
        if left <= 0 {
          break;
        }
        ReadingTake(v, c, n, out, k, left);
        var part := TakePart(d, f, left, v, k);
        out := out + part;
        k := k.(offset := k.offset + left);
      }
      OccupiedAt(d, f, v, k);
    }
    ReadingFacts(v, c, n, out, k);
    ReadingDone(v, c, n, out, k);
  }

  // ---------------------------------------------------------------- the block list of ufs_resize and free_file

  const RETURN_NEXT := true
  const RETURN_PREV := false

  /** The neighbour whose link free_block clears. */
  ghost function Neighbour(b: Block, returnNext: bool): set<Block>
    reads b
  {
    var x := if returnNext then b.next else b.prev;
    if x == null then {} else {x}
  }

  method FreeBlock(b: Block, returnNext: bool) returns (r: Block?)
    modifies b`freed
    modifies (if returnNext then Neighbour(b, true) else {})`prev, (if returnNext then {} else Neighbour(b, false))`next
    ensures b.freed && r == if returnNext then old(b.next) else old(b.prev)
    ensures r != null ==> if returnNext then r.prev == null else r.next == null
  {
    r := if returnNext then b.next else b.prev;
    b.freed := true;
    if r != null {
      if returnNext { r.prev := null; } else { r.next := null; }
    }
  }

  /** The first `count` blocks of v. */
  function CutTo(v: FileV, count: nat): FileV
    requires |v.mem| == BLOCK_SIZE * |v.occ| && count <= |v.occ|
  {
    v.(mem := v.mem[..BLOCK_SIZE * count], occ := v.occ[..count])
  }

  lemma CutSlices(v: FileV, count: nat, i: nat)
    requires |v.mem| == BLOCK_SIZE * |v.occ| && i < count <= |v.occ|
    ensures CutTo(v, count).mem[BLOCK_SIZE * i..BLOCK_SIZE * (i + 1)] == v.mem[BLOCK_SIZE * i..BLOCK_SIZE * (i + 1)]
  {
    TakeSlice(v.mem, BLOCK_SIZE * count, BLOCK_SIZE * i, BLOCK_SIZE * (i + 1));
  }

  lemma TakeSlice(s: seq<byte>, n: nat, i: nat, j: nat)
    requires i <= j <= n <= |s|
    ensures s[..n][i..j] == s[i..j]
  {
  }

  /** Frees the last of several blocks. */
  method DropLast(f: File, ghost v: FileV)
    requires FileOk(f, v) && |f.blocks| >= 2
    modifies f`lastBlock, f`blocksCount, f`blocks, f.blockSet`freed, f.blockSet`next, f.blockSet`prev
    ensures |v.mem| == BLOCK_SIZE * |v.occ| && |v.occ| == |old(f.blocks)|
    ensures FileOk(f, CutTo(v, |v.occ| - 1)) && f.blocks == old(f.blocks)[..|v.occ| - 1]
    ensures old(f.lastBlock) != null && old(f.lastBlock).freed
  {
    ghost var n := |f.blocks| - 1;
    InFile(f, v, n);
    InFile(f, v, n - 1);
    assert Apart(f.blocks[n - 1], f.blocks[n]);
    f.lastBlock := FreeBlock(f.lastBlock, RETURN_PREV);
    f.blocksCount := f.blocksCount - 1;
    f.blocks := f.blocks[..n];
    assert Linked(f) by {
      forall i, j | 0 <= i < j < n ensures Apart(f.blocks[i], f.blocks[j]) {
        assert old(Apart(f.blocks[i], f.blocks[j]));
      }
      forall i | 0 <= i < n ensures InSets(f.blocks[i], f.blockSet, f.memorySet) && LinkOk(f.blocks[i], f.blocks, i) {
        assert old(InSets(f.blocks[i], f.blockSet, f.memorySet) && LinkOk(f.blocks[i], f.blocks, i));
        assert old(Apart(f.blocks[i], f.blocks[n]));
        if i < n - 1 { assert old(Apart(f.blocks[i], f.blocks[n - 1])); }
      }
    }
    forall i | 0 <= i < n ensures InSets(f.blocks[i], f.blockSet, f.memorySet) && DataOk(f.blocks[i], i, CutTo(v, n)) {
      assert old(InSets(f.blocks[i], f.blockSet, f.memorySet) && DataOk(f.blocks[i], i, v));
      CutSlices(v, n, i);
    }
  }

  /** Frees blocks from the end, but never the first one, and sets the bytes of the last one left. */
  method ShrinkBlocks(f: File, newCount: nat, last: nat, ghost v: FileV)
    requires FileOk(f, v) && newCount < |f.blocks|
    modifies f`lastBlock, f`blocksCount, f`blocks, f.blockSet
    ensures |v.mem| == BLOCK_SIZE * |v.occ| && |v.occ| == |old(f.blocks)|
    ensures var kept := Max(1, newCount);
            && f.blocks == old(f.blocks)[..kept]
            && FileOk(f, v.(mem := v.mem[..BLOCK_SIZE * kept], occ := v.occ[..kept - 1] + [last]))
  {
    var initial := f.blocksCount;
    FileOkCounts(f, v);
    ghost var n := |f.blocks|;
    assert CutTo(v, n) == v by { assert v.mem[..BLOCK_SIZE * n] == v.mem && v.occ[..n] == v.occ; }
    assert f.blocks[..n] == f.blocks;
    hide FileOk;
    for i := newCount to initial
      invariant 1 <= |f.blocks| == Max(1, n - (i - newCount)) <= n
      invariant FileOk(f, CutTo(v, |f.blocks|)) && f.blocks == old(f.blocks)[..|f.blocks|]
    {
      ghost var m := |f.blocks|;
      InFile(f, CutTo(v, m), m - 1);
      LastBlockIs(f, CutTo(v, m));
      if f.lastBlock.prev != null {
        DropLast(f, CutTo(v, m));
        CutCut(v, m, m - 1);
        assert f.blocks == old(f.blocks)[..m - 1];
      }
    }
    SetLast(f, last, CutTo(v, |f.blocks|));
    CutThenSet(v, |f.blocks|, last);
  }

  lemma LastBlockIs(f: File, v: FileV)
    requires FileOk(f, v)
    ensures f.lastBlock == BlockAt(f.blocks, |f.blocks| - 1) && f.blockList == BlockAt(f.blocks, 0)
  {
  }

  lemma CutCut(v: FileV, m: nat, n: nat)
    requires |v.mem| == BLOCK_SIZE * |v.occ| && n <= m <= |v.occ|
    ensures CutTo(CutTo(v, m), n) == CutTo(v, n)
  {
    assert v.mem[..BLOCK_SIZE * m][..BLOCK_SIZE * n] == v.mem[..BLOCK_SIZE * n];
    assert v.occ[..m][..n] == v.occ[..n];
  }

  lemma CutThenSet(v: FileV, kept: nat, last: nat)
    requires |v.mem| == BLOCK_SIZE * |v.occ| && 1 <= kept <= |v.occ|
    ensures var cut := CutTo(v, kept);
            cut.(occ := cut.occ[kept - 1 := last]) == v.(mem := v.mem[..BLOCK_SIZE * kept], occ := v.occ[..kept - 1] + [last])
  {
    assert v.occ[..kept][kept - 1 := last] == v.occ[..kept - 1] + [last];
  }

  method SetLast(f: File, last: nat, ghost v: FileV)
    requires FileOk(f, v) && |f.blocks| >= 1
    modifies f.blockSet`occupied
    ensures |v.occ| == |f.blocks| && FileOk(f, v.(occ := v.occ[|v.occ| - 1 := last]))
  {
    ghost var n := |f.blocks|;
    InFile(f, v, n - 1);
    f.lastBlock.occupied := last;
    ghost var g := v.(occ := v.occ[n - 1 := last]);
    forall i | 0 <= i < n ensures InSets(f.blocks[i], f.blockSet, f.memorySet) && DataOk(f.blocks[i], i, g) {
      assert InSets(f.blocks[i], f.blockSet, f.memorySet);
      assert old(DataOk(f.blocks[i], i, v));
      if i < n - 1 { assert Apart(f.blocks[i], f.blocks[n - 1]); }
    }
  }

  method GrowBlocks(f: File, newCount: nat, ghost v: FileV)
    requires FileOk(f, v) && newCount >= |f.blocks|
    modifies f`blockList, f`lastBlock, f`blocksCount, f`blocks, f`blockSet, f`memorySet, f.blockSet
    ensures FileOk(f, Grow(v, newCount)) && old(f.blocks) <= f.blocks
    ensures fresh(f.blockSet - old(f.blockSet)) && fresh(f.memorySet - old(f.memorySet))
  {
    FileOkCounts(f, v);
    hide FileOk;
    for i := f.blocksCount to newCount
      invariant FileOk(f, Grow(v, i)) && |f.blocks| == i && old(f.blocks) <= f.blocks
      invariant fresh(f.blockSet - old(f.blockSet)) && fresh(f.memorySet - old(f.memorySet))
    {
      var _ := AddBlock(f, Grow(v, i));
      GrowGrow(v, i, i + 1);
      assert |Grow(v, i).occ| == i;
    }
  }

  /** free_file: frees every block of the list, first to last. */
  method FreeFileBlocks(f: File, ghost v: FileV)
    requires FileOk(f, v)
    modifies f`freed, f.blockSet
    ensures f.freed && forall b :: b in old(f.blocks) ==> b.freed
  {
    var b := f.blockList;
    ghost var i := 0;
    f.freed := true;
    ghost var blocks := f.blocks;
    forall k | 0 <= k < |blocks| ensures blocks[k] in f.blockSet && blocks[k].next == BlockAt(blocks, k + 1) {
      assert InSets(f.blocks[k], f.blockSet, f.memorySet) && LinkOk(f.blocks[k], f.blocks, k);
    }
    forall j, k | 0 <= j < k < |blocks| ensures blocks[j] != blocks[k] { assert Apart(f.blocks[j], f.blocks[k]); }
    while b != null
      invariant 0 <= i <= |blocks| && b == BlockAt(blocks, i) && (b == null ==> i == |blocks|)
      invariant f.blocks == blocks && f.freed
      invariant forall k {:trigger blocks[k].freed} :: 0 <= k < i ==> blocks[k].freed
      invariant forall k {:trigger blocks[k].next} :: i <= k < |blocks| ==> blocks[k].next == BlockAt(blocks, k + 1)
      decreases |blocks| - i
    {
      b := FreeBlock(b, RETURN_NEXT);
      i := i + 1;
    }
  }

  /** Everything but the bytes may change without the blocks noticing. */
  lemma SameBlocks(f: File, v: FileV, v': FileV)
    requires Linked(f) && Holds(f, v) && v'.mem == v.mem && v'.occ == v.occ
    requires !f.freed && !v'.freed && f.name == v'.name && f.refs == v'.refs && f.isRemoved == v'.removed
    ensures FileOk(f, v')
  {
    forall i | 0 <= i < |f.blocks| ensures InSets(f.blocks[i], f.blockSet, f.memorySet) && DataOk(f.blocks[i], i, v') {
      assert DataOk(f.blocks[i], i, v);
    }
  }
}
