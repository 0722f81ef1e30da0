/** The pool of file names the reference coroutines take their work from. */
module FilePool {

  class FileNode {
    const fileName: string
    const prev: FileNode?

    constructor (fileName: string, prev: FileNode?)
      ensures this.fileName == fileName && this.prev == prev
    {
      this.fileName, this.prev := fileName, prev;
    }
  }

  datatype Polled = Null | Name(fileName: string)

  /** What a poll takes: the file appended last. */
  function Poll(files: seq<string>): (Polled, seq<string>) {
    if files == [] then (Null, []) else (Name(files[|files| - 1]), files[..|files| - 1])
  }

  class Pool {
    var head: FileNode?
    var size: nat
    ghost var files: seq<string>      // in the order they were appended

    ghost predicate Valid()
      reads this
    {
      size == |files| && Chain(head, files)
    }

    /** new_files_pool */
    constructor ()
      ensures Valid() && files == []
    {
      head, size, files := null, 0, [];
    }

    /** pool_append_file */
    method Append(name: string)
      requires Valid()
      modifies this
      ensures Valid() && files == old(files) + [name]
    {
      var newHead := new FileNode(name, head);
      head := newHead;
      size := size + 1;
      files := files + [name];
    }

    /** poll_next_file */
    method PollNext() returns (r: Polled)
      requires Valid()
      modifies this
      ensures Valid() && (r, files) == Poll(old(files))
    {
      if size == 0 {
        return Null;
      }
      r := Name(head.fileName);
      head := head.prev;
      size := size - 1;
      files := files[..|files| - 1];
    }

    /** new_iterator and peek_next_file, as merge_all_files uses them: every name once, the last one first. */
    method List() returns (names: seq<string>)
      requires Valid()
      ensures |names| == |files| && forall i :: 0 <= i < |names| ==> names[i] == files[|files| - 1 - i]
    {
      names := [];
      var node := head;
      ghost var left := files;
      while node != null
        invariant Chain(node, left) && left <= files && |names| + |left| == |files|
        invariant forall i :: 0 <= i < |names| ==> names[i] == files[|files| - 1 - i]
        decreases |left|
      {
        names := names + [node.fileName];
        node := node.prev;
        left := left[..|left| - 1];
      }
    }
  }

  /** The names from a node on, the last appended first. */
  ghost predicate Chain(node: FileNode?, files: seq<string>) {
    if files == [] then node == null
    else node != null && node.fileName == files[|files| - 1] && Chain(node.prev, files[..|files| - 1])
  }

  datatype Dealt = Dealt(coro: nat, fileName: string)

  /** Coroutines poll in any order; NULL ends the one that gets it. */
  function Deal(files: seq<string>, pollers: seq<nat>): seq<Dealt>
    decreases |pollers|
  {
    if pollers == [] || files == [] then []
    else [Dealt(pollers[0], files[|files| - 1])] + Deal(files[..|files| - 1], pollers[1..])
  }

  function Names(dealt: seq<Dealt>): (r: seq<string>)
    ensures |r| == |dealt|
  {
    if dealt == [] then [] else [dealt[0].fileName] + Names(dealt[1..])
  }

  /** What is left after that many polls. */
  function LeftAfter(files: seq<string>, polls: nat): seq<string> {
    if polls >= |files| then [] else files[..|files| - polls]
  }

  /** Whoever polls when, each entry of the pool goes to one coroutine or is still there. */
  lemma {:induction false} EachFileDealtOnce(files: seq<string>, pollers: seq<nat>)
    ensures multiset(Names(Deal(files, pollers))) + multiset(LeftAfter(files, |pollers|)) == multiset(files)
    decreases |pollers|
  {
    hide Deal, Names;
    if files == [] {
      DealNothing(files, pollers);
    } else if pollers == [] {
      DealNothing(files, pollers);
      assert files[..|files|] == files;
    } else {
      var last, rest := files[|files| - 1], files[..|files| - 1];
      EachFileDealtOnce(rest, pollers[1..]);
      DealStep(files, pollers);
      assert files == rest + [last];
    }
  }

  lemma DealNothing(files: seq<string>, pollers: seq<nat>)
    requires files == [] || pollers == []
    ensures Names(Deal(files, pollers)) == []
  {
  }

  lemma DealStep(files: seq<string>, pollers: seq<nat>)
    requires files != [] && pollers != []
    ensures var rest := files[..|files| - 1];
            && Names(Deal(files, pollers)) == [files[|files| - 1]] + Names(Deal(rest, pollers[1..]))
            && LeftAfter(rest, |pollers| - 1) == LeftAfter(files, |pollers|)
  {
    var dealt := Deal(files, pollers);
    assert dealt[1..] == Deal(files[..|files| - 1], pollers[1..]);
  }

  /** The polls on the pool itself: the list hands out what `Deal` says. */
  method PollAll(pool: Pool, pollers: seq<nat>) returns (dealt: seq<Dealt>)
    requires pool.Valid()
    modifies pool
    ensures pool.Valid() && dealt == Deal(old(pool.files), pollers) && pool.files == LeftAfter(old(pool.files), |pollers|)
  {
    dealt := [];
    var i := 0;
    while i < |pollers|
      invariant i <= |pollers| && pool.Valid()
      invariant dealt + Deal(pool.files, pollers[i..]) == Deal(old(pool.files), pollers)
      invariant LeftAfter(pool.files, |pollers| - i) == LeftAfter(old(pool.files), |pollers|)
    {
      ghost var was := pool.files;
      var r := pool.PollNext();
      if r.Null? {
        return;
      }
      assert pollers[i..][1..] == pollers[i + 1..];
      DealStep(was, pollers[i..]);
      ghost var rest := Deal(pool.files, pollers[i + 1..]);
      assert Deal(was, pollers[i..]) == [Dealt(pollers[i], r.fileName)] + rest;
      dealt := dealt + [Dealt(pollers[i], r.fileName)];
      i := i + 1;
    }
    assert LeftAfter(pool.files, 0) == pool.files;
  }
}
