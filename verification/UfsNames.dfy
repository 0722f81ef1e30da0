/** What callers see of names and descriptors: opening, deleting and creating again. */
module UfsNames {
  import opened UfsModel
  import opened UfsInvariant

  ghost predicate Exists(fs: Fs, name: string) {
    exists id :: id in fs.listed && id < |fs.files| && fs.files[id].name == name
  }

  lemma FindExists(fs: Fs, name: string)
    requires ListedOk(fs)
    ensures Find(fs, name, 0) < |fs.listed| <==> Exists(fs, name)
    ensures forall id :: id in fs.listed && fs.files[id].name == name ==> Find(fs, name, 0) < |fs.listed| && id == fs.listed[Find(fs, name, 0)]
  {
    var k := Find(fs, name, 0);
    if k < |fs.listed| {
      assert fs.listed[k] in fs.listed;
    }
    forall id | id in fs.listed && fs.files[id].name == name ensures k < |fs.listed| && id == fs.listed[k] {
      var i :| 0 <= i < |fs.listed| && fs.listed[i] == id;
    }
  }

  /** The first of the free slots taken, at the start of file id; all others are as before. */
  ghost predicate NewSlot(fs: Fs, fs': Fs, fd: int, id: nat, permissions: int) {
    && 0 <= fd < |fs'.table| && |fs.table| <= |fs'.table| && (fd < |fs.table| ==> fs.table[fd].None?)
    && fs'.table[fd].Some? && fs'.table[fd].value.file == id && fs'.table[fd].value.permissions == permissions
    && Pos(fs'.table[fd].value) == 0
    && (forall i :: 0 <= i < fd && i < |fs.table| ==> fs.table[i].Some?)
    && (forall i :: 0 <= i < |fs.table| && i != fd ==> fs'.table[i] == fs.table[i])
    && (forall i :: |fs.table| <= i < |fs'.table| && i != fd ==> fs'.table[i].None?)
  }

  /** g is f with one more reference. */
  predicate OneMoreRef(f: FileV, g: FileV) { g == f.(refs := f.refs + 1) }

  lemma CreateGives(fs: Fs, id: nat, permissions: int)
    requires id < |fs.files| && FirstFree(Extended(fs), 0) < Capacity(fs)
    ensures var (fs', fd) := CreateDesc(fs, id, permissions);
            && NewSlot(fs, fs', fd, id, permissions) && fs'.listed == fs.listed
            && |fs'.files| == |fs.files| && OneMoreRef(fs.files[id], fs'.files[id])
            && forall j :: 0 <= j < |fs.files| && j != id ==> fs'.files[j] == fs.files[j]
  {
    assert forall i :: 0 <= i < |fs.table| ==> Extended(fs)[i] == fs.table[i];
  }

  /** A descriptor more, at the start of the file of that name. */
  ghost predicate OpensOld(fs: Fs, fs': Fs, fd: int, name: string, permissions: int) {
    exists id :: id in fs.listed && id < |fs.files| && fs.files[id].name == name && |fs'.files| == |fs.files|
              && NewSlot(fs, fs', fd, id, permissions) && OneMoreRef(fs.files[id], fs'.files[id])
              && fs'.error == NoErr && fs'.listed == fs.listed && forall j :: 0 <= j < |fs.files| && j != id ==> fs'.files[j] == fs.files[j]
  }

  /** A new empty file of that name, and a descriptor at its start. */
  ghost predicate OpensNew(fs: Fs, fs': Fs, fd: int, name: string, permissions: int) {
    && NewSlot(fs, fs', fd, |fs.files|, permissions) && fs'.listed == fs.listed + [|fs.files|]
    && fs'.error == NoErr && fs'.files == fs.files + [FileV(name, [], [], 1, false, false)]
  }

  lemma OpenOld(fs: Fs, name: string, flags: int)
    requires Inv(fs) && Exists(fs, name)
    ensures OpensOld(fs, Open(fs, name, flags).0, Open(fs, name, flags).1, name, Permissions(flags))
  {
    hide NewSlot, OneMoreRef, Permissions;
    FindExists(fs, name);
    FreeSlotExists(fs);
    var id := fs.listed[Find(fs, name, 0)];
    assert id in fs.listed;
    CreateGives(fs.(error := NoErr), id, Permissions(flags));
    NewSlotOf(fs.(error := NoErr), fs, Open(fs, name, flags).0, Open(fs, name, flags).1, id, Permissions(flags));
  }

  lemma NewSlotOf(fs: Fs, same: Fs, fs': Fs, fd: int, id: nat, permissions: int)
    requires NewSlot(fs, fs', fd, id, permissions) && same.table == fs.table
    ensures NewSlot(same, fs', fd, id, permissions)
  {
  }

  lemma OpenNew(fs: Fs, name: string, flags: int)
    requires Inv(fs) && !Exists(fs, name)
    ensures if flags % 2 == 1 then OpensNew(fs, Open(fs, name, flags).0, Open(fs, name, flags).1, name, Permissions(flags))
            else Open(fs, name, flags) == (fs.(error := NoFile), -1)
  {
    hide NewSlot, Permissions;
    FindExists(fs, name);
    FreeSlotExists(fs);
    if flags % 2 == 1 {
      var added := AddFile(fs, name).(error := NoErr);
      CreateGives(added, |fs.files|, Permissions(flags));
      NewSlotOf(added, fs, Open(fs, name, flags).0, Open(fs, name, flags).1, |fs.files|, Permissions(flags));
    }
  }

  /**
   ufs_open of an existing name adds a descriptor at the start of that file, of a new
   one with UFS_CREATE at the start of a new empty file; no file loses a byte. Otherwise
   it fails with NO_FILE and changes nothing else.
   */
  lemma OpenGives(fs: Fs, name: string, flags: int)
    requires Inv(fs)
    ensures var (fs', fd) := Open(fs, name, flags);
            if Exists(fs, name) then OpensOld(fs, fs', fd, name, Permissions(flags))
            else if flags % 2 == 1 then OpensNew(fs, fs', fd, name, Permissions(flags))
            else fd == -1 && fs' == fs.(error := NoFile)
  {
    hide *;
    if Exists(fs, name) { OpenOld(fs, name, flags); } else { OpenNew(fs, name, flags); }
  }

  /** ufs_delete succeeds on existing names, after which they do not exist; other names and all descriptors are as before. */
  lemma DeleteGives(fs: Fs, name: string)
    requires Inv(fs)
    ensures var (fs', r) := Delete(fs, name);
            && (if Exists(fs, name) then r == 0 && fs'.error == NoErr else r == -1 && fs' == fs.(error := NoFile))
            && !Exists(fs', name) && fs'.table == fs.table
            && (forall other :: other != name ==> (Exists(fs', other) <==> Exists(fs, other)))
            && |fs'.files| == |fs.files|
            && (forall id :: 0 <= id < |fs.files| && Refs(fs.table, id) > 0 ==> fs'.files[id].mem == fs.files[id].mem && fs'.files[id].occ == fs.files[id].occ)
  {
    var (fs', r) := Delete(fs, name);
    FindExists(fs, name);
    var k := Find(fs, name, 0);
    if k < |fs.listed| {
      DeletedListed(fs, k);
      forall other | other != name ensures Exists(fs', other) <==> Exists(fs, other) {
        forall id | id in fs.listed && id != fs.listed[k] ensures id in fs'.listed && fs'.files[id].name == fs.files[id].name {}
      }
    }
  }

  /**
   A name created again after its deletion is a new, empty file. Descriptors still open
   on the deleted one keep their positions in it and all its bytes.
   */
  lemma Recreate(fs: Fs, name: string, flags: int, fd: nat)
    requires Inv(fs) && flags % 2 == 1 && fd < |fs.table| && fs.table[fd].Some?
    ensures var fs1 := Delete(fs, name).0;
            Inv(fs1) &&
            var (fs2, fd2) := Open(fs1, name, flags);
            var c := fs.table[fd].value;
            && 0 <= fd2 < |fs2.table| && fd2 != fd && fs2.table[fd2].Some? && Pos(fs2.table[fd2].value) == 0
            && fs2.table[fd2].value.file == |fs.files| == |fs2.files| - 1 && fs2.files[|fs.files|].occ == []
            && c.file < |fs.files| && fs2.table[fd] == fs.table[fd]
            && fs2.files[c.file].mem == fs.files[c.file].mem && fs2.files[c.file].occ == fs.files[c.file].occ
            && !fs2.files[c.file].freed
  {
    DeleteInv(fs, name);
    DeleteGives(fs, name);
    OpenFileIsAlive(fs, fd);
    var fs1 := Delete(fs, name).0;
    OpenFileIsAlive(fs1, fd);
    OpenGives(fs1, name, flags);
  }

  /** ufs_close frees the slot and leaves other descriptors and all other files alone. */
  lemma CloseGives(fs: Fs, fd: int)
    requires Inv(fs) && fd != |fs.table| && !BadFd(fs, fd)
    ensures var (fs', r) := Close(fs, fd);
            var id := fs.table[fd].value.file;
            && r == 0 && fs'.error == NoErr && fs'.table == fs.table[fd := None] && fs'.listed == fs.listed && id < |fs.files| == |fs'.files|
            && (forall j :: 0 <= j < |fs.files| && j != id ==> fs'.files[j] == fs.files[j])
            && (fs'.files[id].freed <==> id !in fs.listed && Refs(fs'.table, id) == 0)
            && (!fs'.files[id].freed ==> fs'.files[id].mem == fs.files[id].mem && fs'.files[id].occ == fs.files[id].occ)
  {
    OpenFileIsAlive(fs, fd);
    CloseInv(fs, fd);
  }
}
