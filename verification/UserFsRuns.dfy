/**
 A client of UserFS: any sequence of calls, one after the other, on the program's own
 data structures. What UfsFlat proves about runs of the model holds of these runs.
 */
module UserFsRuns {
  import opened UfsModel
  import opened UfsInvariant
  import opened UfsFlat
  import opened UserFs

  method Call(u: Ufs, op: Op)
    requires u.Valid() && Legal(u.model, op)
    modifies u, u.all.files, u.all.descs, u.all.blocks, u.all.memories
    ensures u.Valid() && Inv(old(u.model)) && u.model == Step(old(u.model), op)
    ensures fresh(u.all.files - old(u.all.files)) && fresh(u.all.descs - old(u.all.descs))
    ensures fresh(u.all.blocks - old(u.all.blocks)) && fresh(u.all.memories - old(u.all.memories))
  {
    hide Inv;
    u.Parts();
    hide *;
    LegalSlot(u.model, op);
    match op {
      case OpOpen(name, flags) => var fd := u.Open(name, flags);
      case OpWrite(fd, buf) => var r := u.Write(fd, buf);
      case OpRead(fd, n) => var r, out := u.Read(fd, n);
      case OpResize(fd, size) => var r := u.Resize(fd, size);
      case OpClose(fd) => var r := u.Close(fd);
      case OpDelete(name) => var r := u.Delete(name);
    }
    StepIs(old(u.model), op);
  }

  lemma LegalSlot(fs: Fs, op: Op)
    requires Legal(fs, op)
    ensures op.OpWrite? || op.OpRead? || op.OpResize? || op.OpClose? ==> op.fd != |fs.table|
  {
  }

  lemma StepIs(fs: Fs, op: Op)
    requires Inv(fs) && Legal(fs, op)
    ensures op.OpOpen? ==> Step(fs, op) == Open(fs, op.name, op.flags).0
    ensures op.OpWrite? ==> Step(fs, op) == Write(fs, op.fd, op.buf).0
    ensures op.OpRead? ==> Step(fs, op) == Read(fs, op.fd, op.n).0
    ensures op.OpResize? ==> Step(fs, op) == Resize(fs, op.fd, op.size).0
    ensures op.OpClose? ==> Step(fs, op) == Close(fs, op.fd).0
    ensures op.OpDelete? ==> Step(fs, op) == Delete(fs, op.name).0
  {
  }

  /** A whole run of calls does to the linked structures what Run does to the model. */
  method Execute(u: Ufs, ops: seq<Op>)
    requires u.Valid() && Inv(u.model) && LegalRun(u.model, ops)
    modifies u, u.all.files, u.all.descs, u.all.blocks, u.all.memories
    ensures u.Valid() && u.model == Run(old(u.model), ops)
    decreases |ops|
  {
    if ops != [] {
      LegalRunStep(u.model, ops);
      Call(u, ops[0]);
      Execute(u, ops[1..]);
    }
  }

  lemma LegalRunStep(fs: Fs, ops: seq<Op>)
    requires Inv(fs) && LegalRun(fs, ops) && ops != []
    ensures Legal(fs, ops[0]) && Inv(Step(fs, ops[0])) && LegalRun(Step(fs, ops[0]), ops[1..])
    ensures Run(fs, ops) == Run(Step(fs, ops[0]), ops[1..])
  {
    StepInv(fs, ops[0]);
  }
}
