/** The invariant of flat combining over Trinity's memory. */
module TrinityFCInv {
  import opened Persistence
  import opened TxRuns
  import opened Trinity
  import opened TrinityFC
  import F = FlatCombining
  import FI = FlatCombiningInv

  predicate AllFlushed(m: Memory) { forall a | 0 <= a < |m.cells| :: Flushed(m.cells[a]) }

  predicate AllSettled(m: Memory) { forall a | 0 <= a < |m.cells| :: Settled(m.cells[a]) }

  /** Only cell a may have stores that have not been flushed. */
  predicate FlushedBut(m: Memory, a: Addr) { forall b | 0 <= b < |m.cells| && b != a :: Flushed(m.cells[b]) }

  predicate Sizes(s: State) {
    && |s.work| == |s.fc.actors| == |s.loads| && |s.base| == |s.now| == |s.mem.cells| && MemOk(s.mem)
    && s.fc.committed <= |s.fc.executed|
  }

  /** Somebody is past waitForReaders and has not committed yet: the lock holder. */
  predicate Mutated(fc: F.State) { 0 <= fc.owner < |fc.actors| && FI.Mutating(fc.actors[fc.owner].pc) }

  /** What the machine without memory guarantees. */
  ghost predicate Known(fc: F.State) {
    && fc.committed <= |fc.executed| && (fc.committed < |fc.executed| ==> Mutated(fc))
    && (forall q: nat | q < |fc.actors| && FI.Mutating(fc.actors[q].pc) :: q == fc.owner)
    && (Mutated(fc) ==> forall q: nat | q < |fc.actors| :: !fc.actors[q].pc.Reading?)
  }

  /** Nobody else is in the middle of a function or of endTx. */
  ghost predicate WorkOk(s: State)
    requires |s.work| == |s.fc.actors|
  {
    forall q: nat | q < |s.work| && !s.work[q].Idle? :: InMemory(s.fc.actors[q])
  }

  ghost predicate LoadsOk(s: State)
    requires |s.loads| == |s.fc.actors|
  {
    forall q: nat, i | q < |s.loads| && s.fc.actors[q].pc.Reading? && 0 <= i < |s.loads[q]| ::
      s.loads[q][i].0 < |s.now| && s.loads[q][i].1 == s.now[s.loads[q][i].0]
  }

  /** base and now are what the functions leave when they run alone, in the order executed. */
  ghost predicate ContentsOk(s: State)
    requires s.fc.committed <= |s.fc.executed|
  {
    && Ran(s.code, s.fc.executed[..s.fc.committed], Zeros(|s.mem.cells|), s.base)
    && Ran(s.code, s.fc.executed, Zeros(|s.mem.cells|), s.now)
  }

  /** Before p_seq is stored: every crash undoes what has been done since the last commit. */
  ghost predicate InTx(s: State)
    requires MemOk(s.mem)
  {
    var p := Cur(s.mem.pseq);
    TxOk(s.mem, p, s.base) && |s.ends| == p && s.ends[p - 1] == s.fc.committed
  }

  /** The function has made some calls, with these results, and left the cells as they are. */
  ghost predicate Progress(s: State, w: nat, outs: seq<Val>)
    requires w < |s.fc.actors| && MemOk(s.mem) && Current(s.fc.actors[w]).Some?
  {
    exists k: nat :: AfterCalls(s.code(Current(s.fc.actors[w]).value), s.now, k) == Local(outs, Mains(s.mem))
  }

  /** In pstore(a, v). */
  ghost predicate Storing(s: State, w: nat, a: Addr, v: Val, outs: seq<Val>)
    requires w < |s.fc.actors| && MemOk(s.mem)
  {
    && Current(s.fc.actors[w]).Some? && a < |s.mem.cells| && InTx(s)
    && s.code(Current(s.fc.actors[w]).value)(outs) == Write(a, v) && Progress(s, w, outs)
  }

  /** p_seq has been stored: a crash finds either the old or the new one. */
  ghost predicate Committing(s: State)
    requires MemOk(s.mem)
  {
    && Cur(s.mem.pseq) > 1
    && var p: nat := Cur(s.mem.pseq) - 1;
    && TxOk(s.mem.(pseq := Booted(p)), p, s.base)
    && AllSettled(s.mem) && AllFlushed(s.mem) && Mains(s.mem) == s.now
    && (forall j | s.mem.pseq.lo <= j < |s.mem.pseq.hist| :: s.mem.pseq.hist[j] == p || s.mem.pseq.hist[j] == p + 1)
    && |s.ends| == p + 1 && s.ends[p - 1] == s.fc.committed && s.ends[p] == |s.fc.executed|
  }

  ghost predicate WriterOk(s: State, w: nat)
    requires w < |s.fc.actors| == |s.work| && MemOk(s.mem) && |s.base| == |s.mem.cells|
  {
    match s.work[w]
    case Idle => InTx(s) && AllFlushed(s.mem) && Mains(s.mem) == s.now
    case Calling(outs) =>
      InTx(s) && AllFlushed(s.mem) && Current(s.fc.actors[w]).Some? && Progress(s, w, outs)
    case StoreBack(a, v, outs) =>
      Storing(s, w, a, v, outs) && AllFlushed(s.mem) && Cur(s.mem.cells[a]).sq != Cur(s.mem.pseq)
    case StoreSeq(a, v, outs) =>
      Storing(s, w, a, v, outs) && FlushedBut(s.mem, a) && Cur(s.mem.cells[a]).back == s.base[a]
    case StoreMain(a, v, outs) =>
      Storing(s, w, a, v, outs) && FlushedBut(s.mem, a) && Cur(s.mem.cells[a]).sq == Cur(s.mem.pseq)
    case Flush(a, outs) =>
      InTx(s) && a < |s.mem.cells| && FlushedBut(s.mem, a) && Current(s.fc.actors[w]).Some? && Progress(s, w, outs)
    case StorePseq =>
      s.fc.actors[w].pc.EndTx? && InTx(s) && AllFlushed(s.mem) && AllSettled(s.mem) && Mains(s.mem) == s.now
    case PwbPseq => s.fc.actors[w].pc.EndTx? && Committing(s)
    case Psync => s.fc.actors[w].pc.EndTx? && Committing(s) && Flushed(s.mem.pseq)
  }

  ghost predicate QuietOk(s: State)
    requires MemOk(s.mem)
  {
    InTx(s) && AllFlushed(s.mem) && Mains(s.mem) == s.now && s.base == s.now && s.fc.committed == |s.fc.executed|
  }

  predicate NobodyIn(fc: F.State) { forall q: nat | q < |fc.actors| :: fc.actors[q].pc.Out? }

  /** recover() has got to cell i. */
  ghost predicate ScanOk(s: State)
    requires MemOk(s.mem)
  {
    && InTx(s) && s.base == s.now && s.fc.committed == |s.fc.executed| && NobodyIn(s.fc)
    && var p := Cur(s.mem.pseq);
    match s.mode
    case Running => false
    case Scan(i) => AllFlushed(s.mem) && Scanned(s.mem, i, p)
    case ScanSeq(i) =>
      && i < |s.mem.cells| && FlushedBut(s.mem, i) && Scanned(s.mem, i, p)
      && Cur(s.mem.cells[i]).sq == p && Cur(s.mem.cells[i]).main == Cur(s.mem.cells[i]).back
    case ScanPwb(i) =>
      i < |s.mem.cells| && FlushedBut(s.mem, i) && Scanned(s.mem, i, p) && Cur(s.mem.cells[i]).sq != p
  }

  predicate Scanned(m: Memory, i: nat, p: nat)
    requires MemOk(m)
  {
    forall b | 0 <= b < i && b < |m.cells| :: Cur(m.cells[b]).sq != p
  }

  ghost predicate PhaseOk(s: State)
    requires Sizes(s)
  {
    if !s.mode.Running? then ScanOk(s)
    else if Mutated(s.fc) then WriterOk(s, s.fc.owner)
    else QuietOk(s)
  }

  ghost predicate Inv(s: State) {
    FI.Inv(s.fc) && Sizes(s) && WorkOk(s) && LoadsOk(s) && ContentsOk(s) && PhaseOk(s)
  }

  lemma {:induction false} Knows(fc: F.State)
    requires FI.Inv(fc)
    ensures Known(fc)
  {
    assert FI.LogOk(fc) && FI.SlotsOk(fc) && FI.ReadersOk(fc);
    forall q: nat | q < |fc.actors| && FI.Mutating(fc.actors[q].pc) ensures q == fc.owner {
      assert FI.ActorOk(fc, q);
    }
  }

  lemma {:induction false} InitKeeps(cells: nat, slots: nat, actors: nat, code: nat -> Code)
    ensures Inv(Init(cells, slots, actors, code))
  {
    FI.InitKeeps(slots, actors);
    hide FI.Inv;
  }
}
