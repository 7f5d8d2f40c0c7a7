/** Every access of flat combining over Trinity's memory keeps the invariant. */
module TrinityFCProof {
  import opened Persistence
  import opened TxRuns
  import opened Trinity
  import opened TrinityFC
  import opened TrinityFCInv
  import F = FlatCombining
  import FI = FlatCombiningInv
  import FP = FlatCombiningProof

  // ---------- accesses to memory ----------

  /** A store that leaves a content recovery can undo. */
  lemma {:induction false} StoreKeepsTx(m: Memory, a: Addr, c: Cell, p: nat, base: seq<Val>)
    requires MemOk(m) && TxOk(m, p, base) && a < |m.cells| && ContentOk(c, p, base[a])
    ensures var m' := PutCell(m, a, c);
      && MemOk(m') && TxOk(m', p, base) && Cur(m'.cells[a]) == c && m'.pseq == m.pseq
      && Mains(m') == Mains(m)[a := c.main] && (FlushedBut(m, a) ==> FlushedBut(m', a))
  {
    var m' := PutCell(m, a, c);
    assert CellOk(m.cells[a], p, base[a]);
    assert forall j | m.cells[a].lo <= j < |m.cells[a].hist| :: m'.cells[a].hist[j] == m.cells[a].hist[j];
    assert Mains(m') == Mains(m)[a := c.main];
  }

  lemma {:induction false} PwbKeepsTx(m: Memory, a: Addr, p: nat, base: seq<Val>)
    requires MemOk(m) && TxOk(m, p, base) && a < |m.cells| && FlushedBut(m, a)
    ensures var m' := FlushCell(m, a);
      MemOk(m') && TxOk(m', p, base) && AllFlushed(m') && Mains(m') == Mains(m) && m'.pseq == m.pseq
      && Cur(m'.cells[a]) == Cur(m.cells[a])
  {
    var m' := FlushCell(m, a);
    assert CellOk(m.cells[a], p, base[a]);
    assert Mains(m') == Mains(m);
  }

  lemma {:induction false} FenceKeepsTx(m: Memory, p: nat, base: seq<Val>)
    requires MemOk(m) && TxOk(m, p, base) && AllFlushed(m)
    ensures var m' := FenceAll(m);
      && MemOk(m') && TxOk(m', p, base) && AllFlushed(m') && AllSettled(m') && Mains(m') == Mains(m)
      && Cur(m'.pseq) == Cur(m.pseq)
  {
    var m' := FenceAll(m);
    forall a | 0 <= a < |m.cells| ensures CellOk(m'.cells[a], p, base[a]) {
      assert CellOk(m.cells[a], p, base[a]);
    }
    assert Mains(m') == Mains(m);
  }

  /** The PSYNC after the store of p_seq: what was written is the new contents. */
  lemma {:induction false} PsyncCommits(m: Memory, p: nat, base: seq<Val>)
    requires MemOk(m) && TxOk(m.(pseq := Booted(p)), p, base) && AllSettled(m) && AllFlushed(m)
    requires Flushed(m.pseq) && Cur(m.pseq) == p + 1
    ensures var m' := FenceAll(m);
      && MemOk(m') && TxOk(m', p + 1, Mains(m)) && AllFlushed(m') && Mains(m') == Mains(m) && Cur(m'.pseq) == p + 1
  {
    var m' := FenceAll(m);
    forall a | 0 <= a < |m.cells| ensures CellOk(m'.cells[a], p + 1, Mains(m)[a]) {
      assert CellOk(m.cells[a], p, base[a]);
    }
    assert Mains(m') == Mains(m);
  }

  // ---------- steps without memory ----------

  /** What such a step of actor p does to the rest. */
  ghost predicate Aside(fc: F.State, fc': F.State, p: nat) {
    && p < |fc.actors| == |fc'.actors| && fc'.executed == fc.executed && fc'.committed == fc.committed
    && (forall q: nat | q < |fc.actors| && q != p :: fc'.actors[q] == fc.actors[q])
    && (FI.Mutating(fc'.actors[p].pc) ==> FI.Mutating(fc.actors[p].pc) || fc.actors[p].pc.Wait?)
    && (FI.Mutating(fc.actors[p].pc) ==> FI.Mutating(fc'.actors[p].pc))
    && (fc'.actors[p].pc.Reading? ==> fc.actors[p].pc.CheckLock?)
  }

  lemma {:induction false} HolderAside(fc: F.State, p: nat, op: F.Op)
    requires F.CanStep(fc, p, op) && !InMemory(fc.actors[p]) && FI.Holding(fc.actors[p].pc)
    ensures Aside(fc, F.DoStep(fc, p, op), p)
  {
  }

  /** The reader's part and the registry. */
  predicate Entering(pc: F.PC) {
    FI.Registering(pc) || pc.Out? || pc.Arrive? || pc.CheckLock? || pc.Depart? || pc.Spin? || pc.Reading?
  }

  lemma {:induction false} EnteringAside(fc: F.State, p: nat, op: F.Op)
    requires F.CanStep(fc, p, op) && Entering(fc.actors[p].pc)
    ensures Aside(fc, F.DoStep(fc, p, op), p)
  {
  }

  lemma {:induction false} WaitingAside(fc: F.State, p: nat, op: F.Op)
    requires F.CanStep(fc, p, op) && !FI.Holding(fc.actors[p].pc) && !Entering(fc.actors[p].pc)
    ensures Aside(fc, F.DoStep(fc, p, op), p)
  {
  }

  lemma {:induction false} StepAside(fc: F.State, p: nat, op: F.Op)
    requires F.CanStep(fc, p, op) && !InMemory(fc.actors[p])
    ensures Aside(fc, F.DoStep(fc, p, op), p)
  {
    hide F.DoStep, Aside;
    if FI.Holding(fc.actors[p].pc) {
      HolderAside(fc, p, op);
    } else if Entering(fc.actors[p].pc) {
      EnteringAside(fc, p, op);
    } else {
      WaitingAside(fc, p, op);
    }
  }

  lemma {:induction false} AsidePhase(s: State, s': State, p: nat)
    requires Sizes(s) && Sizes(s') && WorkOk(s) && Known(s.fc) && Known(s'.fc) && PhaseOk(s) && s.mode.Running?
    requires Aside(s.fc, s'.fc, p) && !InMemory(s.fc.actors[p])
    requires s' == s.(fc := s'.fc, loads := s'.loads)
    ensures PhaseOk(s')
  {
    if Mutated(s.fc) {
      var w := s.fc.owner;
      assert FI.Mutating(s'.fc.actors[w].pc) && s'.fc.owner == w;
      assert WriterOk(s, w);
      if p == w {
        assert s.work[w].Idle?;
      } else {
        WriterSame(s, s', w);
      }
    } else if Mutated(s'.fc) {
      assert s'.fc.owner == p && s.work[p].Idle?;
    }
  }

  lemma {:induction false} WriterSame(s: State, s': State, w: nat)
    requires w < |s.fc.actors| == |s.work| == |s'.fc.actors| && MemOk(s.mem) && |s.base| == |s.mem.cells| && WriterOk(s, w)
    requires s' == s.(fc := s'.fc, loads := s'.loads) && s'.fc.actors[w] == s.fc.actors[w]
    requires s'.fc.executed == s.fc.executed && s'.fc.committed == s.fc.committed
    ensures WriterOk(s', w)
  {
    assert forall outs :: Current(s.fc.actors[w]).Some? ==> Progress(s', w, outs) == Progress(s, w, outs);
  }

  lemma {:induction false} StepKeeps(s: State, p: nat, op: F.Op)
    requires Inv(s) && CanStep(s, p, op)
    ensures Inv(DoStep(s, p, op))
  {
    var s' := DoStep(s, p, op);
    FP.StepKeeps(s.fc, p, op);
    Knows(s.fc);
    Knows(s'.fc);
    StepAside(s.fc, p, op);
    hide FI.Inv, F.DoStep, F.CanStep, PhaseOk;
    AsidePhase(s, s', p);
  }

  lemma {:induction false} LoadKeeps(s: State, q: nat, a: Addr)
    requires Inv(s) && CanLoad(s, q, a)
    ensures Inv(DoLoad(s, q, a))
  {
    var s' := DoLoad(s, q, a);
    Knows(s.fc);
    hide FI.Inv;
    assert QuietOk(s);
    assert s.now[a] == Mains(s.mem)[a];
  }

  // ---------- accesses of a function ----------

  /** What the lock holder knows before an access. */
  ghost predicate Ready(s: State, w: nat) {
    && CanWork(s, w) && Sizes(s) && WorkOk(s) && LoadsOk(s) && ContentsOk(s) && Known(s.fc)
    && Mutated(s.fc) && s.fc.owner == w && WriterOk(s, w)
    && (forall q: nat | q < |s.work| && q != w :: s.work[q].Idle?)
    && (forall q: nat | q < |s.fc.actors| :: !s.fc.actors[q].pc.Reading?)
  }

  lemma {:induction false} InMemoryMutates(a: F.Actor)
    ensures InMemory(a) ==> FI.Mutating(a.pc)
  {
  }

  lemma {:induction false} GetReady(s: State, w: nat)
    requires Inv(s) && CanWork(s, w)
    ensures Ready(s, w)
  {
    Knows(s.fc);
    hide FI.Inv, WriterOk;
    assert FI.Mutating(s.fc.actors[w].pc);
    forall q: nat | q < |s.work| && q != w ensures s.work[q].Idle? {
      InMemoryMutates(s.fc.actors[q]);
    }
  }

  /** The access leaves the machine without memory alone. */
  ghost predicate Within(s: State, s': State, w: nat) {
    && w < |s.work| == |s'.work| && s' == s.(work := s'.work, mem := s'.mem, ends := s'.ends)
    && (forall q: nat | q < |s.work| && q != w :: s'.work[q] == s.work[q])
    && |s'.mem.cells| == |s.mem.cells| && MemOk(s'.mem)
  }

  lemma {:induction false} WithinKeeps(s: State, s': State, w: nat)
    requires Inv(s) && Ready(s, w) && Within(s, s', w) && WriterOk(s', w)
    ensures Inv(s')
  {
    hide FI.Inv, WriterOk, ContentsOk;
    assert ContentsOk(s') by { SameContents(s, s'); }
    forall q: nat | q < |s'.work| && !s'.work[q].Idle? ensures InMemory(s'.fc.actors[q]) {
    }
  }

  lemma {:induction false} SameContents(s: State, s': State)
    requires s.fc.committed <= |s.fc.executed| && ContentsOk(s) && s'.code == s.code && s'.fc == s.fc
    requires |s'.mem.cells| == |s.mem.cells| && s'.base == s.base && s'.now == s.now
    ensures ContentsOk(s')
  {
  }

  /** The function has made one call more. */
  lemma {:induction false} OneMore(s: State, s': State, w: nat, outs: seq<Val>, outs': seq<Val>)
    requires w < |s.fc.actors| && MemOk(s.mem) && MemOk(s'.mem) && Current(s.fc.actors[w]).Some? && Progress(s, w, outs)
    requires s'.fc == s.fc && s'.code == s.code && s'.now == s.now
    requires OneCall(s.code(Current(s.fc.actors[w]).value), Local(outs, Mains(s.mem))) == Local(outs', Mains(s'.mem))
    ensures Progress(s', w, outs')
  {
    var c := s.code(Current(s.fc.actors[w]).value);
    var k: nat :| AfterCalls(c, s.now, k) == Local(outs, Mains(s.mem));
    assert AfterCalls(c, s.now, k + 1) == Local(outs', Mains(s'.mem));
  }

  lemma {:induction false} BeginWriter(s: State, w: nat)
    requires Ready(s, w) && s.work[w].Idle? && !s.fc.actors[w].pc.EndTx?
    ensures Within(s, DoWork(s, w), w) && WriterOk(DoWork(s, w), w)
  {
    var c := s.code(Current(s.fc.actors[w]).value);
    assert AfterCalls(c, s.now, 0) == Local([], Mains(s.mem));
  }

  lemma {:induction false} SameProgress(s: State, s': State, w: nat, outs: seq<Val>)
    requires w < |s.fc.actors| && MemOk(s.mem) && MemOk(s'.mem) && Current(s.fc.actors[w]).Some? && Progress(s, w, outs)
    requires s'.fc == s.fc && s'.code == s.code && s'.now == s.now && Mains(s'.mem) == Mains(s.mem)
    ensures Progress(s', w, outs)
  {
  }

  lemma {:induction false} CallWriter(s: State, w: nat)
    requires Ready(s, w) && s.work[w].Calling? && !s.code(Current(s.fc.actors[w]).value)(s.work[w].outs).Return?
    ensures Within(s, DoWork(s, w), w) && WriterOk(DoWork(s, w), w)
  {
    var s', outs := DoWork(s, w), s.work[w].outs;
    match s.code(Current(s.fc.actors[w]).value)(outs)
    case Read(a) =>
      assert Mains(s.mem)[a] == Cur(s.mem.cells[a]).main;
      OneMore(s, s', w, outs, outs + [Cur(s.mem.cells[a]).main]);
    case Write(a, v) =>
      SameProgress(s, s', w, outs);
  }

  lemma {:induction false} StoreBackWriter(s: State, w: nat)
    requires Ready(s, w) && s.work[w].StoreBack?
    ensures Within(s, DoWork(s, w), w) && WriterOk(DoWork(s, w), w)
  {
    var s', a, p := DoWork(s, w), s.work[w].a, Cur(s.mem.pseq);
    assert CellOk(s.mem.cells[a], p, s.base[a]);
    StoreKeepsTx(s.mem, a, Cur(s.mem.cells[a]).(back := Cur(s.mem.cells[a]).main), p, s.base);
    assert Mains(s'.mem) == Mains(s.mem);
    SameProgress(s, s', w, s.work[w].outs);
  }

  lemma {:induction false} StoreSeqWriter(s: State, w: nat)
    requires Ready(s, w) && s.work[w].StoreSeq?
    ensures Within(s, DoWork(s, w), w) && WriterOk(DoWork(s, w), w)
  {
    var s', a, p := DoWork(s, w), s.work[w].a, Cur(s.mem.pseq);
    assert CellOk(s.mem.cells[a], p, s.base[a]);
    StoreKeepsTx(s.mem, a, Cur(s.mem.cells[a]).(sq := p), p, s.base);
    assert Mains(s'.mem) == Mains(s.mem);
    SameProgress(s, s', w, s.work[w].outs);
  }

  lemma {:induction false} StoreMainWriter(s: State, w: nat)
    requires Ready(s, w) && s.work[w].StoreMain?
    ensures Within(s, DoWork(s, w), w) && WriterOk(DoWork(s, w), w)
  {
    var s', a, v, p := DoWork(s, w), s.work[w].a, s.work[w].v, Cur(s.mem.pseq);
    assert CellOk(s.mem.cells[a], p, s.base[a]);
    StoreKeepsTx(s.mem, a, Cur(s.mem.cells[a]).(main := v), p, s.base);
    OneMore(s, s', w, s.work[w].outs, s.work[w].outs + [v]);
  }

  lemma {:induction false} FlushWriter(s: State, w: nat)
    requires Ready(s, w) && s.work[w].Flush?
    ensures Within(s, DoWork(s, w), w) && WriterOk(DoWork(s, w), w)
  {
    PwbKeepsTx(s.mem, s.work[w].a, Cur(s.mem.pseq), s.base);
    SameProgress(s, DoWork(s, w), w, s.work[w].outs);
  }

  // ---------- endTx ----------

  lemma {:induction false} FenceWriter(s: State, w: nat)
    requires Ready(s, w) && s.work[w].Idle? && s.fc.actors[w].pc.EndTx?
    ensures Within(s, DoWork(s, w), w) && WriterOk(DoWork(s, w), w)
  {
    FenceKeepsTx(s.mem, Cur(s.mem.pseq), s.base);
  }

  lemma {:induction false} StorePseqWriter(s: State, w: nat)
    requires Ready(s, w) && s.work[w].StorePseq?
    ensures Within(s, DoWork(s, w), w) && WriterOk(DoWork(s, w), w)
  {
    var s', p := DoWork(s, w), Cur(s.mem.pseq);
    assert Mains(s'.mem) == Mains(s.mem);
    assert forall a | 0 <= a < |s.mem.cells| :: CellOk(s.mem.cells[a], p, s.base[a]);
  }

  lemma {:induction false} PwbPseqWriter(s: State, w: nat)
    requires Ready(s, w) && s.work[w].PwbPseq?
    ensures Within(s, DoWork(s, w), w) && WriterOk(DoWork(s, w), w)
  {
    var s' := DoWork(s, w);
    assert Mains(s'.mem) == Mains(s.mem);
    assert s'.mem.(pseq := Booted(Cur(s.mem.pseq) - 1)) == s.mem.(pseq := Booted(Cur(s.mem.pseq) - 1));
  }

  // ---------- the two accesses that move flat combining on ----------

  /** One function more has run. */
  lemma {:induction false} RanMore(code: nat -> Code, rs: seq<nat>, r: nat, v: seq<Val>, u: seq<Val>, u': seq<Val>)
    requires Ran(code, rs, v, u) && Ends(code(r), u, u')
    ensures Ran(code, rs + [r], v, u')
  {
    assert (rs + [r])[..|rs|] == rs;
    assert EndsLast(code, rs + [r], u, u');
  }

  lemma {:induction false} ReturnMoves(fc: F.State, w: nat)
    requires F.CanStep(fc, w, F.Go) && Current(fc.actors[w]).Some?
    ensures var fc' := F.DoStep(fc, w, F.Go);
      && |fc'.actors| == |fc.actors| && fc'.owner == fc.owner && fc'.committed == fc.committed
      && fc'.executed == fc.executed + [Current(fc.actors[w]).value] && fc'.actors[w].pc.Exec?
  {
  }

  lemma {:induction false} ReturnContents(s: State, w: nat)
    requires Ready(s, w) && s.work[w].Calling?
    requires s.code(Current(s.fc.actors[w]).value)(s.work[w].outs).Return?
    ensures DoWork(s, w).fc.committed <= |DoWork(s, w).fc.executed| && ContentsOk(DoWork(s, w))
  {
    var s', r := DoWork(s, w), Current(s.fc.actors[w]).value;
    ReturnMoves(s.fc, w);
    hide F.DoStep, F.CanStep, Ran;
    assert Ends(s.code(r), s.now, s'.now);
    RanMore(s.code, s.fc.executed, r, Zeros(|s.mem.cells|), s.now, s'.now);
    assert s'.fc.executed[..s'.fc.committed] == s.fc.executed[..s.fc.committed];
  }

  lemma {:induction false} ReturnRest(s: State, w: nat)
    requires Ready(s, w) && s.work[w].Calling? && Known(DoWork(s, w).fc)
    requires s.code(Current(s.fc.actors[w]).value)(s.work[w].outs).Return?
    ensures var s' := DoWork(s, w); Sizes(s') && WorkOk(s') && LoadsOk(s') && PhaseOk(s')
  {
    ReturnMoves(s.fc, w);
    hide F.DoStep, F.CanStep, ContentsOk, TxOk;
  }

  lemma {:induction false} ReturnKeeps(s: State, w: nat)
    requires Inv(s) && Ready(s, w) && s.work[w].Calling?
    requires s.code(Current(s.fc.actors[w]).value)(s.work[w].outs).Return?
    ensures Inv(DoWork(s, w))
  {
    FcMoves(s, w);
    Knows(DoWork(s, w).fc);
    ReturnRest(s, w);
    ReturnContents(s, w);
    hide Ready, DoWork, FI.Inv, Known, Sizes, WorkOk, LoadsOk, ContentsOk, PhaseOk;
  }

  lemma {:induction false} PsyncMoves(fc: F.State, w: nat)
    requires F.CanStep(fc, w, F.Go) && fc.actors[w].pc.EndTx?
    ensures var fc' := F.DoStep(fc, w, F.Go);
      && |fc'.actors| == |fc.actors| && fc'.owner == fc.owner && fc'.committed == |fc.executed|
      && fc'.executed == fc.executed && fc'.actors[w].pc.Clear?
      && (forall q: nat | q < |fc.actors| && q != w :: fc'.actors[q] == fc.actors[q])
  {
  }

  lemma {:induction false} PsyncQuiet(s: State, w: nat)
    requires Ready(s, w) && s.work[w].Psync?
    ensures MemOk(DoWork(s, w).mem) && QuietOk(DoWork(s, w))
  {
    PsyncMoves(s.fc, w);
    hide F.DoStep, F.CanStep, ContentsOk, WorkOk, LoadsOk, Known, TxOk;
    PsyncCommits(s.mem, Cur(s.mem.pseq) - 1, s.base);
  }

  lemma {:induction false} PsyncContents(s: State, w: nat)
    requires Ready(s, w) && s.work[w].Psync?
    ensures DoWork(s, w).fc.committed <= |DoWork(s, w).fc.executed| && ContentsOk(DoWork(s, w))
  {
    PsyncMoves(s.fc, w);
    hide F.DoStep, F.CanStep, Ran, WriterOk, WorkOk, LoadsOk, Known;
    assert s.fc.executed[..|s.fc.executed|] == s.fc.executed;
  }

  /** The machine without memory makes its own step. */
  lemma {:induction false} FcMoves(s: State, w: nat)
    requires FI.Inv(s.fc) && CanWork(s, w)
    requires s.work[w].Psync? || (s.work[w].Calling? && s.code(Current(s.fc.actors[w]).value)(s.work[w].outs).Return?)
    ensures FI.Inv(DoWork(s, w).fc)
  {
    hide FI.Inv, F.DoStep, F.CanStep;
    FP.StepKeeps(s.fc, w, F.Go);
  }

  lemma {:induction false} PsyncRest(s: State, w: nat)
    requires Ready(s, w) && s.work[w].Psync?
    ensures var s' := DoWork(s, w); Sizes(s') && WorkOk(s') && LoadsOk(s') && s'.mode.Running? && !Mutated(s'.fc)
  {
    PsyncMoves(s.fc, w);
    hide F.DoStep, F.CanStep, ContentsOk, Known, TxOk;
    PsyncCommits(s.mem, Cur(s.mem.pseq) - 1, s.base);
  }

  lemma {:induction false} QuietPhase(s: State)
    requires Sizes(s) && s.mode.Running? && !Mutated(s.fc) && QuietOk(s)
    ensures PhaseOk(s)
  {
  }

  lemma {:induction false} PsyncKeeps(s: State, w: nat)
    requires Inv(s) && Ready(s, w) && s.work[w].Psync?
    ensures Inv(DoWork(s, w))
  {
    hide FI.Inv, Ready, DoWork, Sizes, WorkOk, LoadsOk, ContentsOk, QuietOk, WriterOk, Mutated, PhaseOk;
    ReadyCan(s, w);
    PsyncRest(s, w);
    PsyncQuiet(s, w);
    PsyncContents(s, w);
    FcMoves(s, w);
    QuietPhase(DoWork(s, w));
  }

  lemma {:induction false} ReadyCan(s: State, w: nat)
    requires Ready(s, w)
    ensures CanWork(s, w)
  {
  }

  lemma {:induction false} WorkKeeps(s: State, w: nat)
    requires Inv(s) && CanWork(s, w)
    ensures Inv(DoWork(s, w))
  {
    GetReady(s, w);
    hide Inv, Ready, DoWork, WriterOk, Within;
    match s.work[w]
    case Idle =>
      if s.fc.actors[w].pc.EndTx? { FenceWriter(s, w); } else { BeginWriter(s, w); }
      WithinKeeps(s, DoWork(s, w), w);
    case Calling(outs) =>
      if s.code(Current(s.fc.actors[w]).value)(outs).Return? {
        ReturnKeeps(s, w);
      } else {
        CallWriter(s, w);
        WithinKeeps(s, DoWork(s, w), w);
      }
    case StoreBack(_, _, _) => StoreBackWriter(s, w); WithinKeeps(s, DoWork(s, w), w);
    case StoreSeq(_, _, _) => StoreSeqWriter(s, w); WithinKeeps(s, DoWork(s, w), w);
    case StoreMain(_, _, _) => StoreMainWriter(s, w); WithinKeeps(s, DoWork(s, w), w);
    case Flush(_, _) => FlushWriter(s, w); WithinKeeps(s, DoWork(s, w), w);
    case StorePseq => StorePseqWriter(s, w); WithinKeeps(s, DoWork(s, w), w);
    case PwbPseq => PwbPseqWriter(s, w); WithinKeeps(s, DoWork(s, w), w);
    case Psync => PsyncKeeps(s, w);
  }
}
