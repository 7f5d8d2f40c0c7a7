/** Crashes of flat combining over Trinity's memory, and recovery. */
module TrinityFCCrash {
  import opened Persistence
  import opened TxRuns
  import opened Trinity
  import opened TrinityFC
  import opened TrinityFCInv
  import opened TrinityFCProof
  import F = FlatCombining
  import FI = FlatCombiningInv
  import FP = FlatCombiningProof

  // ---------- crashes ----------

  /**
    A crash leaves the functions executed up to the last commit, or all of them: recovery will
    find exactly what these have done.
  */
  ghost predicate Found(s: State, img: Image) {
    var k := Kept(s, img);
    && ImageOk(img) && img.pseq <= |s.ends| && k == s.ends[img.pseq - 1]
    && F.CanCrash(s.fc, k)
    && Ran(s.code, s.fc.executed[..k], Zeros(|s.mem.cells|), Recovered(img))
  }

  lemma {:induction false} InTxFinds(s: State, img: Image)
    requires Sizes(s) && InTx(s) && ContentsOk(s) && CanCrash(s, img)
    ensures Found(s, img)
  {
    var p := Cur(s.mem.pseq);
    TxIsSafe(s.mem, p, s.base, map[p := s.base]);
    hide TxOk;
    assert Recovered(img) == s.base && img.pseq == p;
  }

  lemma {:induction false} CommittingFinds(s: State, img: Image)
    requires Sizes(s) && Committing(s) && ContentsOk(s) && CanCrash(s, img)
    requires Mutated(s.fc) && s.fc.actors[s.fc.owner].pc.EndTx?
    ensures Found(s, img)
  {
    var p: nat := Cur(s.mem.pseq) - 1;
    var m, states := s.mem.(pseq := Booted(p)), map[p := s.base, p + 1 := s.now];
    assert Mains(m) == s.now;
    CommitIsSafe(m, p, s.base, s.mem, states);
    hide TxOk, CrashSafe;
    SafeImage(s.mem, states, img);
    assert s.fc.executed[..|s.fc.executed|] == s.fc.executed;
  }

  lemma {:induction false} SafeImage(m: Memory, states: map<nat, seq<Val>>, img: Image)
    requires MemOk(m) && CrashSafe(m, states) && CrashImage(m, img)
    ensures ImageOk(img) && img.pseq in states && Recovered(img) == states[img.pseq]
  {
  }

  lemma {:induction false} CrashFinds(s: State, img: Image)
    requires Inv(s) && CanCrash(s, img)
    ensures Found(s, img)
  {
    hide FI.Inv, CanCrash, Found, ContentsOk, InTx, Committing, WorkOk, LoadsOk;
    if s.mode.Running? && Mutated(s.fc) && (s.work[s.fc.owner].PwbPseq? || s.work[s.fc.owner].Psync?) {
      CommittingFinds(s, img);
    } else {
      assert InTx(s);
      InTxFinds(s, img);
    }
  }

  lemma {:induction false} CrashScan(s: State, img: Image)
    requires Sizes(s) && CanCrash(s, img) && Found(s, img)
    ensures Sizes(DoCrash(s, img)) && ScanOk(DoCrash(s, img))
  {
    BootOk(img);
    var s' := DoCrash(s, img);
    assert Mains(s'.mem) == seq(|img.cells|, a requires 0 <= a < |img.cells| => img.cells[a].main);
  }

  lemma {:induction false} CrashContents(s: State, img: Image)
    requires Sizes(s) && CanCrash(s, img) && Found(s, img)
    ensures ContentsOk(DoCrash(s, img))
  {
    var s', k := DoCrash(s, img), Kept(s, img);
    assert s'.fc.executed[..k] == s.fc.executed[..k] == s'.fc.executed;
    assert |s'.mem.cells| == |s.mem.cells|;
  }

  lemma {:induction false} CrashKeeps(s: State, img: Image)
    requires Inv(s) && CanCrash(s, img)
    ensures Inv(DoCrash(s, img))
  {
    CrashFinds(s, img);
    CrashScan(s, img);
    CrashContents(s, img);
    FP.CrashKeeps(s.fc, Kept(s, img));
    hide FI.Inv, ContentsOk, ScanOk, Recovered, Boot;
  }

  // ---------- recover() ----------

  /** A step of recovery that leaves everything but cell i. */
  lemma {:induction false} RecoverCell(s: State, s': State)
    requires Sizes(s) && ScanOk(s) && CanRecover(s) && s' == DoRecover(s) && !s'.mode.Running?
    ensures Sizes(s') && ScanOk(s')
  {
    var m, p := s.mem, Cur(s.mem.pseq);
    match s.mode
    case Scan(i) =>
      if Cur(m.cells[i]).sq == p {
        assert CellOk(m.cells[i], p, s.base[i]);
        StoreKeepsTx(m, i, Cur(m.cells[i]).(main := Cur(m.cells[i]).back), p, s.base);
      }
    case ScanSeq(i) =>
      assert CellOk(m.cells[i], p, s.base[i]);
      StoreKeepsTx(m, i, Cur(m.cells[i]).(sq := 0), p, s.base);
    case ScanPwb(i) =>
      PwbKeepsTx(m, i, p, s.base);
  }

  /** When the scan is over the cells hold what was committed, and hold it durably. */
  lemma {:induction false} RecoverEnds(s: State)
    requires Sizes(s) && ScanOk(s) && s.mode.Scan? && s.mode.i >= |s.mem.cells|
    ensures var s' := DoRecover(s); Sizes(s') && QuietOk(s') && AllSettled(s'.mem) && s'.mode.Running?
  {
    var p := Cur(s.mem.pseq);
    FenceKeepsTx(s.mem, p, s.base);
    forall a | 0 <= a < |s.mem.cells| ensures Mains(s.mem)[a] == s.base[a] {
      assert CellOk(s.mem.cells[a], p, s.base[a]);
    }
    assert Mains(s.mem) == s.base;
  }

  lemma {:induction false} RecoverKeeps(s: State)
    requires Inv(s) && CanRecover(s)
    ensures Inv(DoRecover(s))
  {
    var s' := DoRecover(s);
    hide FI.Inv, TxOk, Ran, Mutated;
    NobodyMutates(s.fc);
    if s'.mode.Running? {
      RecoverEnds(s);
    } else {
      RecoverCell(s, s');
    }
  }

  lemma {:induction false} NobodyMutates(fc: F.State)
    requires NobodyIn(fc)
    ensures !Mutated(fc)
  {
  }

  // ---------- runs ----------

  lemma {:induction false} ActionKeeps(s: State, act: Action)
    requires Inv(s) && Enabled(s, act)
    ensures Inv(Apply(s, act))
  {
    hide Inv, CanStep, CanWork, CanLoad, CanCrash, CanRecover, DoStep, DoWork, DoLoad, DoCrash, DoRecover;
    match act
    case Step(p, op) => TrinityFCProof.StepKeeps(s, p, op);
    case Access(w) => WorkKeeps(s, w);
    case Load(q, a) => LoadKeeps(s, q, a);
    case Crash(img) => CrashKeeps(s, img);
    case Recover => RecoverKeeps(s);
  }

  lemma {:induction false} RunKeeps(s: State, acts: seq<Action>)
    requires Inv(s) && Run(s, acts)
    ensures Inv(After(s, acts))
    decreases |acts|
  {
    hide Inv, Enabled, Apply;
    if acts != [] {
      ActionKeeps(s, acts[0]);
      RunKeeps(Apply(s, acts[0]), acts[1..]);
    }
  }
}
