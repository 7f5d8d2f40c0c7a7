/** What holds of every run of TrinityTL2, with crashes and recoveries at any step. */
module Tl2Theorems {
  import opened Tl2Model
  import opened Tl2Inv
  import opened Tl2Local
  import opened Tl2Steps
  import opened Tl2Reads
  import opened Tl2Puts
  import opened Tl2Lock
  import opened Tl2Clock
  import opened Tl2Commit
  import opened Tl2Append
  import opened Tl2Sync
  import opened Tl2Crash

  ghost predicate Inv(s: State) { InvRunning(s) || InvRecovering(s) }

  lemma ActiveKeeps(s: State, t: nat, op: Op)
    requires InvRunning(s) && CanStep(s, t, op) && s.threads[t].pc.Active?
    ensures InvRunning(DoStep(s, t, op))
  {
    hide InvRunning;
    ThreadFactsFromInv(s, t);
    match op
    case Load(a) => LoadStep(s, t, a); Quiet(s, DoLoad(s, t, a), t);
    case Store(a, v) => StoreStep(s, t, a, v); Quiet(s, DoStore(s, t, a, v), t);
    case End =>
      if s.threads[t].log == [] {
        EndReadOnlyStep(s, t);
        Quiet(s, DoEnd(s, t), t);
      } else {
        AppendKeeps(s, t);
      }
    case _ =>
  }

  lemma LoadSeqKeeps(s: State, t: nat)
    requires InvRunning(s) && CanStep(s, t, Go) && s.threads[t].pc.Loaded?
    ensures InvRunning(DoLoadSeq(s, t))
  {
    hide InvRunning;
    ThreadFactsFromInv(s, t);
    if LoadAborts(s, t) || Cur(s.cells[s.threads[t].pc.la]).lseq.locked {
      LoadSeqNoReadStep(s, t);
    } else {
      AcceptedLoad(s, t);
      LoadSeqReadStep(s, t);
    }
    Quiet(s, DoLoadSeq(s, t), t);
  }

  lemma StoreCasKeeps(s: State, t: nat)
    requires InvRunning(s) && CanStep(s, t, Go) && s.threads[t].pc.StoreSeq?
    ensures InvRunning(DoStoreCas(s, t))
  {
    hide InvRunning;
    ThreadFactsFromInv(s, t);
    if s.threads[t].pc.sl.locked {
      StoreOwnStep(s, t);
      Quiet(s, DoStoreCas(s, t), t);
    } else if CasFails(s, t) {
      StoreFailStep(s, t);
      Quiet(s, DoStoreCas(s, t), t);
    } else {
      CasKeeps(s, t);
    }
  }

  lemma EntriesFromInv(s: State, t: nat)
    requires InvRunning(s) && t < |s.threads|
    ensures forall a: Addr | Validated(s.threads[t], a) :: ValidatedEntryOk(s, t, a)
  {
  }

  lemma ValidateKeeps(s: State, t: nat)
    requires InvRunning(s) && CanStep(s, t, Go) && s.threads[t].pc.Validate?
    ensures InvRunning(DoStep(s, t, Go))
  {
    hide InvRunning;
    ThreadFactsFromInv(s, t);
    EntriesFromInv(s, t);
    if s.threads[t].pc.vi >= |s.threads[t].readSet| {
      FlushStep(s, t);
      Quiet(s, DoFlush(s, t), t);
    } else if ValidateFails(s, t) {
      ValidateFailKeeps(s, t);
    } else {
      AcceptedEntry(s, t);
      ValidateOkStep(s, t);
      Quiet(s, DoValidate(s, t), t);
    }
  }

  lemma HeldLocked(s: State, t: nat, i: nat)
    requires InvRunning(s) && t < |s.threads| && From(s.threads[t]) <= i < |s.threads[t].log|
    ensures LockedBy(s, t, s.threads[t].log[i])
  {
    assert Holds(s.threads[t], s.threads[t].log[i]);
  }

  lemma TargetLocked(s: State, t: nat)
    requires InvRunning(s) && t < |s.threads| && s.threads[t].pc.StoreMain?
    ensures LockedBy(s, t, s.threads[t].pc.wa)
  {
    assert LogOk(s, s.threads[t]);
    HeldIsLog(s.threads[t]);
    assert Holds(s.threads[t], s.threads[t].pc.wa);
  }

  lemma StoreMainKeeps(s: State, t: nat)
    requires InvRunning(s) && CanStep(s, t, Go) && s.threads[t].pc.StoreMain?
    ensures InvRunning(DoStoreMain(s, t))
  {
    hide InvRunning, ThreadFacts, PutThread, PutValues, QuietStep;
    var a := s.threads[t].pc.wa;
    ThreadFactsFromInv(s, t);
    TargetLocked(s, t);
    StoreMainStep(s, t);
    StoreMainValues(s, t);
    PutKeeps(s, DoStoreMain(s, t), t, a);
  }

  lemma ApplyBackKeeps(s: State, t: nat)
    requires InvRunning(s) && CanStep(s, t, Go) && s.threads[t].pc.ApplyBack?
    ensures InvRunning(DoApplyBack(s, t))
  {
    hide InvRunning, ThreadFacts, PutThread, PutValues, QuietStep;
    ThreadFactsFromInv(s, t);
    if s.threads[t].pc.bi < |s.threads[t].log| {
      HeldLocked(s, t, s.threads[t].pc.bi);
      ApplyBackStep(s, t);
      ApplyBackValues(s, t);
      PutKeeps(s, DoApplyBack(s, t), t, s.threads[t].log[s.threads[t].pc.bi]);
    } else {
      ApplyBackEndStep(s, t);
      Quiet(s, DoApplyBack(s, t), t);
    }
  }

  lemma RollbackKeeps(s: State, t: nat)
    requires InvRunning(s) && CanStep(s, t, Go) && s.threads[t].pc.Rollback?
    ensures InvRunning(DoRollback(s, t))
  {
    hide InvRunning, ThreadFacts, PutThread, PutValues, QuietStep;
    ThreadFactsFromInv(s, t);
    if s.threads[t].pc.ri < |s.threads[t].log| {
      HeldLocked(s, t, s.threads[t].pc.ri);
      RollbackStep(s, t);
      RollbackValues(s, t);
      PutKeeps(s, DoRollback(s, t), t, s.threads[t].log[s.threads[t].pc.ri]);
    } else {
      RollbackEndStep(s, t);
      Quiet(s, DoRollback(s, t), t);
    }
  }

  lemma UnlockKeeps(s: State, t: nat)
    requires InvRunning(s) && CanStep(s, t, Go) && s.threads[t].pc.Unlock?
    ensures InvRunning(DoUnlock(s, t))
  {
    hide InvRunning, ThreadFacts, PutThread, PutValues, QuietStep;
    ThreadFactsFromInv(s, t);
    if s.threads[t].pc.ui < |s.threads[t].log| {
      HeldLocked(s, t, s.threads[t].pc.ui);
      UnlockStep(s, t);
      UnlockValues(s, t);
      PutKeeps(s, DoUnlock(s, t), t, s.threads[t].log[s.threads[t].pc.ui]);
    } else {
      UnlockEndStep(s, t);
      Quiet(s, DoUnlock(s, t), t);
    }
  }

  lemma StepKeeps(s: State, t: nat, op: Op)
    requires InvRunning(s) && CanStep(s, t, op)
    ensures InvRunning(DoStep(s, t, op))
  {
    hide InvRunning;
    match s.threads[t].pc
    case Idle => ThreadFactsFromInv(s, t); BeginStep(s, t, op.upd); Quiet(s, DoBegin(s, t, op.upd), t);
    case BeginSeq => BeginSeqKeeps(s, t);
    case Active => ActiveKeeps(s, t, op);
    case Loaded(_, _) => LoadSeqKeeps(s, t);
    case StoreSeq(_, _, _) => StoreCasKeeps(s, t);
    case StoreMain(_, _) => StoreMainKeeps(s, t);
    case Validate(_) => ValidateKeeps(s, t);
    case ApplyBack(_) => ApplyBackKeeps(s, t);
    case Rollback(_) => RollbackKeeps(s, t);
    case Unlock(_, _) => UnlockKeeps(s, t);
    case CommitFaa => CommitFaaKeeps(s, t);
    case CommitSeq => PutNextKeeps(s, t, CommitSync);
    case CommitSync => SyncKeeps(s, t);
    case AbortFaa => AbortFaaKeeps(s, t);
    case AbortSeq => PutNextKeeps(s, t, AbortSync);
    case AbortSync => AbortSyncKeeps(s, t);
  }

  lemma ActionKeeps(s: State, act: Action)
    requires Inv(s) && Enabled(s, act)
    ensures Inv(Apply(s, act))
  {
    match act
    case Step(t, op) => StepKeeps(s, t, op);
    case Crash(ci, qi) =>
      if s.mode.Running? { CrashKeeps(s, ci, qi); } else { CrashAgainKeeps(s, ci, qi); }
    case Recover =>
      if s.mode.p < |s.cells| { RecoverStoreKeeps(s); } else { RecoverEndKeeps(s); }
  }

  lemma {:induction false} RunKeeps(s: State, acts: seq<Action>)
    requires Inv(s) && Run(s, acts)
    ensures Inv(After(s, acts))
    decreases |acts|
  {
    if acts != [] {
      ActionKeeps(s, acts[0]);
      RunKeeps(Apply(s, acts[0]), acts[1..]);
    }
  }

  // ---------- the theorems ----------

  ghost predicate Reachable(s: State) {
    exists n: nat, m: nat, acts: seq<Action> :: Run(Init(n, m), acts) && After(Init(n, m), acts) == s
  }

  lemma ReachableInv(s: State)
    requires Reachable(s)
    ensures Inv(s)
  {
    var n: nat, m: nat, acts: seq<Action> :| Run(Init(n, m), acts) && After(Init(n, m), acts) == s;
    InitKeeps(n, m);
    RunKeeps(Init(n, m), acts);
  }

  /**
    Committed transactions are serializable in the order they started validating, and memory
    agrees: every unlocked cell holds what running them one after the other leaves there.
  */
  lemma Serializability(s: State)
    requires Reachable(s)
    ensures forall k, a | 0 <= k < |s.txs| && Committed(s.txs[k]) && a in s.txs[k].rd ::
      s.txs[k].rd[a] == Replay(s.txs, k, a)
    ensures s.mode.Running? ==> forall a | 0 <= a < |s.cells| ::
      |s.cells[a].hist| > 0 && (!Cur(s.cells[a]).lseq.locked ==> Cur(s.cells[a]).main == Replay(s.txs, |s.txs|, a))
  {
    ReachableInv(s);
    if s.mode.Running? {
      forall a | 0 <= a < |s.cells| && !Cur(s.cells[a]).lseq.locked
        ensures Cur(s.cells[a]).main == Replay(s.txs, |s.txs|, a)
      {
        UnlockedValue(s, a);
      }
    }
  }

  lemma AcceptedResult(s: State, t: nat)
    requires InvRunning(s) && CanStep(s, t, Go) && s.threads[t].pc.Loaded? && !LoadAborts(s, t)
    ensures var th := s.threads[t];
      th.pos <= |s.txs|
      && th.pc.lval == if th.pc.la in th.wr then th.wr[th.pc.la] else Replay(s.txs, th.pos, th.pc.la)
  {
    ThreadFactsFromInv(s, t);
    var a := s.threads[t].pc.la;
    HeldIsLog(s.threads[t]);
    if Cur(s.cells[a]).lseq.locked {
      assert LoadStable(s, t, a);
      assert LockOk(s, a);
    } else {
      assert Holds(s.threads[t], a) ==> LockedBy(s, t, a);
      AcceptedLoad(s, t);
    }
  }

  /**
    Opacity: a pload that does not abort returns the transaction's own last store to the cell,
    or else the value of the sequential state fixed when the transaction began, whether or not
    it will commit.
  */
  lemma PloadResult(s: State, t: nat)
    requires Reachable(s) && CanStep(s, t, Go) && s.threads[t].pc.Loaded? && !LoadAborts(s, t)
    ensures var th := s.threads[t];
      th.pos <= |s.txs|
      && th.pc.lval == if th.pc.la in th.wr then th.wr[th.pc.la] else Replay(s.txs, th.pos, th.pc.la)
  {
    ReachableInv(s);
    AcceptedResult(s, t);
  }

  /** The snapshot does not move: later steps of any thread leave what was read valid. */
  lemma SnapshotHolds(s: State, t: nat, a: Addr)
    requires Reachable(s) && s.mode.Running? && t < |s.threads| && !s.threads[t].pc.Idle? && a in s.threads[t].rd
    ensures s.threads[t].pos <= |s.txs| && s.threads[t].rd[a] == Replay(s.txs, s.threads[t].pos, a)
  {
    ReachableInv(s);
  }

  /**
    In terms of the clock: among the durable writers of a cell that t has read, those in t's
    snapshot are exactly those with a commit clock up to rClock, and clocks grow along the order;
    so the value read is that of the writer with the largest commit clock not above rClock.
  */
  lemma SnapshotByClock(s: State, t: nat, a: Addr, k: nat)
    requires Reachable(s) && s.mode.Running? && t < |s.threads| && !s.threads[t].pc.Idle? && a in s.threads[t].rd
    requires s.epoch <= k < |s.txs| && s.txs[k].st.Durable? && a in s.txs[k].writes
    ensures k < s.threads[t].pos <==> s.txs[k].st.clock <= s.threads[t].rClock
    ensures forall j | s.epoch <= j < k && s.txs[j].st.Durable? && a in s.txs[j].writes ::
      s.txs[j].st.clock < s.txs[k].st.clock
  {
    ReachableInv(s);
    if k >= s.threads[t].pos {
      assert ClockOf(s.txs[k]) > s.threads[t].rClock;
    } else {
      assert ClockOf(s.txs[k]) <= s.threads[t].rClock;
    }
    forall j | s.epoch <= j < k && s.txs[j].st.Durable? && a in s.txs[j].writes
      ensures s.txs[j].st.clock < s.txs[k].st.clock
    {
      assert ClockOf(s.txs[j]) < ClockOf(s.txs[k]);
    }
  }

  // ---------- crashes ----------

  /** Actions of recover() and crashes of it, until it is done. */
  ghost predicate RecoveryRun(s: State, acts: seq<Action>)
    decreases |acts|
  {
    acts == [] || (s.mode.Recovering? && !acts[0].Step? && Enabled(s, acts[0]) && RecoveryRun(Apply(s, acts[0]), acts[1..]))
  }

  lemma {:induction false} RecoveryRunIsRun(s: State, acts: seq<Action>)
    requires RecoveryRun(s, acts)
    ensures Run(s, acts)
    decreases |acts|
  {
    if acts != [] {
      RecoveryRunIsRun(Apply(s, acts[0]), acts[1..]);
    }
  }

  /** However often recovery is interrupted, it arrives at the same cells. */
  lemma {:induction false} RecoveryOutcome(s: State, acts: seq<Action>)
    requires InvRecovering(s) && RecoveryRun(s, acts) && Run(s, acts)
    ensures var r := After(s, acts);
      && r.txs == s.txs && |r.cells| == |s.cells|
      && (r.mode.Running? ==>
           InvRunning(r)
           && forall a | 0 <= a < |s.cells| :: Cur(r.cells[a]) == RecCell(s.cells[a].hist[0], Tops(s.pseq)))
    decreases |acts|
  {
    if acts != [] {
      var n := Apply(s, acts[0]);
      match acts[0]
      case Crash(ci, qi) =>
        CrashAgainKeeps(s, ci, qi);
        RecoveryOutcome(n, acts[1..]);
      case Recover =>
        if s.mode.p < |s.cells| {
          RecoverStoreKeeps(s);
          RecoveryOutcome(n, acts[1..]);
        } else {
          RecoverEndKeeps(s);
          assert acts[1..] == [];
        }
    }
  }

  /**
    Crash atomicity: whatever prefixes of the stores survive a crash, and however often
    recover() is interrupted, it leaves every cell unlocked with main == back equal to the
    surviving transactions run one after the other.  Of the transactions in flight each one
    survives or leaves no trace, by its own persisted p_seq; the durable ones all survive.
  */
  lemma CrashAtomicity(s: State, ci: seq<nat>, qi: seq<nat>, acts: seq<Action>)
    requires Reachable(s) && s.mode.Running? && CrashChoice(s, ci, qi)
    requires RecoveryRun(DoCrash(s, ci, qi), acts) && Run(DoCrash(s, ci, qi), acts)
    requires After(DoCrash(s, ci, qi), acts).mode.Running?
    ensures var r := After(DoCrash(s, ci, qi), acts);
      && r.txs == Settle(s.txs, CrashSeqs(s, qi))
      && (forall k | 0 <= k < |s.txs| :: s.txs[k].st.Durable? ==> r.txs[k] == s.txs[k])
      && (forall k | 0 <= k < |s.txs| :: r.txs[k].st.Durable? || r.txs[k].st.Aborted?)
      && (forall k, a | 0 <= k < |r.txs| && r.txs[k].st.Durable? && a in r.txs[k].rd :: r.txs[k].rd[a] == Replay(r.txs, k, a))
      && |r.cells| == |s.cells|
      && (forall a | 0 <= a < |r.cells| :: |r.cells[a].hist| > 0
            && !Cur(r.cells[a]).lseq.locked
            && Cur(r.cells[a]).main == Cur(r.cells[a]).back == Replay(r.txs, |r.txs|, a)
            && Cur(r.cells[a]).lseq.sq <= r.gClock
            && Cur(r.cells[a]) == RecCell(s.cells[a].hist[ci[a]], CrashSeqs(s, qi)))
  {
    hide After, Apply;
    ReachableInv(s);
    var c := DoCrash(s, ci, qi);
    CrashKeeps(s, ci, qi);
    CrashIsImage(s, ci, qi);
    RecoveryOutcome(c, acts);
    var r := After(c, acts);
    forall a | 0 <= a < |r.cells|
      ensures |r.cells[a].hist| > 0 && !Cur(r.cells[a]).lseq.locked
      ensures Cur(r.cells[a]).main == Cur(r.cells[a]).back == Replay(r.txs, |r.txs|, a)
    {
      assert Cur(r.cells[a]) == RecCell(c.cells[a].hist[0], Tops(c.pseq));
      UnlockedValue(r, a);
    }
  }

  /** What endTx has made durable stays so, at the same place in the order. */
  ghost predicate KeepsDurable(s: State, s': State) {
    && |s.txs| <= |s'.txs|
    && forall k | 0 <= k < |s.txs| && s.txs[k].st.Durable? :: s'.txs[k] == s.txs[k]
  }

  lemma ActionKeepsDurable(s: State, act: Action)
    requires Inv(s) && Enabled(s, act)
    ensures KeepsDurable(s, Apply(s, act))
  {
    hide Seqs, Threads, LogOk, InvReads, InvTxs, InvPersist, LoadAborts, LoadsOk, Persist, Locks, Shape, OpenVersion;
    if act.Step? {
      assert RecOfThread(s, act.t);
    }
  }

  lemma {:induction false} RunKeepsDurable(s: State, acts: seq<Action>)
    requires Inv(s) && Run(s, acts)
    ensures KeepsDurable(s, After(s, acts))
    decreases |acts|
  {
    if acts != [] {
      ActionKeeps(s, acts[0]);
      ActionKeepsDurable(s, acts[0]);
      RunKeepsDurable(Apply(s, acts[0]), acts[1..]);
    }
  }

  /** When endTx unlocks to return true, its transaction is in every later state, crashes included. */
  lemma CommittedForever(s: State, t: nat, acts: seq<Action>)
    requires Reachable(s) && s.mode.Running? && t < |s.threads|
    requires s.threads[t].pc.Unlock? && s.threads[t].pc.commit
    requires Run(s, acts)
    ensures var th, r := s.threads[t], After(s, acts);
      && th.rec < |r.txs|
      && r.txs[th.rec] == Tx(t, th.rClock, th.rd, th.wr, Durable(th.nextClock))
  {
    ReachableInv(s);
    assert RecOfThread(s, t);
    RunKeepsDurable(s, acts);
  }
}
