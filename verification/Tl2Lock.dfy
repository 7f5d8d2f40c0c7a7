/** The CAS of pstore: a fence, then the lock. */
module Tl2Lock {
  import opened Tl2Model
  import opened Tl2Inv
  import opened Tl2Local
  import opened Tl2Soft
  import opened Tl2Steps
  import opened Tl2Reads

  /** What the fence of thread t makes durable. */
  function Raise(s: State, t: nat): State
    requires t < |s.threads| == |s.pseq|
  {
    s.(cells := FenceCells(s.cells, s.threads[t].marks), pseq := s.pseq[t := FenceSeq(s.pseq[t])])
  }

  lemma RaiseStep(s: State, t: nat)
    requires Shape(s) && ThreadFacts(s, t) && s.threads[t].pc.StoreSeq?
    ensures SoftStep(s, Raise(s, t), t)
  {
    hide Ok;
  }

  lemma RaiseKeeps(s: State, t: nat)
    requires InvRunning(s) && t < |s.threads| && s.threads[t].pc.StoreSeq?
    ensures InvRunning(Raise(s, t))
  {
    var s' := Raise(s, t);
    ThreadFactsFromInv(s, t);
    RaiseStep(s, t);
    forall a: nat, i | a < |s.cells| && s'.cells[a].lo <= i < |s.cells[a].hist| ensures VersionKept(s, s', a, i) {
    }
    SoftKeeps(s, s', t);
  }

  // ---------- taking the lock ----------

  function LockCell(s: State, t: nat): State
    requires t < |s.threads| && s.threads[t].pc.StoreSeq? && s.threads[t].pc.sa < |s.cells|
    requires |s.cells[s.threads[t].pc.sa].hist| > 0
  {
    var th := s.threads[t];
    SetT(PutCell(s, th.pc.sa, Cur(s.cells[th.pc.sa]).(lseq := Lseq(true, t, th.rClock))), t,
         th.(pc := StoreMain(th.pc.sa, th.pc.sv), log := th.log + [th.pc.sa], marks := map[]))
  }

  /** The lock word pstore read is still there, and its own p_seq is durable. */
  ghost predicate CanLock(s: State, t: nat) {
    && Shape(s) && t < |s.threads| && s.threads[t].pc.StoreSeq? && s.threads[t].pc.sa < |s.cells|
    && !s.threads[t].pc.sl.locked && Cur(s.cells[s.threads[t].pc.sa]).lseq == s.threads[t].pc.sl
    && s.pseq[t].lo == |s.pseq[t].hist| - 1
  }

  lemma LockLog(s: State, t: nat)
    requires InvCells(s) && CanLock(s, t)
    ensures LogOk(LockCell(s, t), LockCell(s, t).threads[t])
    ensures forall b: Addr :: Holds(LockCell(s, t).threads[t], b) <==> Holds(s.threads[t], b) || b == s.threads[t].pc.sa
    ensures !Holds(s.threads[t], s.threads[t].pc.sa)
  {
    var th := s.threads[t];
    var a := th.pc.sa;
    assert LogOk(s, th);
    assert Holds(th, a) ==> LockedBy(s, t, a);
    HeldIsLog(th);
    HeldIsLog(LockCell(s, t).threads[t]);
  }

  lemma LockLocks(s: State, t: nat)
    requires InvCells(s) && Persist(s) && CanLock(s, t) && Local(s, LockCell(s, t), t)
    ensures Locks(LockCell(s, t))
  {
    hide Holds;
    var s' := LockCell(s, t);
    var th, th' := s.threads[t], s'.threads[t];
    var a := th.pc.sa;
    LockLog(s, t);
    UnlockedValue(s, a);
    forall b: Addr | Holds(th', b) ensures LockedBy(s', t, b) {
      if b != a {
        assert LockedBy(s, t, b);
      }
    }
    forall b: Addr | LockedBy(s', t, b) ensures LockOk(s', b) {
      assert LockOk(s, b);
    }
    LocalLocks(s, s', t);
  }

  lemma LockPersist(s: State, t: nat)
    requires InvCells(s) && Persist(s) && CanLock(s, t) && Local(s, LockCell(s, t), t)
    ensures Persist(LockCell(s, t))
  {
    var s' := LockCell(s, t);
    var a := s.threads[t].pc.sa;
    UnlockedValue(s, a);
    forall b, i | 0 <= b < |s.cells| && s.cells[b].lo <= i < |s.cells[b].hist| ensures KeepsOpen(s, s', t, b, i) {
    }
    LocalPersist(s, s', t);
  }

  lemma LockVersions(s: State, t: nat)
    requires InvCells(s) && Versions(s) && CanLock(s, t) && Local(s, LockCell(s, t), t)
    ensures Versions(LockCell(s, t))
  {
    assert LogOk(s, s.threads[t]);
    LocalVersions(s, LockCell(s, t), t);
  }

  lemma LockReads(s: State, t: nat)
    requires InvReads(s) && CanLock(s, t) && Local(s, LockCell(s, t), t)
    ensures InvReads(LockCell(s, t))
  {
    var s' := LockCell(s, t);
    ThreadReadsFromInv(s, t);
    forall b <- s'.threads[t].rd ensures ReadOk(s', t, b) {
      assert ReadOk(s, t, b);
    }
    LocalReads(s, s', t);
  }

  lemma LockKeeps(s: State, t: nat)
    requires InvRunning(s) && CanLock(s, t)
    ensures InvRunning(LockCell(s, t))
  {
    hide LogOk, ValidatedOk;
    var s' := LockCell(s, t);
    assert Local(s, s', t);
    LocalShape(s, s', t);
    LockLog(s, t);
    LocalThreads(s, s', t);
    LocalSeqs(s, s', t);
    LocalRecs(s, s', t);
    LockLocks(s, t);
    LockPersist(s, t);
    LocalDoubt(s, s', t);
    LockVersions(s, t);
    LocalTxs(s, s', t);
    LockReads(s, t);
  }

  lemma CasKeeps(s: State, t: nat)
    requires InvRunning(s) && CanStep(s, t, Go) && s.threads[t].pc.StoreSeq?
    requires !s.threads[t].pc.sl.locked && !CasFails(s, t)
    ensures InvRunning(DoStoreCas(s, t))
  {
    hide InvPersist;
    var r := Raise(s, t);
    assert LogOk(s, s.threads[t]);
    RaiseKeeps(s, t);
    LockKeeps(r, t);
    assert DoStoreCas(s, t) == LockCell(r, t);
  }
}
