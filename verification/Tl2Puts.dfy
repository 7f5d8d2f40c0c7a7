/** Steps of TrinityTL2 that store to one cell the thread has locked. */
module Tl2Puts {
  import opened Tl2Model
  import opened Tl2Inv
  import opened Tl2Local
  import opened Tl2Soft
  import opened Tl2Steps

  /** Thread t's obligations when it stores a new version of cell a, which it has locked. */
  ghost predicate PutThread(s: State, s': State, t: nat, a: Addr) {
    && Shape(s) && Local(s, s', t) && LockedBy(s, t, a)
    && (forall b: nat | b < |s.cells| && b != a :: s'.cells[b] == s.cells[b])
    && s'.cells[a] == Put(s.cells[a], Cur(s'.cells[a]))
    && var th, th', c, c' := s.threads[t], s'.threads[t], Cur(s.cells[a]), Cur(s'.cells[a]);
    && LogOk(s', th') && ClocksOk(s', th') && SeqOk(th', s'.pseq[t]) && RecOfThread(s', t)
    && !Doubt(th.pc) && !Doubt(th'.pc) && !AbortPost(th.pc) && !AbortPost(th'.pc)
    && !th.pc.Validate? && !th.pc.CommitFaa? && !th'.pc.Validate? && !th'.pc.CommitFaa?
    && (((Pre(th.pc) || Rolling(th.pc)) && (Pre(th'.pc) || Rolling(th'.pc))) || (Done(th.pc) && Done(th'.pc)))
    && th'.rClock == th.rClock && th'.nextClock == th.nextClock && ThreadReadsOk(s', t)
    && (forall b: Addr | Holds(th', b) :: Holds(th, b) && (b == a ==> c'.lseq.locked))
    && (forall b: Addr | Holds(th, b) && (b == a ==> c'.lseq.locked) :: Holds(th', b))
    && (c'.lseq == c.lseq || (Done(th.pc) && c'.lseq == Lseq(false, t, th.nextClock)))
  }

  /** What the owner guaranteed about cell b, it still guarantees. */
  ghost predicate CellKept(s: State, s': State, t: nat, a: Addr, b: Addr, v: Val)
    requires t < |s.threads| == |s'.threads| && b < |s.cells| == |s'.cells|
    requires |s.cells[b].hist| > 0 && |s'.cells[b].hist| > 0
  {
    var th, th', c, c' := s.threads[t], s'.threads[t], Cur(s.cells[b]), Cur(s'.cells[b]);
    Holds(th, b) && OwnedOk(th, b, c, v) ==>
      && (c'.lseq.locked ==> OwnedOk(th', b, c', v))
      && (!c'.lseq.locked ==> c'.main == c'.back == v)
      && (Done(th.pc) ==> c'.main == c.main)
  }

  ghost predicate PutValues(s: State, s': State, t: nat, a: Addr)
    requires PutThread(s, s', t, a)
  {
    forall b: Addr, v: Val | LockedBy(s, t, b) :: CellKept(s, s', t, a, b, v)
  }

  lemma PutLocks(s: State, s': State, t: nat, a: Addr)
    requires Locks(s) && PutThread(s, s', t, a) && PutValues(s, s', t, a)
    ensures Locks(s')
  {
    assert LockOk(s, a);
    forall b: Addr | LockedBy(s', t, b) ensures LockOk(s', b) {
      assert LockOk(s, b);
      assert CellKept(s, s', t, a, b, Replay(s.txs, |s.txs|, b));
    }
    forall b: Addr | Holds(s'.threads[t], b) ensures LockedBy(s', t, b) {
      assert LockedBy(s, t, b);
    }
    LocalLocks(s, s', t);
  }

  lemma PutPersist(s: State, s': State, t: nat, a: Addr)
    requires Locks(s) && Persist(s) && PutThread(s, s', t, a) && PutValues(s, s', t, a)
    ensures Persist(s')
  {
    hide Replay;
    var th, th' := s.threads[t], s'.threads[t];
    forall b, i | 0 <= b < |s.cells| && s.cells[b].lo <= i < |s.cells[b].hist| ensures KeepsOpen(s, s', t, b, i) {
      var h := s.cells[b].hist;
      if h[i].lseq.locked && h[i].lseq.tid == t && h[|h| - 1].lseq == h[i].lseq {
        assert LockOk(s, b);
      }
    }
    assert LockOk(s, a);
    assert CellKept(s, s', t, a, a, Replay(s.txs, |s.txs|, a));
    LocalPersist(s, s', t);
  }

  lemma PutVersions(s: State, s': State, t: nat, a: Addr)
    requires Locks(s) && Versions(s) && PutThread(s, s', t, a)
    ensures Versions(s')
  {
    forall b | 0 <= b < |s.cells| && (s'.cells[b] != s.cells[b] || LockedBy(s, t, b))
      ensures Bound(s', Cur(s'.cells[b])) >= Bound(s, Cur(s.cells[b]))
      ensures !Cur(s'.cells[b]).lseq.locked ==> Cur(s'.cells[b]).lseq.sq <= s.gClock
    {
      assert LockOk(s, b);
    }
    LocalVersions(s, s', t);
  }

  lemma PutReads(s: State, s': State, t: nat, a: Addr)
    requires Locks(s) && InvReads(s) && PutThread(s, s', t, a) && PutValues(s, s', t, a)
    ensures InvReads(s')
  {
    forall u, b | 0 <= u < |s.threads| && u != t && 0 <= b < |s.cells| && LoadStable(s', u, b)
      ensures LoadStable(s, u, b) && Cur(s'.cells[b]).main == Cur(s.cells[b]).main
    {
      assert LockOk(s, b);
      if LockedBy(s, t, b) {
        assert CellKept(s, s', t, a, b, Replay(s.txs, |s.txs|, b));
      }
    }
    LocalReads(s, s', t);
  }

  lemma PutKeeps(s: State, s': State, t: nat, a: Addr)
    requires InvRunning(s) && PutThread(s, s', t, a) && PutValues(s, s', t, a)
    ensures InvRunning(s')
  {
    LocalShape(s, s', t);
    LocalThreads(s, s', t);
    LocalSeqs(s, s', t);
    LocalRecs(s, s', t);
    PutLocks(s, s', t, a);
    PutPersist(s, s', t, a);
    LocalDoubt(s, s', t);
    PutVersions(s, s', t, a);
    LocalTxs(s, s', t);
    PutReads(s, s', t, a);
  }

  lemma StoreMainStep(s: State, t: nat)
    requires CanStep(s, t, Go) && s.threads[t].pc.StoreMain? && ThreadFacts(s, t)
    requires LockedBy(s, t, s.threads[t].pc.wa)
    ensures PutThread(s, DoStoreMain(s, t), t, s.threads[t].pc.wa)
  {
    hide LoadStable, Holds;
    var s' := DoStoreMain(s, t);
    HeldIsLog(s.threads[t]);
    HeldIsLog(s'.threads[t]);
  }

  lemma StoreMainValues(s: State, t: nat)
    requires CanStep(s, t, Go) && s.threads[t].pc.StoreMain? && ThreadFacts(s, t)
    requires LockedBy(s, t, s.threads[t].pc.wa)
    requires PutThread(s, DoStoreMain(s, t), t, s.threads[t].pc.wa)
    ensures PutValues(s, DoStoreMain(s, t), t, s.threads[t].pc.wa)
  {
    var s' := DoStoreMain(s, t);
    forall b: Addr, v: Val | LockedBy(s, t, b) ensures CellKept(s, s', t, s.threads[t].pc.wa, b, v) {
    }
  }

  lemma ApplyBackStep(s: State, t: nat)
    requires CanStep(s, t, Go) && s.threads[t].pc.ApplyBack? && ThreadFacts(s, t)
    requires s.threads[t].pc.bi < |s.threads[t].log| && LockedBy(s, t, s.threads[t].log[s.threads[t].pc.bi])
    ensures PutThread(s, DoApplyBack(s, t), t, s.threads[t].log[s.threads[t].pc.bi])
  {
    hide LoadStable, Holds, Mid, Replay;
    var s' := DoApplyBack(s, t);
    HeldIsLog(s.threads[t]);
    HeldIsLog(s'.threads[t]);
  }

  lemma ApplyBackValues(s: State, t: nat)
    requires CanStep(s, t, Go) && s.threads[t].pc.ApplyBack? && ThreadFacts(s, t)
    requires s.threads[t].pc.bi < |s.threads[t].log| && LockedBy(s, t, s.threads[t].log[s.threads[t].pc.bi])
    requires PutThread(s, DoApplyBack(s, t), t, s.threads[t].log[s.threads[t].pc.bi])
    ensures PutValues(s, DoApplyBack(s, t), t, s.threads[t].log[s.threads[t].pc.bi])
  {
    var s' := DoApplyBack(s, t);
    forall b: Addr, v: Val | LockedBy(s, t, b) ensures CellKept(s, s', t, s.threads[t].log[s.threads[t].pc.bi], b, v) {
    }
  }

  lemma RollbackStep(s: State, t: nat)
    requires CanStep(s, t, Go) && s.threads[t].pc.Rollback? && ThreadFacts(s, t)
    requires s.threads[t].pc.ri < |s.threads[t].log| && LockedBy(s, t, s.threads[t].log[s.threads[t].pc.ri])
    ensures PutThread(s, DoRollback(s, t), t, s.threads[t].log[s.threads[t].pc.ri])
  {
    hide Mid;
    var s' := DoRollback(s, t);
    HeldIsLog(s.threads[t]);
    HeldIsLog(s'.threads[t]);
  }

  lemma RollbackValues(s: State, t: nat)
    requires CanStep(s, t, Go) && s.threads[t].pc.Rollback? && ThreadFacts(s, t)
    requires s.threads[t].pc.ri < |s.threads[t].log| && LockedBy(s, t, s.threads[t].log[s.threads[t].pc.ri])
    requires PutThread(s, DoRollback(s, t), t, s.threads[t].log[s.threads[t].pc.ri])
    ensures PutValues(s, DoRollback(s, t), t, s.threads[t].log[s.threads[t].pc.ri])
  {
    var s' := DoRollback(s, t);
    forall b: Addr, v: Val | LockedBy(s, t, b) ensures CellKept(s, s', t, s.threads[t].log[s.threads[t].pc.ri], b, v) {
    }
  }

  lemma UnlockStep(s: State, t: nat)
    requires CanStep(s, t, Go) && s.threads[t].pc.Unlock? && ThreadFacts(s, t)
    requires s.threads[t].pc.ui < |s.threads[t].log| && LockedBy(s, t, s.threads[t].log[s.threads[t].pc.ui])
    ensures PutThread(s, DoUnlock(s, t), t, s.threads[t].log[s.threads[t].pc.ui])
  {
    var s' := DoUnlock(s, t);
  }

  lemma UnlockValues(s: State, t: nat)
    requires CanStep(s, t, Go) && s.threads[t].pc.Unlock? && ThreadFacts(s, t)
    requires s.threads[t].pc.ui < |s.threads[t].log| && LockedBy(s, t, s.threads[t].log[s.threads[t].pc.ui])
    requires PutThread(s, DoUnlock(s, t), t, s.threads[t].log[s.threads[t].pc.ui])
    ensures PutValues(s, DoUnlock(s, t), t, s.threads[t].log[s.threads[t].pc.ui])
  {
    var s' := DoUnlock(s, t);
    forall b: Addr, v: Val | LockedBy(s, t, b) ensures CellKept(s, s', t, s.threads[t].log[s.threads[t].pc.ui], b, v) {
    }
  }
}
