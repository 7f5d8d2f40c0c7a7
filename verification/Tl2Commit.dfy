/** Steps of TrinityTL2 on the transaction records: start and failure of validation, commit. */
module Tl2Commit {
  import opened Tl2Model
  import opened Tl2Inv
  import opened Tl2Local
  import opened Tl2Soft
  import opened Tl2Steps

  /** Records with the same durable writes of a replay to the same value of a. */
  lemma {:induction false} ReplayFrame(x: seq<Tx>, y: seq<Tx>, k: nat, a: Addr)
    requires k <= |x| && k <= |y|
    requires forall j | 0 <= j < k ::
      (x[j].st.Durable? && a in x[j].writes) == (y[j].st.Durable? && a in y[j].writes)
      && (x[j].st.Durable? && a in x[j].writes ==> x[j].writes[a] == y[j].writes[a])
    ensures Replay(x, k, a) == Replay(y, k, a)
  {
    if k > 0 {
      ReplayFrame(x, y, k - 1, a);
    }
  }

  /** The thread's record changes status, nothing durable changes. */
  ghost predicate Restatus(s: State, s': State, t: nat) {
    && Shape(s) && t < |s.threads| == |s'.threads|
    && s' == SetT(s, t, s'.threads[t]).(txs := s'.txs)
    && s.threads[t].rec < |s.txs| == |s'.txs|
    && s'.txs == s.txs[s.threads[t].rec := s.txs[s.threads[t].rec].(st := s'.txs[s.threads[t].rec].st)]
    && s.txs[s.threads[t].rec].st.Pending? && s.txs[s.threads[t].rec].tid == t
    && var th, th' := s.threads[t], s'.threads[t];
    && LogOk(s, th') && ClocksOk(s', th') && SeqOk(th', s.pseq[t]) && RecOfThread(s', t)
    && th' == th.(pc := th'.pc, nextClock := th'.nextClock, marks := th'.marks)
    && ((th.pc.Validate? && th'.pc == Rollback(0) && s'.txs[th.rec].st.Aborted?)
        || (th.pc.CommitFaa? && th'.pc.CommitSeq? && s'.txs[th.rec].st == InDoubt(s.gClock) && th'.nextClock == s.gClock
            && (forall u | 0 <= u < |s.threads| && u != t && !s.threads[u].pc.Idle? :: s.threads[u].rClock < s.gClock)
            && th.rClock < s.gClock
            && (forall k | s.epoch <= k < |s.txs| && Committed(s.txs[k]) :: ClockOf(s.txs[k]) < s.gClock)
            && (forall a: Addr | a in th.log :: a < |s.cells| && s.cells[a].lo == |s.cells[a].hist| - 1)))
  }

  lemma RestatusReplay(s: State, s': State, t: nat, k: nat, a: Addr)
    requires Restatus(s, s', t) && k <= |s.txs|
    ensures Replay(s'.txs, k, a) == Replay(s.txs, k, a)
  {
    ReplayFrame(s.txs, s'.txs, k, a);
  }

  lemma RestatusThreads(s: State, s': State, t: nat)
    requires Restatus(s, s', t) && Threads(s)
    ensures Threads(s')
  {
    forall u | 0 <= u < |s'.threads| && !s'.threads[u].pc.Idle?
      ensures LogOk(s', s'.threads[u]) && ClocksOk(s', s'.threads[u])
    {
    }
  }

  lemma RestatusLocks(s: State, s': State, t: nat)
    requires Restatus(s, s', t) && Locks(s)
    ensures Locks(s')
  {
    HeldIsLog(s.threads[t]);
    HeldIsLog(s'.threads[t]);
    forall a | 0 <= a < |s'.cells| ensures LockOk(s', a) {
      assert LockOk(s, a);
      RestatusReplay(s, s', t, |s.txs|, a);
    }
    forall u, a: Addr | 0 <= u < |s'.threads| && Holds(s'.threads[u], a) ensures LockedBy(s', u, a) {
      assert Holds(s.threads[u], a);
    }
  }

  lemma RestatusCells(s: State, s': State, t: nat)
    requires Restatus(s, s', t) && InvCells(s)
    ensures InvCells(s')
  {
    RestatusThreads(s, s', t);
    RestatusLocks(s, s', t);
    RestatusRecs(s, s', t);
  }

  lemma RestatusRecs(s: State, s': State, t: nat)
    requires Restatus(s, s', t) && Recs(s)
    ensures Recs(s')
  {
    forall u | 0 <= u < |s'.threads| ensures RecOfThread(s', u) {
      assert RecOfThread(s, u);
    }
  }

  lemma RestatusVersion(s: State, s': State, t: nat, a: Addr, i: nat)
    requires Restatus(s, s', t) && Locks(s)
    requires a < |s.cells| && s.cells[a].lo <= i < |s.cells[a].hist|
    requires var h := s.cells[a].hist; VersionOk(s, h[i], h[|h| - 1], i == |h| - 1, Replay(s.txs, |s.txs|, a))
    ensures var h := s.cells[a].hist; VersionOk(s', h[i], h[|h| - 1], i == |h| - 1, Replay(s.txs, |s.txs|, a))
  {
    HeldIsLog(s.threads[t]);
    assert LockOk(s, a);
  }

  lemma RestatusPersist(s: State, s': State, t: nat)
    requires Restatus(s, s', t) && InvCells(s) && InvPersist(s)
    ensures InvPersist(s')
  {
    forall a | 0 <= a < |s'.cells| ensures CellPersist(s', a) {
      assert CellPersist(s, a);
      RestatusReplay(s, s', t, |s.txs|, a);
      var h := s.cells[a].hist;
      forall i | s'.cells[a].lo <= i < |h|
        ensures VersionOk(s', h[i], h[|h| - 1], i == |h| - 1, Replay(s'.txs, |s'.txs|, a))
      {
        assert VersionOk(s, h[i], h[|h| - 1], i == |h| - 1, Replay(s.txs, |s.txs|, a));
        RestatusVersion(s, s', t, a, i);
      }
    }
    RestatusVersions(s, s', t);
  }

  lemma RestatusVersions(s: State, s': State, t: nat)
    requires Restatus(s, s', t) && Versions(s)
    ensures Versions(s')
  {
    forall a, k | 0 <= a < |s'.cells| && s'.epoch <= k < |s'.txs| && s'.txs[k].st.Durable? && a in s'.txs[k].writes
      ensures ClockOf(s'.txs[k]) <= Bound(s', Cur(s'.cells[a]))
    {
      assert Bound(s', Cur(s'.cells[a])) == Bound(s, Cur(s.cells[a]));
    }
  }

  lemma RestatusReads(s: State, s': State, t: nat)
    requires Restatus(s, s', t) && InvReads(s)
    ensures InvReads(s')
  {
    hide LogOk, Replay, Snapshots, RecOfThread;
    forall u, a: Addr | 0 <= u < |s'.threads| && !s'.threads[u].pc.Idle? && a in s'.threads[u].rd ensures ReadOk(s', u, a) {
      ReadsFromInv(s, u, a);
      RestatusReplay(s, s', t, s.threads[u].pos, a);
    }
    ReadsOk(s');
    forall u | 0 <= u < |s'.threads| && s'.threads[u].pc.Loaded?
      ensures var a := s'.threads[u].pc.la;
        a < |s'.cells| && (LoadStable(s', u, a) ==> s'.threads[u].pc.lval == Cur(s'.cells[a]).main)
    {
      assert s.threads[u].pc.la < |s.cells|;
    }
  }

  /** A validated transaction read the sequential state at its record. */
  lemma RestatusSerial(s: State, s': State, t: nat)
    requires Restatus(s, s', t) && InvTxs(s) && RecOfThread(s, t) && LogOk(s, s.threads[t])
    ensures Serial(s'.txs) && SerialStable(s'.txs)
  {
    var rec := s.threads[t].rec;
    forall k, a | 0 <= k < |s'.txs| && Committed(s'.txs[k]) && a in s'.txs[k].rd
      ensures s'.txs[k].rd[a] == Replay(s'.txs, k, a)
    {
      RestatusReplay(s, s', t, k, a);
      if k == rec {
        assert s.threads[t].update;
        assert Validated(s.threads[t], a);
      }
    }
    forall j, k, a | 0 <= j < k < |s'.txs| && Unsettled(s'.txs[j]) && Committed(s'.txs[k]) && a in s'.txs[k].rd
      ensures a !in s'.txs[j].writes
    {
      if k == rec {
        assert Validated(s.threads[t], a);
      }
    }
  }

  lemma RestatusTxs(s: State, s': State, t: nat)
    requires Restatus(s, s', t) && InvTxs(s) && RecOfThread(s, t) && LogOk(s, s.threads[t])
    ensures InvTxs(s')
  {
    hide LogOk, Serial, SerialStable, ClocksOk, RecOfThread, Pre, Top, NoDup;
    RestatusSerial(s, s', t);
    forall u, a: Addr | 0 <= u < |s'.threads| && Validated(s'.threads[u], a) ensures ValidatedEntryOk(s', u, a) {
      assert Validated(s.threads[u], a);
      RestatusReplay(s, s', t, s.threads[u].rec, a);
    }
    EntriesOk(s');
  }

  lemma RestatusKeeps(s: State, s': State, t: nat)
    requires Restatus(s, s', t) && InvRunning(s)
    ensures InvRunning(s')
  {
    assert RecOfThread(s, t);
    RestatusCells(s, s', t);
    RestatusPersist(s, s', t);
    RestatusTxs(s, s', t);
    RestatusReads(s, s', t);
  }

  // ---------- validation failure ----------

  lemma ValidateFailKeeps(s: State, t: nat)
    requires InvRunning(s) && CanStep(s, t, Go) && s.threads[t].pc.Validate?
    requires s.threads[t].pc.vi < |s.threads[t].readSet| && ValidateFails(s, t)
    ensures InvRunning(DoValidate(s, t))
  {
    ThreadFactsFromInv(s, t);
    ValidateFailStep(s, t);
    RestatusKeeps(s, DoValidate(s, t), t);
  }

  lemma ValidateFailStep(s: State, t: nat)
    requires CanStep(s, t, Go) && s.threads[t].pc.Validate? && ThreadFacts(s, t)
    requires s.threads[t].pc.vi < |s.threads[t].readSet| && ValidateFails(s, t)
    ensures Restatus(s, DoValidate(s, t), t)
  {
    assert LogOk(s, DoValidate(s, t).threads[t]);
  }

  // ---------- fetch_add of a committing transaction ----------

  /** The fence and the clock of the fetch_add, before the record becomes in doubt. */
  function FaaFence(s: State, t: nat): State
    requires t < |s.threads| == |s.pseq|
  {
    s.(cells := FenceCells(s.cells, s.threads[t].marks), pseq := s.pseq[t := FenceSeq(s.pseq[t])],
       gClock := s.gClock + 1)
  }

  lemma FaaFenceShared(s: State, t: nat)
    requires CanStep(s, t, Go) && s.threads[t].pc.CommitFaa? && ThreadFacts(s, t)
    ensures SoftShared(s, FaaFence(s, t), t)
    ensures forall a: Addr | a in s.threads[t].log ::
      a < |s.cells| && FaaFence(s, t).cells[a].lo == |s.cells[a].hist| - 1
  {
    hide RecOfThread, Holds, LockedBy, Replay, OwnedOk;
  }

  lemma FaaFenceThread(s: State, t: nat)
    requires CanStep(s, t, Go) && s.threads[t].pc.CommitFaa? && ThreadFacts(s, t) && SoftShared(s, FaaFence(s, t), t)
    ensures SoftThread(s, FaaFence(s, t), t)
  {
    HeldIsLog(s.threads[t]);
    HeldIsLog(FaaFence(s, t).threads[t]);
    hide Holds, Shape, SoftShared, Pre;
  }

  lemma FaaFenceStep(s: State, t: nat)
    requires CanStep(s, t, Go) && s.threads[t].pc.CommitFaa? && ThreadFacts(s, t)
    requires forall a: Addr | Validated(s.threads[t], a) :: ValidatedEntryOk(s, t, a)
    ensures SoftStep(s, FaaFence(s, t), t)
    ensures forall a: Addr | a in s.threads[t].log ::
      a < |s.cells| && FaaFence(s, t).cells[a].lo == |s.cells[a].hist| - 1
  {
    FaaFenceShared(s, t);
    FaaFenceThread(s, t);
    hide Pre, Holds, Shape, SoftShared, SoftThread, LogOk, ClocksOk, SeqOk, RecOfThread, LockedBy;
    forall a: Addr | Validated(s.threads[t], a) ensures ValidatedEntryOk(FaaFence(s, t), t, a) {
      assert ValidatedEntryOk(s, t, a);
    }
  }

  lemma FaaFenceKeeps(s: State, t: nat)
    requires InvRunning(s) && CanStep(s, t, Go) && s.threads[t].pc.CommitFaa?
    ensures InvRunning(FaaFence(s, t))
    ensures forall a: Addr | a in s.threads[t].log ::
      a < |s.cells| && FaaFence(s, t).cells[a].lo == |s.cells[a].hist| - 1
  {
    hide LogOk;
    var s' := FaaFence(s, t);
    ThreadFactsFromInv(s, t);
    FaaFenceStep(s, t);
    forall a: nat, i | a < |s.cells| && s'.cells[a].lo <= i < |s.cells[a].hist| ensures VersionKept(s, s', a, i) {
    }
    SoftKeeps(s, s', t);
  }

  lemma CommitFaaStep(s: State, t: nat)
    requires CanStep(s, t, Go) && s.threads[t].pc.CommitFaa? && ThreadFacts(s, t) && Shape(FaaFence(s, t))
    requires Threads(s) && ClocksBounded(s)
    requires forall a: Addr | a in s.threads[t].log ::
      a < |s.cells| && FaaFence(s, t).cells[a].lo == |s.cells[a].hist| - 1
    ensures Restatus(FaaFence(s, t), DoCommitFaa(s, t), t)
  {
    var f, s' := FaaFence(s, t), DoCommitFaa(s, t);
    assert s' == SetT(f, t, s'.threads[t]).(txs := s'.txs);
    assert LogOk(f, s'.threads[t]);
    forall u | 0 <= u < |s.threads| && u != t && !s.threads[u].pc.Idle? ensures s.threads[u].rClock < f.gClock {
      assert ClocksOk(s, s.threads[u]);
    }
  }

  lemma CommitFaaKeeps(s: State, t: nat)
    requires InvRunning(s) && CanStep(s, t, Go) && s.threads[t].pc.CommitFaa?
    ensures InvRunning(DoCommitFaa(s, t))
  {
    ThreadFactsFromInv(s, t);
    FaaFenceKeeps(s, t);
    CommitFaaStep(s, t);
    RestatusKeeps(FaaFence(s, t), DoCommitFaa(s, t), t);
  }
}
