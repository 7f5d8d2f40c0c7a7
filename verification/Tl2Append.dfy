/** endTx of a transaction with stores: its record takes its place in the order. */
module Tl2Append {
  import opened Tl2Model
  import opened Tl2Inv
  import opened Tl2Local
  import opened Tl2Steps
  import opened Tl2Reads
  import opened Tl2Commit

  ghost predicate Appends(s: State, s': State, t: nat) {
    && CanStep(s, t, End) && s.threads[t].pc.Active? && s.threads[t].log != []
    && s' == DoEnd(s, t)
  }

  lemma AppendReplay(s: State, s': State, t: nat, k: nat, a: Addr)
    requires Appends(s, s', t) && k <= |s.txs|
    ensures Replay(s'.txs, k, a) == Replay(s.txs, k, a)
    ensures Replay(s'.txs, |s'.txs|, a) == Replay(s.txs, |s.txs|, a)
  {
    ReplayFrame(s.txs, s'.txs, k, a);
    ReplayFrame(s.txs, s'.txs, |s.txs|, a);
  }

  lemma AppendLocks(s: State, s': State, t: nat)
    requires Appends(s, s', t) && Locks(s)
    ensures Locks(s')
  {
    HeldIsLog(s.threads[t]);
    HeldIsLog(s'.threads[t]);
    forall a | 0 <= a < |s'.cells| ensures LockOk(s', a) {
      assert LockOk(s, a);
      AppendReplay(s, s', t, |s.txs|, a);
    }
    forall u, a: Addr | 0 <= u < |s'.threads| && Holds(s'.threads[u], a) ensures LockedBy(s', u, a) {
      assert Holds(s.threads[u], a);
    }
  }

  lemma AppendThreads(s: State, s': State, t: nat)
    requires Appends(s, s', t) && Threads(s)
    ensures Threads(s')
  {
    assert LogOk(s', s'.threads[t]);
    forall u | 0 <= u < |s'.threads| && !s'.threads[u].pc.Idle?
      ensures LogOk(s', s'.threads[u]) && ClocksOk(s', s'.threads[u])
    {
    }
  }

  lemma AppendRecs(s: State, s': State, t: nat)
    requires Appends(s, s', t) && Threads(s) && Recs(s)
    ensures Recs(s')
  {
    forall u | 0 <= u < |s'.threads| ensures RecOfThread(s', u) {
      assert RecOfThread(s, u);
    }
  }

  lemma AppendCells(s: State, s': State, t: nat)
    requires Appends(s, s', t) && InvCells(s)
    ensures InvCells(s')
  {
    AppendThreads(s, s', t);
    AppendRecs(s, s', t);
    AppendLocks(s, s', t);
  }

  lemma AppendPersist(s: State, s': State, t: nat)
    requires Appends(s, s', t) && InvPersist(s)
    ensures InvPersist(s')
  {
    forall a | 0 <= a < |s'.cells| ensures CellPersist(s', a) {
      assert CellPersist(s, a);
      AppendReplay(s, s', t, |s.txs|, a);
      var h := s.cells[a].hist;
      forall i | s'.cells[a].lo <= i < |h|
        ensures VersionOk(s', h[i], h[|h| - 1], i == |h| - 1, Replay(s'.txs, |s'.txs|, a))
      {
        assert VersionOk(s, h[i], h[|h| - 1], i == |h| - 1, Replay(s.txs, |s.txs|, a));
      }
    }
    forall u, a: Addr | 0 <= u < |s'.threads| && Doubt(s'.threads[u].pc) && a in s'.threads[u].log
      ensures a < |s'.cells| && s'.cells[a].lo == |s'.cells[a].hist| - 1
    {
      assert u != t && s'.threads[u] == s.threads[u];
      assert Doubt(s.threads[u].pc) && a in s.threads[u].log;
    }
    forall a, k | 0 <= a < |s'.cells| && s'.epoch <= k < |s'.txs| && s'.txs[k].st.Durable? && a in s'.txs[k].writes
      ensures ClockOf(s'.txs[k]) <= Bound(s', Cur(s'.cells[a]))
    {
      assert Bound(s', Cur(s'.cells[a])) == Bound(s, Cur(s.cells[a]));
    }
  }

  /** Whoever else writes one of its cells has left: the cell is locked by t. */
  lemma AppendWriters(s: State, s': State, t: nat)
    requires Appends(s, s', t) && InvCells(s) && WritersSettle(s.txs)
    ensures WritersSettle(s'.txs)
  {
    var n := |s.txs|;
    assert LogOk(s, s.threads[t]);
    HeldIsLog(s.threads[t]);
    forall a: Addr | a in s.threads[t].log ensures LockedBy(s, t, a) {
      assert Holds(s.threads[t], a);
    }
    forall j, k, a | 0 <= j < k < |s'.txs| && a in s'.txs[j].writes && a in s'.txs[k].writes ensures !Unsettled(s'.txs[j]) {
      if k == n && Unsettled(s.txs[j]) {
        UnsettledLocked(s, j, a);
      }
    }
  }

  lemma AppendTxs(s: State, s': State, t: nat)
    requires Appends(s, s', t) && InvCells(s) && InvTxs(s)
    ensures InvTxs(s')
  {
    hide CanStep;
    AppendWriters(s, s', t);
    AppendSerial(s, s', t);
    AppendEntries(s, s', t);
  }

  lemma AppendSerial(s: State, s': State, t: nat)
    requires Appends(s, s', t) && Serial(s.txs) && SerialStable(s.txs)
    ensures Serial(s'.txs) && SerialStable(s'.txs)
  {
    forall k, a | 0 <= k < |s'.txs| && Committed(s'.txs[k]) && a in s'.txs[k].rd
      ensures s'.txs[k].rd[a] == Replay(s'.txs, k, a)
    {
      AppendReplay(s, s', t, k, a);
    }
  }

  lemma AppendEntries(s: State, s': State, t: nat)
    requires Appends(s, s', t) && ValidatedOk(s)
    ensures ValidatedOk(s')
  {
    forall u, a: Addr | 0 <= u < |s'.threads| && Validated(s'.threads[u], a) ensures ValidatedEntryOk(s', u, a) {
      assert Validated(s.threads[u], a);
      AppendReplay(s, s', t, s.threads[u].rec, a);
    }
    EntriesOk(s');
  }

  lemma AppendReads(s: State, s': State, t: nat)
    requires Appends(s, s', t) && InvReads(s)
    ensures InvReads(s')
  {
    forall u, a: Addr | 0 <= u < |s'.threads| && !s'.threads[u].pc.Idle? && a in s'.threads[u].rd ensures ReadOk(s', u, a) {
      ReadsFromInv(s, u, a);
      AppendReplay(s, s', t, s.threads[u].pos, a);
    }
    ReadsOk(s');
    forall u | 0 <= u < |s'.threads| && s'.threads[u].pc.Loaded?
      ensures var a := s'.threads[u].pc.la;
        a < |s'.cells| && (LoadStable(s', u, a) ==> s'.threads[u].pc.lval == Cur(s'.cells[a]).main)
    {
      assert s.threads[u].pc.la < |s.cells|;
    }
  }

  lemma AppendKeeps(s: State, t: nat)
    requires InvRunning(s) && CanStep(s, t, End) && s.threads[t].pc.Active? && s.threads[t].log != []
    ensures InvRunning(DoEnd(s, t))
  {
    var s' := DoEnd(s, t);
    AppendCells(s, s', t);
    AppendPersist(s, s', t);
    AppendTxs(s, s', t);
    AppendReads(s, s', t);
  }
}
