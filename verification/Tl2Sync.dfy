/** The PSYNC of endTx: an in-doubt transaction becomes durable. */
module Tl2Sync {
  import opened Tl2Model
  import opened Tl2Inv
  import opened Tl2Local
  import opened Tl2Steps
  import opened Tl2Reads
  import opened Tl2Commit

  ghost predicate Syncs(s: State, s': State, t: nat) {
    && Shape(s) && t < |s.threads| && s.threads[t].pc.CommitSync? && ThreadFacts(s, t)
    && s' == DoCommitSync(s, t)
    && (forall a: Addr | a in s.threads[t].log :: a < |s.cells| && s.cells[a].lo == |s.cells[a].hist| - 1)
    && WritersSettle(s.txs)
  }

  lemma SyncsHeld(s: State, s': State, t: nat)
    requires Syncs(s, s', t)
    ensures forall a: Addr :: Holds(s'.threads[t], a) <==> Holds(s.threads[t], a)
    ensures forall a: Addr :: Holds(s.threads[t], a) <==> a in s.threads[t].wr
    ensures forall a: nat | a < |s.cells| :: s'.cells[a].hist == s.cells[a].hist && s.cells[a].lo <= s'.cells[a].lo < |s.cells[a].hist|
  {
    HeldIsLog(s.threads[t]);
    HeldIsLog(s'.threads[t]);
  }

  /** Its own cells now replay to its values; nothing else changes. */
  lemma SyncsReplay(s: State, s': State, t: nat, k: nat, a: Addr)
    requires Syncs(s, s', t) && k <= |s.txs|
    ensures a !in s.threads[t].wr || k <= s.threads[t].rec ==> Replay(s'.txs, k, a) == Replay(s.txs, k, a)
    ensures a in s.threads[t].wr && k == |s.txs| ==> Replay(s'.txs, k, a) == s.threads[t].wr[a]
  {
    var rec := s.threads[t].rec;
    if a !in s.threads[t].wr || k <= rec {
      ReplayFrame(s.txs, s'.txs, k, a);
    } else if k == |s.txs| {
      ReplaySkip(s'.txs, rec + 1, |s.txs|, a);
    }
  }

  lemma SyncsLocks(s: State, s': State, t: nat)
    requires Syncs(s, s', t) && Locks(s)
    ensures Locks(s')
  {
    hide Holds, LogOk, Replay, FenceCell;
    SyncsHeld(s, s', t);
    forall a | 0 <= a < |s'.cells| ensures LockOk(s', a) {
      assert LockOk(s, a);
      SyncsReplay(s, s', t, |s.txs|, a);
      if a in s.threads[t].wr {
        assert LockedBy(s, t, a);
      }
    }
    forall u, a: Addr | 0 <= u < |s'.threads| && Holds(s'.threads[u], a) ensures LockedBy(s', u, a) {
      assert Holds(s.threads[u], a);
    }
  }

  /** A log is as good as before in a state with the same histories. */
  lemma LogStays(s: State, s': State, th: Thread)
    requires LogOk(s, th) && |s'.cells| == |s.cells|
    requires forall a: nat | a < |s.cells| :: s'.cells[a].hist == s.cells[a].hist
    ensures LogOk(s', th)
  {
  }

  lemma SyncsOwnThread(s: State, s': State, t: nat)
    requires Syncs(s, s', t)
    ensures LogOk(s', s'.threads[t]) && ClocksOk(s', s'.threads[t])
  {
    SyncsHeld(s, s', t);
    LogStays(s, s', s.threads[t]);
    hide SeqOk, Holds, Replay, LockedBy, SeqShape;
  }

  lemma SyncsOthers(s: State, s': State, t: nat)
    requires Syncs(s, s', t)
    ensures |s'.threads| == |s.threads| == |s'.pseq| && |s'.cells| == |s.cells| && s'.gClock == s.gClock
    ensures s'.epoch == s.epoch && |s'.txs| == |s.txs|
    ensures forall u | 0 <= u < |s.threads| && u != t :: s'.threads[u] == s.threads[u]
    ensures forall a: nat | a < |s.cells| :: s'.cells[a].hist == s.cells[a].hist
  {
    hide LogOk, SeqOk, Holds, Replay, LockedBy, SeqShape;
  }

  lemma SyncsThreads(s: State, s': State, t: nat)
    requires Syncs(s, s', t) && Threads(s)
    ensures Threads(s')
  {
    SyncsOthers(s, s', t);
    SyncsOwnThread(s, s', t);
    hide Syncs, LogOk;
    forall u | 0 <= u < |s'.threads| && !s'.threads[u].pc.Idle?
      ensures LogOk(s', s'.threads[u]) && ClocksOk(s', s'.threads[u])
    {
      if u != t {
        LogStays(s, s', s.threads[u]);
      }
    }
  }

  lemma SyncsShape(s: State, s': State, t: nat)
    requires Syncs(s, s', t) && Shape(s) && Seqs(s)
    ensures Shape(s') && Seqs(s')
  {
    SyncsHeld(s, s', t);
    hide LogOk, Holds, Replay;
  }

  lemma SyncsCells(s: State, s': State, t: nat)
    requires Syncs(s, s', t) && InvCells(s)
    ensures InvCells(s')
  {
    hide Syncs, Shape, Seqs, Threads, Recs, Locks;
    SyncsThreads(s, s', t);
    SyncsShape(s, s', t);
    SyncsRecs(s, s', t);
    SyncsLocks(s, s', t);
  }

  lemma SyncsRecs(s: State, s': State, t: nat)
    requires Syncs(s, s', t) && Recs(s)
    ensures Recs(s')
  {
    forall u | 0 <= u < |s'.threads| ensures RecOfThread(s', u) {
      assert RecOfThread(s, u);
    }
  }

  lemma SyncsVersion(s: State, s': State, t: nat, a: Addr, i: nat)
    requires Syncs(s, s', t) && Locks(s)
    requires a < |s.cells| && s'.cells[a].lo <= i < |s.cells[a].hist|
    requires var h := s.cells[a].hist; VersionOk(s, h[i], h[|h| - 1], i == |h| - 1, Replay(s.txs, |s.txs|, a))
    ensures var h := s.cells[a].hist; VersionOk(s', h[i], h[|h| - 1], i == |h| - 1, Replay(s'.txs, |s.txs|, a))
  {
    hide LogOk, Replay;
    SyncsHeld(s, s', t);
    SyncsReplay(s, s', t, |s.txs|, a);
    assert LockOk(s, a);
    if a in s.threads[t].wr {
      assert LockedBy(s, t, a);
    }
  }

  lemma SyncsCellPersist(s: State, s': State, t: nat, a: Addr)
    requires Syncs(s, s', t) && Locks(s) && Persist(s) && a < |s.cells| == |s'.cells|
    ensures CellShape(s'.cells[a]) && CellPersist(s', a)
  {
    SyncsHeld(s, s', t);
    assert CellShape(s.cells[a]) && CellPersist(s, a);
    hide Syncs, Locks, Persist, VersionOk, Replay, Holds;
    var h := s.cells[a].hist;
    forall i | s'.cells[a].lo <= i < |h|
      ensures VersionOk(s', h[i], h[|h| - 1], i == |h| - 1, Replay(s'.txs, |s'.txs|, a))
    {
      assert VersionOk(s, h[i], h[|h| - 1], i == |h| - 1, Replay(s.txs, |s.txs|, a));
      SyncsVersion(s, s', t, a, i);
    }
  }

  lemma SyncsDoubt(s: State, s': State, t: nat)
    requires Syncs(s, s', t) && DoubtFlushed(s)
    ensures DoubtFlushed(s')
  {
    SyncsHeld(s, s', t);
    hide LogOk, Holds, Replay;
    forall u, a: Addr | 0 <= u < |s'.threads| && Doubt(s'.threads[u].pc) && a in s'.threads[u].log
      ensures a < |s'.cells| && s'.cells[a].lo == |s'.cells[a].hist| - 1
    {
      assert u != t && s'.threads[u] == s.threads[u];
      assert Doubt(s.threads[u].pc) && a in s.threads[u].log;
    }
  }

  lemma SyncsSizes(s: State, s': State, t: nat)
    requires Syncs(s, s', t) && Persist(s)
    ensures |s'.cells| == |s.cells| && |s'.txs| == |s.txs| && |s'.pseq| == |s'.threads|
  {
  }

  lemma SyncsPersist(s: State, s': State, t: nat)
    requires Syncs(s, s', t) && Locks(s) && Persist(s) && DoubtFlushed(s)
    ensures Persist(s') && DoubtFlushed(s')
  {
    SyncsSizes(s, s', t);
    SyncsDoubt(s, s', t);
    hide Syncs, Locks, CellPersist, CellShape, DoubtFlushed;
    forall a | 0 <= a < |s'.cells| ensures CellShape(s'.cells[a]) && CellPersist(s', a) {
      SyncsCellPersist(s, s', t, a);
    }
  }

  lemma SyncsVersions(s: State, s': State, t: nat)
    requires Syncs(s, s', t) && Locks(s) && Versions(s)
    ensures Versions(s')
  {
    hide LogOk, FenceCells, Shape, FenceCell, Pre, SeqOk, Holds, Rolling, LockOk, CellShape, ReadOk, WritersSettle;
    SyncsHeld(s, s', t);
    forall a, k | 0 <= a < |s'.cells| && s'.epoch <= k < |s'.txs| && s'.txs[k].st.Durable? && a in s'.txs[k].writes
      ensures ClockOf(s'.txs[k]) <= Bound(s', Cur(s'.cells[a]))
    {
      if k == s.threads[t].rec {
        assert LockedBy(s, t, a);
      } else {
        assert Bound(s', Cur(s'.cells[a])) >= Bound(s, Cur(s.cells[a]));
      }
    }
  }

  lemma SyncsTxs(s: State, s': State, t: nat)
    requires Syncs(s, s', t) && InvTxs(s)
    ensures InvTxs(s')
  {
    hide LogOk, Shape, Addressed, Rolling, CellShape, Ok, FenceCells, ReadOk, NoDup, Holds;
    var rec := s.threads[t].rec;
    forall k, a | 0 <= k < |s'.txs| && Committed(s'.txs[k]) && a in s'.txs[k].rd
      ensures s'.txs[k].rd[a] == Replay(s'.txs, k, a)
    {
      SyncsReplay(s, s', t, k, a);
    }
    forall u, a: Addr | 0 <= u < |s'.threads| && Validated(s'.threads[u], a) ensures ValidatedEntryOk(s', u, a) {
      assert Validated(s.threads[u], a);
      SyncsReplay(s, s', t, s.threads[u].rec, a);
    }
    EntriesOk(s');
  }

  lemma SyncsReads(s: State, s': State, t: nat)
    requires Syncs(s, s', t) && InvReads(s)
    ensures InvReads(s')
  {
    hide LogOk, SeqOk, SeqShape, SnapshotsStable, Holds;
    SyncsHeld(s, s', t);
    forall u, a: Addr | 0 <= u < |s'.threads| && !s'.threads[u].pc.Idle? && a in s'.threads[u].rd ensures ReadOk(s', u, a) {
      ReadsFromInv(s, u, a);
      SyncsReplay(s, s', t, s.threads[u].pos, a);
    }
    ReadsOk(s');
    forall u | 0 <= u < |s'.threads| && s'.threads[u].pc.Loaded?
      ensures var a := s'.threads[u].pc.la;
        a < |s'.cells| && (LoadStable(s', u, a) ==> s'.threads[u].pc.lval == Cur(s'.cells[a]).main)
    {
      assert s.threads[u].pc.la < |s.cells|;
    }
  }

  lemma SyncKeeps(s: State, t: nat)
    requires InvRunning(s) && CanStep(s, t, Go) && s.threads[t].pc.CommitSync?
    ensures InvRunning(DoCommitSync(s, t))
  {
    var s' := DoCommitSync(s, t);
    ThreadFactsFromInv(s, t);
    SyncsCells(s, s', t);
    SyncsPersist(s, s', t);
    SyncsVersions(s, s', t);
    SyncsTxs(s, s', t);
    SyncsReads(s, s', t);
  }
}
