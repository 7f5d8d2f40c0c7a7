/**
  Steps of one thread that touch at most cells it has locked (or locks now), and no
  clock, p_seq or record.  Each lemma says what is left to show for that thread.
*/
module Tl2Local {
  import opened Tl2Model
  import opened Tl2Inv

  ghost predicate Grown(s: State, s': State, t: nat, a: Addr)
    requires a < |s.cells| == |s'.cells| && |s.cells[a].hist| > 0 && |s'.cells[a].hist| > 0
  {
    var l, l' := Cur(s.cells[a]).lseq, Cur(s'.cells[a]).lseq;
    && s'.cells[a] == Put(s.cells[a], Cur(s'.cells[a]))
    && (if l.locked then l.tid == t && (l' == l || !l'.locked) else l'.locked && l'.tid == t)
  }

  ghost predicate Local(s: State, s': State, t: nat) {
    && t < |s.threads| == |s.pseq|
    && s' == s.(cells := s'.cells, threads := s'.threads)
    && |s'.threads| == |s.threads| && |s'.cells| == |s.cells|
    && (forall u | 0 <= u < |s.threads| && u != t :: s'.threads[u] == s.threads[u])
    && (forall a | 0 <= a < |s.cells| :: CellShape(s.cells[a]) && CellShape(s'.cells[a]))
    && (forall a | 0 <= a < |s.cells| :: s'.cells[a] == s.cells[a] || Grown(s, s', t, a))
  }

  lemma LocalShape(s: State, s': State, t: nat)
    requires Local(s, s', t) && Shape(s)
    ensures Shape(s')
  {
  }

  lemma LocalThreads(s: State, s': State, t: nat)
    requires Local(s, s', t) && Threads(s) && Locks(s)
    requires s'.threads[t].pc.Idle? || (LogOk(s', s'.threads[t]) && ClocksOk(s', s'.threads[t]))
    ensures Threads(s')
  {
    forall u | 0 <= u < |s'.threads| && !s'.threads[u].pc.Idle?
      ensures LogOk(s', s'.threads[u]) && ClocksOk(s', s'.threads[u])
    {
      if u != t {
        var th := s.threads[u];
        assert LogOk(s, th);
        if th.pc.CommitFaa? || th.pc.AbortFaa? {
          forall a <- th.log ensures s'.cells[a] == s.cells[a] {
            assert Holds(th, a);
            assert LockedBy(s, u, a);
          }
        }
      }
    }
  }

  lemma LocalSeqs(s: State, s': State, t: nat)
    requires Local(s, s', t) && Seqs(s) && SeqOk(s'.threads[t], s'.pseq[t])
    ensures Seqs(s')
  {
  }

  lemma LocalRecs(s: State, s': State, t: nat)
    requires Local(s, s', t) && Recs(s) && RecOfThread(s', t)
    requires s.threads[t].pc.Validate? || s.threads[t].pc.CommitFaa? || Doubt(s.threads[t].pc) ==>
      && s'.threads[t].rec == s.threads[t].rec
      && (s'.threads[t].pc.Validate? || s'.threads[t].pc.CommitFaa? || Doubt(s'.threads[t].pc))
    ensures Recs(s')
  {
    forall u | 0 <= u < |s'.threads| ensures RecOfThread(s', u) {
      assert RecOfThread(s, u);
    }
  }

  lemma LocalLocks(s: State, s': State, t: nat)
    requires Local(s, s', t) && Locks(s)
    requires forall a | Holds(s'.threads[t], a) :: LockedBy(s', t, a)
    requires forall a | LockedBy(s', t, a) :: LockOk(s', a)
    ensures Locks(s')
  {
    forall a | 0 <= a < |s'.cells| ensures LockOk(s', a) {
      assert LockOk(s, a);
      if s'.cells[a] != s.cells[a] || Cur(s.cells[a]).lseq.tid == t {
        assert Cur(s'.cells[a]).lseq.locked ==> LockedBy(s', t, a);
      }
    }
    forall u, a | 0 <= u < |s'.threads| && Holds(s'.threads[u], a) ensures LockedBy(s', u, a) {
      if u != t {
        assert Holds(s.threads[u], a);
        assert LockedBy(s, u, a);
      }
    }
  }

  /** Open versions of thread t stay explained. */
  ghost predicate KeepsOpen(s: State, s': State, t: nat, a: Addr, i: nat)
    requires Local(s, s', t) && a < |s.cells| && i < |s.cells[a].hist|
  {
    var h, h' := s.cells[a].hist, s'.cells[a].hist;
    var v := Replay(s.txs, |s.txs|, a);
    OpenVersion(s.threads[t], h[i], h[|h| - 1], i == |h| - 1, v) && h[i].lseq.locked && h[i].lseq.tid == t ==>
      OpenVersion(s'.threads[t], h[i], h'[|h'| - 1], i == |h'| - 1, v)
      || (Below(h[i].lseq.sq, s.pseq[t]) && h[i].main == v)
  }

  lemma LocalPersist(s: State, s': State, t: nat)
    requires Local(s, s', t) && Persist(s)
    requires forall a, i | 0 <= a < |s.cells| && s.cells[a].lo <= i < |s.cells[a].hist| :: KeepsOpen(s, s', t, a, i)
    requires forall a | 0 <= a < |s.cells| && s'.cells[a] != s.cells[a] ::
      VersionOk(s', Cur(s'.cells[a]), Cur(s'.cells[a]), true, Replay(s.txs, |s.txs|, a))
    ensures Persist(s')
  {
    forall a | 0 <= a < |s'.cells| ensures CellPersist(s', a) {
      assert CellPersist(s, a);
      var h, h' := s.cells[a].hist, s'.cells[a].hist;
      var v := Replay(s.txs, |s.txs|, a);
      forall i | s'.cells[a].lo <= i < |h'| ensures VersionOk(s', h'[i], h'[|h'| - 1], i == |h'| - 1, v) {
        if i < |h| {
          assert h'[i] == h[i];
          assert VersionOk(s, h[i], h[|h| - 1], i == |h| - 1, v);
          assert KeepsOpen(s, s', t, a, i);
        }
      }
    }
  }

  lemma LocalDoubt(s: State, s': State, t: nat)
    requires Local(s, s', t) && DoubtFlushed(s) && Locks(s)
    requires !Doubt(s'.threads[t].pc)
    ensures DoubtFlushed(s')
  {
    forall u, a | 0 <= u < |s'.threads| && Doubt(s'.threads[u].pc) && a in s'.threads[u].log
      ensures a < |s'.cells| && s'.cells[a].lo == |s'.cells[a].hist| - 1
    {
      assert Holds(s.threads[u], a);
      assert LockedBy(s, u, a);
    }
  }

  lemma LocalVersions(s: State, s': State, t: nat)
    requires Local(s, s', t) && Versions(s)
    requires forall a | 0 <= a < |s.cells| && (s'.cells[a] != s.cells[a] || LockedBy(s, t, a)) ::
      && Bound(s', Cur(s'.cells[a])) >= Bound(s, Cur(s.cells[a]))
      && (!Cur(s'.cells[a]).lseq.locked ==> Cur(s'.cells[a]).lseq.sq <= s.gClock)
    ensures Versions(s')
  {
    forall a | 0 <= a < |s.cells| ensures Bound(s', Cur(s'.cells[a])) >= Bound(s, Cur(s.cells[a])) {
    }
    forall a, k | 0 <= a < |s'.cells| && s'.epoch <= k < |s'.txs| && s'.txs[k].st.Durable? && a in s'.txs[k].writes
      ensures ClockOf(s'.txs[k]) <= Bound(s', Cur(s'.cells[a]))
    {
      assert ClockOf(s.txs[k]) <= Bound(s, Cur(s.cells[a]));
    }
  }

  ghost predicate ValidatedEntryOk(s: State, t: nat, a: Addr)
    requires t < |s.threads|
  {
    && s.threads[t].rec < |s.txs| && a in s.threads[t].rd
    && s.threads[t].rd[a] == Replay(s.txs, s.threads[t].rec, a)
    && (forall j | 0 <= j < s.threads[t].rec && j < |s.txs| && Unsettled(s.txs[j]) :: a !in s.txs[j].writes)
  }

  lemma EntriesOk(s: State)
    requires forall t, a: Addr | 0 <= t < |s.threads| && Validated(s.threads[t], a) :: ValidatedEntryOk(s, t, a)
    ensures ValidatedOk(s)
  {
    forall t, a: Addr | 0 <= t < |s.threads| && Validated(s.threads[t], a)
      ensures s.threads[t].rec < |s.txs| && a in s.threads[t].rd
        && s.threads[t].rd[a] == Replay(s.txs, s.threads[t].rec, a)
    {
      assert ValidatedEntryOk(s, t, a);
    }
    forall t, a: Addr, j | 0 <= t < |s.threads| && Validated(s.threads[t], a)
        && 0 <= j < s.threads[t].rec && j < |s.txs| && Unsettled(s.txs[j])
      ensures a !in s.txs[j].writes
    {
      assert ValidatedEntryOk(s, t, a);
    }
  }

  lemma LocalTxs(s: State, s': State, t: nat)
    requires Local(s, s', t) && InvTxs(s)
    requires forall a | Validated(s'.threads[t], a) :: ValidatedEntryOk(s', t, a)
    ensures InvTxs(s')
  {
    forall u, a | 0 <= u < |s'.threads| && Validated(s'.threads[u], a) ensures ValidatedEntryOk(s', u, a) {
      if u != t {
        assert Validated(s.threads[u], a);
      }
    }
    EntriesOk(s');
  }

  /** What a value read by thread t has to satisfy. */
  ghost predicate ReadOk(s: State, t: nat, a: Addr)
    requires t < |s.threads| && a in s.threads[t].rd
  {
    var th := s.threads[t];
    && th.pos <= |s.txs| && th.rd[a] == Replay(s.txs, th.pos, a)
    && (forall j | 0 <= j < th.pos && j < |s.txs| && Unsettled(s.txs[j]) :: a !in s.txs[j].writes)
    && (forall k | s.epoch <= k < th.pos && k < |s.txs| && s.txs[k].st.Durable? && a in s.txs[k].writes ::
         ClockOf(s.txs[k]) <= th.rClock)
  }

  lemma ReadsFromInv(s: State, t: nat, a: Addr)
    requires Snapshots(s) && SnapshotsStable(s) && EarlierClocks(s)
    requires t < |s.threads| && !s.threads[t].pc.Idle? && a in s.threads[t].rd
    ensures ReadOk(s, t, a)
  {
  }

  lemma ReadsOk(s: State)
    requires forall t, a: Addr | 0 <= t < |s.threads| && !s.threads[t].pc.Idle? && a in s.threads[t].rd :: ReadOk(s, t, a)
    ensures Snapshots(s) && SnapshotsStable(s) && EarlierClocks(s)
  {
    forall t, a: Addr | 0 <= t < |s.threads| && !s.threads[t].pc.Idle? && a in s.threads[t].rd
      ensures s.threads[t].pos <= |s.txs| && s.threads[t].rd[a] == Replay(s.txs, s.threads[t].pos, a)
    {
      assert ReadOk(s, t, a);
    }
    forall t, a: Addr, j | 0 <= t < |s.threads| && !s.threads[t].pc.Idle? && a in s.threads[t].rd
        && 0 <= j < s.threads[t].pos && j < |s.txs| && Unsettled(s.txs[j])
      ensures a !in s.txs[j].writes
    {
      assert ReadOk(s, t, a);
    }
    forall t, k, a: Addr | 0 <= t < |s.threads| && !s.threads[t].pc.Idle? && a in s.threads[t].rd
        && s.epoch <= k < s.threads[t].pos && k < |s.txs| && s.txs[k].st.Durable? && a in s.txs[k].writes
      ensures ClockOf(s.txs[k]) <= s.threads[t].rClock
    {
      assert ReadOk(s, t, a);
    }
  }

  lemma LocalReads(s: State, s': State, t: nat)
    requires Local(s, s', t) && InvReads(s)
    requires !s'.threads[t].pc.Idle? ==> forall a <- s'.threads[t].rd :: ReadOk(s', t, a)
    requires !s'.threads[t].pc.Idle? ==>
      forall k | s'.threads[t].pos <= k < |s.txs| && Committed(s.txs[k]) :: ClockOf(s.txs[k]) > s'.threads[t].rClock
    requires s'.threads[t].pc.Loaded? ==>
      s'.threads[t].pc.la < |s'.cells|
      && (LoadStable(s', t, s'.threads[t].pc.la) ==> s'.threads[t].pc.lval == Cur(s'.cells[s'.threads[t].pc.la]).main)
    requires forall u, a | 0 <= u < |s.threads| && u != t && 0 <= a < |s.cells| && LoadStable(s', u, a) ::
      LoadStable(s, u, a) && Cur(s'.cells[a]).main == Cur(s.cells[a]).main
    ensures InvReads(s')
  {
    forall u, a | 0 <= u < |s'.threads| && !s'.threads[u].pc.Idle? && a in s'.threads[u].rd ensures ReadOk(s', u, a) {
      if u != t {
        ReadsFromInv(s, u, a);
      }
    }
    ReadsOk(s');
    assert LoadsOk(s') by {
      forall u | 0 <= u < |s'.threads| && s'.threads[u].pc.Loaded?
        ensures s'.threads[u].pc.la < |s'.cells|
          && (LoadStable(s', u, s'.threads[u].pc.la) ==>
                s'.threads[u].pc.lval == Cur(s'.cells[s'.threads[u].pc.la]).main)
      {
      }
    }
    assert LaterClocks(s');
  }
}
