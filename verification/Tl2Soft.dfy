/**
  Steps of one thread that store to no cell and no record: its own data, its p_seq, the
  global clock, and what a fence makes durable.
*/
module Tl2Soft {
  import opened Tl2Model
  import opened Tl2Inv
  import opened Tl2Local

  ghost predicate ThreadReadsOk(s: State, t: nat)
    requires t < |s.threads|
  {
    var th := s.threads[t];
    !th.pc.Idle? ==>
      && (forall a <- th.rd :: ReadOk(s, t, a))
      && (forall k | th.pos <= k < |s.txs| && Committed(s.txs[k]) :: ClockOf(s.txs[k]) > th.rClock)
      && (th.pc.Loaded? && th.pc.la < |s.cells| && |s.cells[th.pc.la].hist| > 0 && LoadStable(s, t, th.pc.la) ==>
            th.pc.lval == Cur(s.cells[th.pc.la]).main)
  }

  lemma ThreadReadsFromInv(s: State, t: nat)
    requires InvReads(s) && t < |s.threads|
    ensures ThreadReadsOk(s, t)
  {
    if !s.threads[t].pc.Idle? {
      forall a <- s.threads[t].rd ensures ReadOk(s, t, a) {
        ReadsFromInv(s, t, a);
      }
    }
  }

  /** Shared memory keeps its contents; only what is durable may grow. */
  ghost predicate SoftShared(s: State, s': State, t: nat) {
    && Shape(s) && t < |s.threads| == |s'.threads|
    && s' == s.(gClock := s'.gClock, cells := s'.cells, pseq := s'.pseq, threads := s'.threads)
    && s.gClock <= s'.gClock
    && |s'.cells| == |s.cells| && |s'.pseq| == |s.pseq|
    && (forall a | 0 <= a < |s.cells| :: s'.cells[a].hist == s.cells[a].hist
          && s.cells[a].lo <= s'.cells[a].lo < |s.cells[a].hist|)
    && (forall u | 0 <= u < |s.threads| && u != t :: s'.pseq[u] == s.pseq[u] && s'.threads[u] == s.threads[u])
    && |s'.pseq[t].hist| > 0 && SeqShape(s'.pseq[t], s'.gClock)
  }

  /** What is to be shown of thread t, apart from its reads. */
  ghost predicate SoftThread(s: State, s': State, t: nat)
    requires t < |s.threads| == |s'.threads| == |s'.pseq| && |s'.pseq[t].hist| > 0
  {
    var th, th' := s.threads[t], s'.threads[t];
    && (th'.pc.Idle? || (LogOk(s', th') && ClocksOk(s', th')))
    && SeqOk(th', s'.pseq[t]) && RecOfThread(s', t)
    && (th.pc.Validate? || th.pc.CommitFaa? || Doubt(th.pc) ==>
          th'.rec == th.rec && (th'.pc.Validate? || th'.pc.CommitFaa? || Doubt(th'.pc)))
    && (Doubt(th'.pc) ==> Doubt(th.pc))
    && (forall a: Addr :: Holds(th', a) <==> Holds(th, a))
    && (forall a: Addr | LockedBy(s, t, a) && Holds(th, a) ::
          && th'.rClock == th.rClock
          && (Done(th.pc) ==> Done(th'.pc) && th'.nextClock == th.nextClock)
          && (PostFaa(th'.pc) ==> (PostFaa(th.pc) && th'.nextClock == th.nextClock) || th'.nextClock > s.gClock))
    && (forall a: Addr, v: Val | LockedBy(s, t, a) && OwnedOk(th, a, Cur(s.cells[a]), v) ::
          OwnedOk(th', a, Cur(s.cells[a]), v))
  }

  ghost predicate VersionKept(s: State, s': State, a: Addr, i: nat)
    requires |s.pseq| == |s.threads| && |s'.pseq| == |s'.threads| && a < |s.cells| && i < |s.cells[a].hist|
  {
    var h := s.cells[a].hist;
    var v := Replay(s.txs, |s.txs|, a);
    VersionOk(s, h[i], h[|h| - 1], i == |h| - 1, v) ==> VersionOk(s', h[i], h[|h| - 1], i == |h| - 1, v)
  }

  ghost predicate SoftStep(s: State, s': State, t: nat) {
    && SoftShared(s, s', t)
    && SoftThread(s, s', t)
    && (forall a: Addr | Validated(s'.threads[t], a) :: ValidatedEntryOk(s', t, a))
    && ThreadReadsOk(s', t)
  }

  lemma SoftCells(s: State, s': State, t: nat)
    requires SoftShared(s, s', t) && SoftThread(s, s', t) && InvCells(s)
    ensures Shape(s') && Threads(s') && Seqs(s')
  {
    forall u | 0 <= u < |s'.threads| && !s'.threads[u].pc.Idle?
      ensures LogOk(s', s'.threads[u]) && ClocksOk(s', s'.threads[u])
    {
      if u != t {
        assert LogOk(s, s.threads[u]);
      }
    }
    forall u | 0 <= u < |s'.pseq| ensures SeqShape(s'.pseq[u], s'.gClock) {
      assert SeqShape(s.pseq[u], s.gClock);
    }
  }

  lemma SoftRecs(s: State, s': State, t: nat)
    requires SoftShared(s, s', t) && SoftThread(s, s', t) && Recs(s)
    ensures Recs(s')
  {
    forall u | 0 <= u < |s'.threads| ensures RecOfThread(s', u) {
      assert RecOfThread(s, u);
    }
  }

  lemma SoftLocks(s: State, s': State, t: nat)
    requires SoftShared(s, s', t) && SoftThread(s, s', t) && Locks(s)
    ensures Locks(s')
  {
    forall a | 0 <= a < |s'.cells| ensures LockOk(s', a) {
      assert LockOk(s, a);
    }
    forall u, a: Addr | 0 <= u < |s'.threads| && Holds(s'.threads[u], a) ensures LockedBy(s', u, a) {
      assert Holds(s.threads[u], a);
      assert LockedBy(s, u, a);
    }
  }

  lemma SoftPersist(s: State, s': State, t: nat)
    requires SoftShared(s, s', t) && Persist(s)
    requires forall a: nat, i | a < |s.cells| && s'.cells[a].lo <= i < |s.cells[a].hist| :: VersionKept(s, s', a, i)
    ensures Persist(s')
  {
    hide VersionOk;
    forall a | 0 <= a < |s'.cells| ensures CellPersist(s', a) {
      assert CellPersist(s, a);
      var h := s.cells[a].hist;
      forall i | s'.cells[a].lo <= i < |h|
        ensures VersionOk(s', h[i], h[|h| - 1], i == |h| - 1, Replay(s.txs, |s.txs|, a))
      {
        assert VersionOk(s, h[i], h[|h| - 1], i == |h| - 1, Replay(s.txs, |s.txs|, a));
        assert VersionKept(s, s', a, i);
      }
    }
  }

  lemma SoftDoubt(s: State, s': State, t: nat)
    requires SoftShared(s, s', t) && SoftThread(s, s', t) && Locks(s) && DoubtFlushed(s)
    ensures DoubtFlushed(s')
  {
    forall u, a: Addr | 0 <= u < |s'.threads| && Doubt(s'.threads[u].pc) && a in s'.threads[u].log
      ensures a < |s'.cells| && s'.cells[a].lo == |s'.cells[a].hist| - 1
    {
      assert Holds(s'.threads[u], a);
      assert Holds(s.threads[u], a);
      assert a in s.threads[u].log;
    }
  }

  lemma SoftVersions(s: State, s': State, t: nat)
    requires SoftShared(s, s', t) && SoftThread(s, s', t) && Locks(s) && Versions(s)
    ensures Versions(s')
  {
    forall a | 0 <= a < |s'.cells| ensures Bound(s', Cur(s'.cells[a])) >= Bound(s, Cur(s.cells[a])) {
      assert LockOk(s, a);
    }
    forall a, k | 0 <= a < |s'.cells| && s'.epoch <= k < |s'.txs| && s'.txs[k].st.Durable? && a in s'.txs[k].writes
      ensures ClockOf(s'.txs[k]) <= Bound(s', Cur(s'.cells[a]))
    {
      assert ClockOf(s.txs[k]) <= Bound(s, Cur(s.cells[a]));
    }
  }

  lemma SoftTxs(s: State, s': State, t: nat)
    requires SoftStep(s, s', t) && InvTxs(s)
    ensures InvTxs(s')
  {
    forall u, a: Addr | 0 <= u < |s'.threads| && Validated(s'.threads[u], a) ensures ValidatedEntryOk(s', u, a) {
      if u != t {
        assert Validated(s.threads[u], a);
      }
    }
    EntriesOk(s');
  }

  lemma SoftReads(s: State, s': State, t: nat)
    requires SoftStep(s, s', t) && Locks(s) && Threads(s) && InvReads(s)
    ensures InvReads(s')
  {
    hide Replay, RecOfThread, SnapshotsStable, PostFaa;
    forall u, a | 0 <= u < |s'.threads| && !s'.threads[u].pc.Idle? && a in s'.threads[u].rd ensures ReadOk(s', u, a) {
      if u != t {
        ReadsFromInv(s, u, a);
      }
    }
    ReadsOk(s');
    forall u | 0 <= u < |s'.threads| && s'.threads[u].pc.Loaded?
      ensures var a := s'.threads[u].pc.la;
        a < |s'.cells| && (LoadStable(s', u, a) ==> s'.threads[u].pc.lval == Cur(s'.cells[a]).main)
    {
      var a := s'.threads[u].pc.la;
      if u != t {
        assert a < |s.cells| && LockOk(s, a) && ClocksOk(s, s.threads[u]);
      }
    }
  }

  lemma SoftKeeps(s: State, s': State, t: nat)
    requires InvRunning(s) && SoftStep(s, s', t)
    requires forall a: nat, i | a < |s.cells| && s'.cells[a].lo <= i < |s.cells[a].hist| :: VersionKept(s, s', a, i)
    ensures InvRunning(s')
  {
    SoftCells(s, s', t);
    SoftRecs(s, s', t);
    SoftLocks(s, s', t);
    SoftPersist(s, s', t);
    SoftDoubt(s, s', t);
    SoftVersions(s, s', t);
    SoftTxs(s, s', t);
    SoftReads(s, s', t);
  }
}
