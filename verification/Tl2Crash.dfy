/** A crash at any step of TrinityTL2, and recover(), itself interrupted any number of times. */
module Tl2Crash {
  import opened Tl2Model
  import opened Tl2Inv
  import opened Tl2Reads
  import opened Tl2Commit

  /** What recovery still has to do does not depend on how far it got. */
  ghost predicate CellRecovering(s: State, a: Addr)
    requires a < |s.cells| && |s.cells[a].hist| > 0
    requires forall t | 0 <= t < |s.pseq| :: |s.pseq[t].hist| > 0
  {
    var h, q := s.cells[a].hist, Tops(s.pseq);
    var f := RecCell(h[0], q);
    && (forall i | 0 <= i < |h| :: RecCell(h[i], q) == f)
    && f.main == f.back == Replay(s.txs, |s.txs|, a)
    && (f.lseq.sq == 0 || (f.lseq.tid < |q| && f.lseq.sq <= q[f.lseq.tid]))
  }

  ghost predicate InvRecovering(s: State) {
    && s.mode.Recovering? && s.mode.p <= |s.cells| && (s.mode.reset ==> s.mode.p < |s.cells|)
    && |s.pseq| == |s.threads| && s.epoch == |s.txs|
    && (forall t | 0 <= t < |s.threads| :: s.threads[t].pc.Idle?)
    && (forall t | 0 <= t < |s.pseq| :: |s.pseq[t].hist| == 1 && s.pseq[t].lo == 0 && s.pseq[t].mark == 0)
    && (forall a | 0 <= a < |s.cells| :: |s.cells[a].hist| > 0 && s.cells[a].lo == 0)
    && (forall a | 0 <= a < |s.cells| :: CellRecovering(s, a))
    && (forall a | 0 <= a < s.mode.p :: !Cur(s.cells[a]).lseq.locked)
    && (s.mode.reset ==> Cur(s.cells[s.mode.p]).lseq.locked && Cur(s.cells[s.mode.p]).main == Cur(s.cells[s.mode.p]).back)
    && (forall k | 0 <= k < |s.txs| :: !Unsettled(s.txs[k]))
    && Serial(s.txs)
  }

  // ---------- the records a crash leaves ----------

  lemma SettleSame(s: State, q: seq<nat>, k: nat, a: Addr)
    requires k <= |s.txs|
    requires forall j | 0 <= j < k && Unsettled(s.txs[j]) :: a !in s.txs[j].writes
    ensures Replay(Settle(s.txs, q), k, a) == Replay(s.txs, k, a)
  {
    ReplayFrame(s.txs, Settle(s.txs, q), k, a);
  }

  lemma SettleSerial(s: State, q: seq<nat>)
    requires Serial(s.txs) && SerialStable(s.txs)
    ensures Serial(Settle(s.txs, q))
  {
    var txs' := Settle(s.txs, q);
    forall k, a | 0 <= k < |txs'| && Committed(txs'[k]) && a in txs'[k].rd ensures txs'[k].rd[a] == Replay(txs', k, a) {
      assert Committed(s.txs[k]);
      SettleSame(s, q, k, a);
    }
  }

  /** The cells of an in-doubt transaction follow its record. */
  lemma SettleDoubt(s: State, q: seq<nat>, j: nat, a: Addr)
    requires WritersSettle(s.txs)
    requires j < |s.txs| && s.txs[j].st.InDoubt? && a in s.txs[j].writes && s.txs[j].tid < |q|
    requires forall k | 0 <= k < |s.txs| && k != j && Unsettled(s.txs[k]) :: a !in s.txs[k].writes
    ensures Replay(Settle(s.txs, q), |s.txs|, a) ==
      if q[s.txs[j].tid] == s.txs[j].st.clock then s.txs[j].writes[a] else Replay(s.txs, |s.txs|, a)
  {
    var txs' := Settle(s.txs, q);
    if q[s.txs[j].tid] == s.txs[j].st.clock {
      forall k | j < k < |s.txs| && txs'[k].st.Durable? ensures a !in txs'[k].writes {
        assert a in s.txs[k].writes ==> !Unsettled(s.txs[j]);
      }
      ReplaySkip(txs', j + 1, |s.txs|, a);
    } else {
      ReplayFrame(s.txs, txs', |s.txs|, a);
    }
  }

  // ---------- the cells a crash leaves ----------

  /** v may be what a crash finds of p_seq. */
  ghost predicate SeqImage(p: PSeq, v: nat) {
    exists j :: p.lo <= j < |p.hist| && p.hist[j] == v
  }

  ghost predicate CrashImage(s: State, q: seq<nat>) {
    |q| == |s.pseq| && forall t | 0 <= t < |q| :: SeqImage(s.pseq[t], q[t])
  }

  /** A version whose transaction is not in doubt recovers to the replayed value. */
  lemma RecoverSettled(s: State, q: seq<nat>, a: Addr, i: nat)
    requires InvCells(s) && Persist(s) && CrashImage(s, q)
    requires a < |s.cells| && s.cells[a].lo <= i < |s.cells[a].hist|
    requires forall j | 0 <= j < |s.txs| && Unsettled(s.txs[j]) && a in s.txs[j].writes :: s.txs[j].st.Pending?
    ensures RecCell(s.cells[a].hist[i], q).main == Replay(s.txs, |s.txs|, a)
    ensures RecCell(s.cells[a].hist[i], q).back == Replay(s.txs, |s.txs|, a)
  {
    var h := s.cells[a].hist;
    var c := h[i];
    assert CellPersist(s, a);
    assert VersionOk(s, c, h[|h| - 1], i == |h| - 1, Replay(s.txs, |s.txs|, a));
    if c.lseq.locked {
      var u := c.lseq.tid;
      if !(Below(c.lseq.sq, s.pseq[u]) && c.main == Replay(s.txs, |s.txs|, a)) {
        assert LockOk(s, a);
        var th := s.threads[u];
        assert LogOk(s, th) && RecOfThread(s, u) && a in th.log;
        if Doubt(th.pc) {
          assert a in s.txs[th.rec].writes;
        }
      }
    }
  }

  lemma RecoverDoubt(s: State, q: seq<nat>, a: Addr, i: nat, j: nat)
    requires InvCells(s) && Persist(s) && DoubtFlushed(s) && CrashImage(s, q)
    requires a < |s.cells| && s.cells[a].lo <= i < |s.cells[a].hist|
    requires j < |s.txs| && s.txs[j].st.InDoubt? && a in s.txs[j].writes
    ensures s.txs[j].tid < |q|
    ensures s.cells[a].hist[i].lseq.locked
    ensures RecCell(s.cells[a].hist[i], q).main ==
      if q[s.txs[j].tid] == s.txs[j].st.clock then s.txs[j].writes[a] else Replay(s.txs, |s.txs|, a)
  {
    var h := s.cells[a].hist;
    var u := s.txs[j].tid;
    var th := s.threads[u];
    UnsettledLocked(s, j, a);
    assert RecOfThread(s, u) && LogOk(s, th) && ClocksOk(s, th) && SeqOk(th, s.pseq[u]);
    assert a in th.log;
    assert LockOk(s, a);
    assert h[i] == Cur(s.cells[a]);
    assert q[u] == th.rClock || q[u] == th.nextClock;
  }

  lemma OneDoubt(s: State, a: Addr, j: nat, k: nat)
    requires InvCells(s)
    requires j < |s.txs| && k < |s.txs| && j != k && Unsettled(s.txs[j]) && Unsettled(s.txs[k])
    requires a in s.txs[j].writes
    ensures a !in s.txs[k].writes
  {
    UnsettledLocked(s, j, a);
    if a in s.txs[k].writes {
      UnsettledLocked(s, k, a);
    }
  }

  /** Every version of a cell that may survive recovers to the value the surviving records replay to. */
  lemma RecoverCell(s: State, q: seq<nat>, a: Addr, i: nat)
    requires InvCells(s) && InvPersist(s) && WritersSettle(s.txs) && CrashImage(s, q)
    requires a < |s.cells| && s.cells[a].lo <= i < |s.cells[a].hist|
    ensures RecCell(s.cells[a].hist[i], q).main == Replay(Settle(s.txs, q), |s.txs|, a)
    ensures RecCell(s.cells[a].hist[i], q).back == Replay(Settle(s.txs, q), |s.txs|, a)
  {
    if j :| 0 <= j < |s.txs| && s.txs[j].st.InDoubt? && a in s.txs[j].writes {
      RecoverDoubt(s, q, a, i, j);
      forall k | 0 <= k < |s.txs| && k != j && Unsettled(s.txs[k]) ensures a !in s.txs[k].writes {
        OneDoubt(s, a, j, k);
      }
      SettleDoubt(s, q, j, a);
    } else {
      RecoverSettled(s, q, a, i);
      ReplayFrame(s.txs, Settle(s.txs, q), |s.txs|, a);
    }
  }

  lemma RecoverVersion(s: State, q: seq<nat>, a: Addr, i: nat)
    requires Persist(s) && CrashImage(s, q)
    requires a < |s.cells| && s.cells[a].lo <= i < |s.cells[a].hist|
    ensures var l := RecCell(s.cells[a].hist[i], q).lseq;
      !l.locked && (l.sq == 0 || (l.tid < |q| && l.sq <= q[l.tid]))
  {
    var h := s.cells[a].hist;
    assert CellPersist(s, a);
    assert VersionOk(s, h[i], h[|h| - 1], i == |h| - 1, Replay(s.txs, |s.txs|, a));
  }

  lemma CrashIsImage(s: State, ci: seq<nat>, qi: seq<nat>)
    requires CrashChoice(s, ci, qi)
    ensures CrashImage(s, CrashSeqs(s, qi))
    ensures Tops(DoCrash(s, ci, qi).pseq) == CrashSeqs(s, qi)
  {
    var q := CrashSeqs(s, qi);
    forall t | 0 <= t < |q| ensures SeqImage(s.pseq[t], q[t]) {
      assert s.pseq[t].hist[qi[t]] == q[t];
    }
  }

  lemma CrashKeeps(s: State, ci: seq<nat>, qi: seq<nat>)
    requires InvRunning(s) && CrashChoice(s, ci, qi)
    ensures InvRecovering(DoCrash(s, ci, qi))
  {
    var s', q := DoCrash(s, ci, qi), CrashSeqs(s, qi);
    CrashIsImage(s, ci, qi);
    forall a | 0 <= a < |s'.cells| ensures CellRecovering(s', a) {
      RecoverCell(s, q, a, ci[a]);
      RecoverVersion(s, q, a, ci[a]);
    }
    SettleSerial(s, q);
  }

  /** A crash of recover() finds cells that recover to what they would have become. */
  lemma CrashAgainKeeps(s: State, ci: seq<nat>, qi: seq<nat>)
    requires InvRecovering(s) && CrashChoice(s, ci, qi)
    ensures InvRecovering(DoCrash(s, ci, qi))
    ensures DoCrash(s, ci, qi).txs == s.txs && Tops(DoCrash(s, ci, qi).pseq) == Tops(s.pseq)
    ensures forall a | 0 <= a < |s.cells| ::
      RecCell(DoCrash(s, ci, qi).cells[a].hist[0], Tops(s.pseq)) == RecCell(s.cells[a].hist[0], Tops(s.pseq))
  {
    var s', q := DoCrash(s, ci, qi), CrashSeqs(s, qi);
    CrashIsImage(s, ci, qi);
    assert q == Tops(s.pseq);
    assert s'.txs == s.txs;
    forall a | 0 <= a < |s'.cells|
      ensures CellRecovering(s', a) && RecCell(s'.cells[a].hist[0], q) == RecCell(s.cells[a].hist[0], q)
    {
      assert CellRecovering(s, a);
    }
  }

  // ---------- recover() ----------

  lemma RecoverStoreKeeps(s: State)
    requires InvRecovering(s) && s.mode.p < |s.cells|
    ensures InvRecovering(DoRecover(s))
    ensures DoRecover(s).txs == s.txs && DoRecover(s).pseq == s.pseq && |DoRecover(s).cells| == |s.cells|
    ensures forall a | 0 <= a < |s.cells| :: DoRecover(s).cells[a].hist[0] == s.cells[a].hist[0]
  {
    var s', p, q := DoRecover(s), s.mode.p, Tops(s.pseq);
    var c := Cur(s.cells[p]);
    assert CellRecovering(s, p);
    assert RecCell(c, q) == RecCell(s.cells[p].hist[0], q);
    forall a | 0 <= a < |s'.cells| ensures CellRecovering(s', a) {
      assert CellRecovering(s, a);
    }
  }

  lemma RecoverEndCells(s: State)
    requires InvRecovering(s) && s.mode.p == |s.cells|
    ensures forall a | 0 <= a < |s.cells| ::
      Cur(s.cells[a]) == RecCell(s.cells[a].hist[0], Tops(s.pseq))
      && CellPersist(DoRecover(s), a) && Cur(s.cells[a]).lseq.sq <= DoRecover(s).gClock
  {
    var s', q := DoRecover(s), Tops(s.pseq);
    forall a | 0 <= a < |s.cells|
      ensures Cur(s.cells[a]) == RecCell(s.cells[a].hist[0], q)
        && CellPersist(s', a) && Cur(s.cells[a]).lseq.sq <= s'.gClock
    {
      assert CellRecovering(s, a);
      assert RecCell(Cur(s.cells[a]), q) == RecCell(s.cells[a].hist[0], q);
    }
  }

  lemma RecoverEndKeeps(s: State)
    requires InvRecovering(s) && s.mode.p == |s.cells|
    ensures InvRunning(DoRecover(s))
    ensures forall a | 0 <= a < |s.cells| :: Cur(DoRecover(s).cells[a]) == RecCell(s.cells[a].hist[0], Tops(s.pseq))
  {
    hide OwnedOk, Committed, ClockOf, Addressed, AbortPost, Put, Replay, LogOk, Unsettled, PutCell, AtMost, PostFaa,
      RecCell, MaxOf, Ok;
    var s', q := DoRecover(s), Tops(s.pseq);
    RecoverEndCells(s);
    forall t | 0 <= t < |s'.pseq| ensures SeqShape(s'.pseq[t], s'.gClock) {
      assert q[t] == Top(s.pseq[t]);
    }
  }

  lemma InitKeeps(n: nat, m: nat)
    ensures InvRunning(Init(n, m))
  {
    hide Addressed, LogOk;
    var s := Init(n, m);
    forall a | 0 <= a < |s.cells| ensures CellPersist(s, a) {
      assert Replay(s.txs, 0, a) == 0;
    }
  }
}
