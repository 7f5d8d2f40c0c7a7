/** pload and read-set validation: what an accepted lock word says about the records. */
module Tl2Reads {
  import opened Tl2Model
  import opened Tl2Inv
  import opened Tl2Local
  import opened Tl2Steps

  /** A stretch of records without a durable writer of a does not change its replayed value. */
  lemma {:induction false} ReplaySkip(txs: seq<Tx>, lo: nat, hi: nat, a: Addr)
    requires lo <= hi <= |txs|
    requires forall k | lo <= k < hi && txs[k].st.Durable? :: a !in txs[k].writes
    ensures Replay(txs, hi, a) == Replay(txs, lo, a)
  {
    if lo < hi {
      ReplaySkip(txs, lo, hi - 1, a);
    }
  }

  /** The cells of a transaction that is validating or in doubt are locked by its thread. */
  lemma UnsettledLocked(s: State, j: nat, a: Addr)
    requires Threads(s) && Recs(s) && Locks(s)
    requires j < |s.txs| && Unsettled(s.txs[j]) && a in s.txs[j].writes
    ensures LockedBy(s, s.txs[j].tid, a)
  {
    var u := s.txs[j].tid;
    assert RecOfThread(s, u);
    assert LogOk(s, s.threads[u]);
    HeldIsLog(s.threads[u]);
    assert Holds(s.threads[u], a);
  }

  /** Thread t may still read cell a: its lock word is acceptable to t. */
  ghost predicate Acceptable(s: State, t: nat, a: Addr)
    requires t < |s.threads| && a < |s.cells| && |s.cells[a].hist| > 0
  {
    Ok(s.threads[t].rClock, t, Cur(s.cells[a]).lseq)
  }

  /** No durable transaction after t's snapshot has written an acceptable cell. */
  lemma AcceptableOld(s: State, t: nat, a: Addr, k: nat)
    requires Shape(s) && Threads(s) && Locks(s) && Versions(s) && LaterClocks(s)
    requires t < |s.threads| && Pre(s.threads[t].pc) && a < |s.cells| && Acceptable(s, t, a)
    requires s.epoch <= k < |s.txs| && s.txs[k].st.Durable? && a in s.txs[k].writes
    ensures ClockOf(s.txs[k]) <= s.threads[t].rClock
    ensures k < s.threads[t].pos
  {
    assert ClockOf(s.txs[k]) <= Bound(s, Cur(s.cells[a]));
  }

  lemma AcceptableValue(s: State, t: nat, a: Addr, k: nat)
    requires Shape(s) && Threads(s) && Locks(s) && Versions(s) && LaterClocks(s)
    requires t < |s.threads| && Pre(s.threads[t].pc) && a < |s.cells| && Acceptable(s, t, a)
    requires s.threads[t].pos <= k <= |s.txs|
    ensures Replay(s.txs, k, a) == Replay(s.txs, s.threads[t].pos, a)
  {
    assert ClocksOk(s, s.threads[t]);
    forall m | s.threads[t].pos <= m < k && s.txs[m].st.Durable? ensures a !in s.txs[m].writes {
      if a in s.txs[m].writes {
        AcceptableOld(s, t, a, m);
      }
    }
    ReplaySkip(s.txs, s.threads[t].pos, k, a);
  }

  lemma UnlockedValue(s: State, a: Addr)
    requires Persist(s) && a < |s.cells|
    requires !Cur(s.cells[a]).lseq.locked
    ensures Cur(s.cells[a]).main == Cur(s.cells[a]).back == Replay(s.txs, |s.txs|, a)
  {
    var h := s.cells[a].hist;
    assert CellPersist(s, a);
    assert VersionOk(s, h[|h| - 1], h[|h| - 1], true, Replay(s.txs, |s.txs|, a));
  }

  /** A pload that accepts an unlocked cell returns the cell's value in the transaction's snapshot. */
  lemma AcceptedLoad(s: State, t: nat)
    requires InvRunning(s) && CanStep(s, t, Go) && s.threads[t].pc.Loaded?
    requires !LoadAborts(s, t) && !Cur(s.cells[s.threads[t].pc.la]).lseq.locked
    ensures ReadOk(DoLoadSeq(s, t), t, s.threads[t].pc.la)
  {
    var th := s.threads[t];
    var a := th.pc.la;
    AcceptableValue(s, t, a, |s.txs|);
    UnlockedValue(s, a);
    assert LoadStable(s, t, a);
    forall j | 0 <= j < th.pos && j < |s.txs| && Unsettled(s.txs[j]) ensures a !in s.txs[j].writes {
      if a in s.txs[j].writes {
        UnsettledLocked(s, j, a);
      }
    }
    forall k | s.epoch <= k < th.pos && k < |s.txs| && s.txs[k].st.Durable? && a in s.txs[k].writes
      ensures ClockOf(s.txs[k]) <= th.rClock
    {
      AcceptableOld(s, t, a, k);
    }
  }

  lemma LoadSeqNoReadQuiet(s: State, t: nat)
    requires CanStep(s, t, Go) && s.threads[t].pc.Loaded? && ThreadFacts(s, t)
    requires LoadAborts(s, t) || Cur(s.cells[s.threads[t].pc.la]).lseq.locked
    ensures QuietThread(s, t, DoLoadSeq(s, t).threads[t])
  {
    hide LoadAborts, Cur, Top, Committed, Unsettled, ClockOf, Ok, LockedBy, Addressed, LoadStable, Holds;
    var th := s.threads[t];
    var th' := DoLoadSeq(s, t).threads[t];
    assert th' == th.(pc := if LoadAborts(s, t) then Rollback(0) else Active);
    HeldIsLog(th);
    HeldIsLog(th');
    assert LogOk(s, th');
  }

  lemma LoadSeqNoReadStep(s: State, t: nat)
    requires CanStep(s, t, Go) && s.threads[t].pc.Loaded? && ThreadFacts(s, t)
    requires LoadAborts(s, t) || Cur(s.cells[s.threads[t].pc.la]).lseq.locked
    ensures QuietStep(s, DoLoadSeq(s, t), t)
  {
    LoadSeqNoReadQuiet(s, t);
  }

  lemma LoadSeqReadQuiet(s: State, t: nat)
    requires CanStep(s, t, Go) && s.threads[t].pc.Loaded? && ThreadFacts(s, t)
    requires !LoadAborts(s, t) && !Cur(s.cells[s.threads[t].pc.la]).lseq.locked
    ensures QuietThread(s, t, DoLoadSeq(s, t).threads[t])
  {
    var th := s.threads[t];
    var s' := DoLoadSeq(s, t);
    HeldIsLog(th);
    HeldIsLog(s'.threads[t]);
    assert LogOk(s, s'.threads[t]);
  }

  lemma LoadSeqReadStep(s: State, t: nat)
    requires CanStep(s, t, Go) && s.threads[t].pc.Loaded? && ThreadFacts(s, t)
    requires !LoadAborts(s, t) && !Cur(s.cells[s.threads[t].pc.la]).lseq.locked
    requires ReadOk(DoLoadSeq(s, t), t, s.threads[t].pc.la)
    ensures QuietStep(s, DoLoadSeq(s, t), t)
  {
    LoadSeqReadQuiet(s, t);
    var s' := DoLoadSeq(s, t);
    forall b <- s'.threads[t].rd ensures ReadOk(s', t, b) {
      if b != s.threads[t].pc.la {
        assert ReadOk(s, t, b);
      }
    }
  }

  /** An entry that passes validation still has the snapshot's value at the transaction's record. */
  lemma AcceptedEntry(s: State, t: nat)
    requires InvRunning(s) && CanStep(s, t, Go) && s.threads[t].pc.Validate?
    requires s.threads[t].pc.vi < |s.threads[t].readSet| && !ValidateFails(s, t)
    ensures ValidatedEntryOk(s, t, s.threads[t].readSet[s.threads[t].pc.vi])
  {
    var th := s.threads[t];
    var a := th.readSet[th.pc.vi];
    assert RecOfThread(s, t);
    assert LogOk(s, th);
    AcceptableValue(s, t, a, th.rec);
    forall j | 0 <= j < th.rec && j < |s.txs| && Unsettled(s.txs[j]) ensures a !in s.txs[j].writes {
      if a in s.txs[j].writes {
        UnsettledLocked(s, j, a);
      }
    }
  }

  lemma ValidateOkQuiet(s: State, t: nat)
    requires CanStep(s, t, Go) && s.threads[t].pc.Validate? && ThreadFacts(s, t)
    requires s.threads[t].pc.vi < |s.threads[t].readSet| && !ValidateFails(s, t)
    ensures QuietThread(s, t, DoValidate(s, t).threads[t])
  {
    var th := s.threads[t];
    var s' := DoValidate(s, t);
    HeldIsLog(th);
    HeldIsLog(s'.threads[t]);
    assert LogOk(s, s'.threads[t]);
  }

  lemma ValidateOkStep(s: State, t: nat)
    requires CanStep(s, t, Go) && s.threads[t].pc.Validate? && ThreadFacts(s, t)
    requires s.threads[t].pc.vi < |s.threads[t].readSet| && !ValidateFails(s, t)
    requires forall a: Addr | Validated(s.threads[t], a) :: ValidatedEntryOk(s, t, a)
    requires ValidatedEntryOk(s, t, s.threads[t].readSet[s.threads[t].pc.vi])
    ensures QuietStep(s, DoValidate(s, t), t)
  {
    ValidateOkQuiet(s, t);
    var s' := DoValidate(s, t);
    forall a: Addr | Validated(s'.threads[t], a) ensures ValidatedEntryOk(s', t, a) {
      if !Validated(s.threads[t], a) {
        assert a == s.threads[t].readSet[s.threads[t].pc.vi];
      }
      assert ValidatedEntryOk(s, t, a);
    }
  }
}
