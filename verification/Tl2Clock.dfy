/** Steps of TrinityTL2 on a thread's p_seq and, when aborting, on the global clock. */
module Tl2Clock {
  import opened Tl2Model
  import opened Tl2Inv
  import opened Tl2Soft
  import opened Tl2Steps

  /** A larger p_seq keeps every settled version settled. */
  lemma SettledUnderPut(q: PSeq, v: nat)
    requires q.lo < |q.hist| && Top(q) <= v
    ensures forall sq: nat :: Below(sq, q) ==> Below(sq, PutSeqPwb(q, v))
    ensures forall sq: nat :: AtMost(sq, q) ==> AtMost(sq, PutSeqPwb(q, v))
  {
    forall sq: nat | Below(sq, q) ensures Below(sq, PutSeqPwb(q, v)) {
      assert sq < Top(q);
    }
    forall sq: nat | AtMost(sq, q) ensures AtMost(sq, PutSeqPwb(q, v)) {
      assert sq <= Top(q);
    }
  }

  lemma PutVersions(s: State, s': State, t: nat, v: nat)
    requires SoftShared(s, s', t) && Locks(s)
    requires s'.pseq[t] == PutSeqPwb(s.pseq[t], v) && s.pseq[t].lo < |s.pseq[t].hist| && Top(s.pseq[t]) <= v
    requires s.threads[t].pc.BeginSeq? || (s.threads[t].pc.CommitSeq? && s'.threads[t].pc.CommitSync?)
      || (s.threads[t].pc.AbortSeq? && s'.threads[t].pc.AbortSync?)
    ensures forall a: nat, i | a < |s.cells| && s'.cells[a].lo <= i < |s.cells[a].hist| :: VersionKept(s, s', a, i)
  {
    SettledUnderPut(s.pseq[t], v);
    forall a: nat, i | a < |s.cells| && s'.cells[a].lo <= i < |s.cells[a].hist| ensures VersionKept(s, s', a, i) {
      assert LockOk(s, a);
    }
  }

  lemma BeginSeqStep(s: State, t: nat)
    requires CanStep(s, t, Go) && s.threads[t].pc.BeginSeq? && ThreadFacts(s, t)
    ensures SoftStep(s, DoBeginSeq(s, t), t)
  {
  }

  lemma BeginSeqKeeps(s: State, t: nat)
    requires InvRunning(s) && CanStep(s, t, Go) && s.threads[t].pc.BeginSeq?
    ensures InvRunning(DoBeginSeq(s, t))
  {
    ThreadFactsFromInv(s, t);
    BeginSeqStep(s, t);
    PutVersions(s, DoBeginSeq(s, t), t, s.threads[t].rClock);
    SoftKeeps(s, DoBeginSeq(s, t), t);
  }

  lemma CommitSeqStep(s: State, t: nat)
    requires CanStep(s, t, Go) && ThreadFacts(s, t) && s.threads[t].pc.CommitSeq?
    ensures SoftStep(s, DoPutNext(s, t, CommitSync), t)
  {
    hide Addressed, Holds;
    HeldIsLog(s.threads[t]);
    HeldIsLog(DoPutNext(s, t, CommitSync).threads[t]);
  }

  lemma AbortSeqStep(s: State, t: nat)
    requires CanStep(s, t, Go) && ThreadFacts(s, t) && s.threads[t].pc.AbortSeq?
    ensures SoftStep(s, DoPutNext(s, t, AbortSync), t)
  {
    hide Mid, LockedBy, Addressed, Ok, Committed, Unsettled, LoadStable, Cur;
    HeldIsLog(s.threads[t]);
    HeldIsLog(DoPutNext(s, t, AbortSync).threads[t]);
  }

  lemma PutNextKeeps(s: State, t: nat, pc: PC)
    requires InvRunning(s) && CanStep(s, t, Go)
    requires (s.threads[t].pc.CommitSeq? && pc.CommitSync?) || (s.threads[t].pc.AbortSeq? && pc.AbortSync?)
    ensures InvRunning(DoPutNext(s, t, pc))
  {
    ThreadFactsFromInv(s, t);
    if pc.CommitSync? { CommitSeqStep(s, t); } else { AbortSeqStep(s, t); }
    PutVersions(s, DoPutNext(s, t, pc), t, s.threads[t].nextClock);
    SoftKeeps(s, DoPutNext(s, t, pc), t);
  }

  // ---------- abort ----------

  lemma AbortFaaShared(s: State, t: nat)
    requires CanStep(s, t, Go) && s.threads[t].pc.AbortFaa? && ThreadFacts(s, t)
    ensures SoftShared(s, DoAbortFaa(s, t), t)
  {
    hide RecOfThread, Holds, LockedBy, Replay;
  }

  lemma AbortFaaThread(s: State, t: nat)
    requires CanStep(s, t, Go) && s.threads[t].pc.AbortFaa? && ThreadFacts(s, t) && SoftShared(s, DoAbortFaa(s, t), t)
    ensures SoftThread(s, DoAbortFaa(s, t), t)
  {
    HeldIsLog(s.threads[t]);
    HeldIsLog(DoAbortFaa(s, t).threads[t]);
    hide Holds, Shape, SoftShared;
  }

  lemma AbortFaaStep(s: State, t: nat)
    requires CanStep(s, t, Go) && s.threads[t].pc.AbortFaa? && ThreadFacts(s, t)
    ensures SoftStep(s, DoAbortFaa(s, t), t)
  {
    AbortFaaShared(s, t);
    AbortFaaThread(s, t);
    hide Holds, Shape, SoftShared, SoftThread, LogOk, ClocksOk, SeqOk, RecOfThread, LockedBy;
  }

  lemma AbortFaaKeeps(s: State, t: nat)
    requires InvRunning(s) && CanStep(s, t, Go) && s.threads[t].pc.AbortFaa?
    ensures InvRunning(DoAbortFaa(s, t))
  {
    var s' := DoAbortFaa(s, t);
    ThreadFactsFromInv(s, t);
    AbortFaaStep(s, t);
    AbortFaaVersions(s, t);
    SoftKeeps(s, s', t);
  }

  lemma AbortFaaVersions(s: State, t: nat)
    requires CanStep(s, t, Go) && s.threads[t].pc.AbortFaa? && ThreadFacts(s, t) && Locks(s)
    ensures forall a: nat, i | a < |s.cells| && DoAbortFaa(s, t).cells[a].lo <= i < |s.cells[a].hist| ::
      VersionKept(s, DoAbortFaa(s, t), a, i)
  {
    var s' := DoAbortFaa(s, t);
    HeldIsLog(s.threads[t]);
    forall a: nat, i | a < |s.cells| && s'.cells[a].lo <= i < |s.cells[a].hist| ensures VersionKept(s, s', a, i) {
      assert LockOk(s, a);
    }
  }

  lemma AbortSyncStep(s: State, t: nat)
    requires CanStep(s, t, Go) && s.threads[t].pc.AbortSync? && ThreadFacts(s, t)
    ensures SoftStep(s, DoAbortSync(s, t), t)
  {
    HeldIsLog(s.threads[t]);
    HeldIsLog(DoAbortSync(s, t).threads[t]);
  }

  lemma AbortSyncVersions(s: State, t: nat)
    requires CanStep(s, t, Go) && s.threads[t].pc.AbortSync? && ThreadFacts(s, t) && Locks(s)
    ensures forall a: nat, i | a < |s.cells| && DoAbortSync(s, t).cells[a].lo <= i < |s.cells[a].hist| ::
      VersionKept(s, DoAbortSync(s, t), a, i)
  {
    var s' := DoAbortSync(s, t);
    forall a: nat, i | a < |s.cells| && s'.cells[a].lo <= i < |s.cells[a].hist| ensures VersionKept(s, s', a, i) {
      assert LockOk(s, a);
    }
  }

  lemma AbortSyncKeeps(s: State, t: nat)
    requires InvRunning(s) && CanStep(s, t, Go) && s.threads[t].pc.AbortSync?
    ensures InvRunning(DoAbortSync(s, t))
  {
    var s' := DoAbortSync(s, t);
    ThreadFactsFromInv(s, t);
    AbortSyncStep(s, t);
    AbortSyncVersions(s, t);
    SoftKeeps(s, s', t);
  }
}
