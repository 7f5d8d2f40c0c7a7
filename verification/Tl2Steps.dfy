/** Steps of TrinityTL2 that change only the thread's own data keep the invariant. */
module Tl2Steps {
  import opened Tl2Model
  import opened Tl2Inv
  import opened Tl2Local
  import opened Tl2Soft

  ghost predicate SamePhase(th: Thread, th': Thread) {
    || (forall a: Addr :: !Holds(th, a))
    || ((Pre(th.pc) || Rolling(th.pc)) && (Pre(th'.pc) || Rolling(th'.pc)) && th'.rClock == th.rClock)
    || (Done(th.pc) && Done(th'.pc) && th'.rClock == th.rClock && th'.nextClock == th.nextClock)
  }

  /** What the invariant says about thread t alone. */
  ghost predicate ThreadFacts(s: State, t: nat) {
    && t < |s.threads| == |s.pseq|
    && (s.threads[t].pc.Idle? || (LogOk(s, s.threads[t]) && ClocksOk(s, s.threads[t])))
    && |s.pseq[t].hist| > 0 && SeqOk(s.threads[t], s.pseq[t]) && SeqShape(s.pseq[t], s.gClock)
    && s.epoch <= |s.txs|
    && RecOfThread(s, t)
    && (forall a: Addr | LockedBy(s, t, a) :: Holds(s.threads[t], a))
    && ThreadReadsOk(s, t)
  }

  lemma ThreadFactsFromInv(s: State, t: nat)
    requires InvRunning(s) && t < |s.threads|
    ensures ThreadFacts(s, t)
  {
    ThreadReadsFromInv(s, t);
    forall a: Addr | LockedBy(s, t, a) ensures Holds(s.threads[t], a) {
      assert LockOk(s, a);
    }
    assert RecOfThread(s, t);
    assert SeqShape(s.pseq[t], s.gClock);
  }

  /** What is to be shown of a step from th to th' that changes nothing else. */
  ghost predicate QuietThread(s: State, t: nat, th': Thread) {
    && t < |s.threads| == |s.pseq|
    && (th'.pc.Idle? || (LogOk(s, th') && ClocksOk(s, th')))
    && |s.pseq[t].hist| > 0 && SeqOk(th', s.pseq[t])
    && !Doubt(s.threads[t].pc) && !Doubt(th'.pc) && !AbortPost(s.threads[t].pc)
    && SamePhase(s.threads[t], th')
    && (s.threads[t].pc.Validate? || s.threads[t].pc.CommitFaa? ==>
          th'.rec == s.threads[t].rec && (th'.pc.Validate? || th'.pc.CommitFaa?))
    && (forall a: Addr :: Holds(th', a) <==> Holds(s.threads[t], a))
    && RecOfThread(SetT(s, t, th'), t)
    && (forall a: Addr, v: Val | LockedBy(s, t, a) && OwnedOk(s.threads[t], a, Cur(s.cells[a]), v) ::
          OwnedOk(th', a, Cur(s.cells[a]), v))
  }

  /** s' differs from s in thread t only, in a way that needs no look at anything else. */
  ghost predicate QuietStep(s: State, s': State, t: nat) {
    && t < |s.threads| == |s'.threads|
    && s' == SetT(s, t, s'.threads[t])
    && QuietThread(s, t, s'.threads[t])
    && (forall a: Addr | Validated(s'.threads[t], a) :: ValidatedEntryOk(s', t, a))
    && ThreadReadsOk(s', t)
  }

  lemma Quiet(s: State, s': State, t: nat)
    requires InvRunning(s) && QuietStep(s, s', t)
    ensures InvRunning(s')
  {
    assert SeqShape(s.pseq[t], s.gClock);
    QuietIsSoft(s, s', t);
    forall a: nat, i | a < |s.cells| && s'.cells[a].lo <= i < |s.cells[a].hist| ensures VersionKept(s, s', a, i) {
      assert LockOk(s, a);
    }
    SoftKeeps(s, s', t);
  }

  lemma QuietIsSoft(s: State, s': State, t: nat)
    requires Shape(s) && QuietStep(s, s', t) && SeqShape(s.pseq[t], s.gClock)
    ensures SoftStep(s, s', t)
  {
    hide Top;
  }

  lemma HeldIsLog(th: Thread)
    requires From(th) == 0
    ensures forall a: Addr :: Holds(th, a) <==> a in th.log
  {
  }

  lemma BeginStep(s: State, t: nat, u: bool)
    requires CanStep(s, t, Begin(u)) && s.threads[t].pc.Idle? && ThreadFacts(s, t)
    ensures QuietStep(s, DoBegin(s, t, u), t)
  {
    var s' := DoBegin(s, t, u);
  }

  lemma LoadStep(s: State, t: nat, a: Addr)
    requires CanStep(s, t, Load(a)) && s.threads[t].pc.Active? && ThreadFacts(s, t)
    ensures QuietStep(s, DoLoad(s, t, a), t)
  {
    var s' := DoLoad(s, t, a);
    HeldIsLog(s.threads[t]);
    HeldIsLog(s'.threads[t]);
  }

  lemma StoreLogOk(s: State, t: nat, a: Addr, v: Val)
    requires CanStep(s, t, Store(a, v)) && s.threads[t].pc.Active? && ThreadFacts(s, t)
    ensures LogOk(s, DoStore(s, t, a, v).threads[t])
  {
    HeldIsLog(s.threads[t]);
  }

  lemma StoreStep(s: State, t: nat, a: Addr, v: Val)
    requires CanStep(s, t, Store(a, v)) && s.threads[t].pc.Active? && ThreadFacts(s, t)
    ensures QuietStep(s, DoStore(s, t, a, v), t)
  {
    hide Holds, LogOk;
    var s' := DoStore(s, t, a, v);
    HeldIsLog(s.threads[t]);
    HeldIsLog(s'.threads[t]);
    StoreLogOk(s, t, a, v);
  }

  lemma StoreOwnStep(s: State, t: nat)
    requires CanStep(s, t, Go) && s.threads[t].pc.StoreSeq? && ThreadFacts(s, t)
    requires s.threads[t].pc.sl.locked
    ensures QuietStep(s, DoStoreCas(s, t), t)
  {
    hide Holds;
    var s' := DoStoreCas(s, t);
    HeldIsLog(s.threads[t]);
    HeldIsLog(s'.threads[t]);
    assert LogOk(s, s'.threads[t]);
  }

  lemma StoreFailStep(s: State, t: nat)
    requires CanStep(s, t, Go) && s.threads[t].pc.StoreSeq? && ThreadFacts(s, t)
    requires !s.threads[t].pc.sl.locked && CasFails(s, t)
    ensures QuietStep(s, DoStoreCas(s, t), t)
  {
    hide Mid, Holds, FenceCells;
    var s' := DoStoreCas(s, t);
    HeldIsLog(s.threads[t]);
    HeldIsLog(s'.threads[t]);
    assert LogOk(s, s'.threads[t]);
  }

  lemma RollbackEndStep(s: State, t: nat)
    requires CanStep(s, t, Go) && s.threads[t].pc.Rollback? && ThreadFacts(s, t)
    requires s.threads[t].pc.ri >= |s.threads[t].log|
    ensures QuietStep(s, DoRollback(s, t), t)
  {
    hide Holds, CanStep;
    var s' := DoRollback(s, t);
    HeldIsLog(s.threads[t]);
    HeldIsLog(s'.threads[t]);
  }

  lemma ApplyBackEndStep(s: State, t: nat)
    requires CanStep(s, t, Go) && s.threads[t].pc.ApplyBack? && ThreadFacts(s, t)
    requires s.threads[t].pc.bi >= |s.threads[t].log|
    ensures QuietStep(s, DoApplyBack(s, t), t)
  {
    var s' := DoApplyBack(s, t);
    HeldIsLog(s.threads[t]);
    HeldIsLog(s'.threads[t]);
  }

  lemma UnlockEndStep(s: State, t: nat)
    requires CanStep(s, t, Go) && s.threads[t].pc.Unlock? && ThreadFacts(s, t)
    requires s.threads[t].pc.ui >= |s.threads[t].log|
    ensures QuietStep(s, DoUnlock(s, t), t)
  {
    var s' := DoUnlock(s, t);
  }

  lemma EndReadOnlyStep(s: State, t: nat)
    requires CanStep(s, t, End) && s.threads[t].pc.Active? && ThreadFacts(s, t)
    requires s.threads[t].log == []
    ensures QuietStep(s, DoEnd(s, t), t)
  {
    var s' := DoEnd(s, t);
  }

  lemma FlushLogOk(s: State, th: Thread, pc: PC)
    requires LogOk(s, th) && th.log != [] && pc.CommitFaa? && th.pc.Validate?
    ensures LogOk(s, th.(pc := pc, marks := FlushMarks(s.cells, th.log)))
  {
  }

  lemma FlushQuiet(s: State, t: nat)
    requires CanStep(s, t, Go) && s.threads[t].pc.Validate? && ThreadFacts(s, t)
    requires s.threads[t].pc.vi >= |s.threads[t].readSet|
    ensures QuietThread(s, t, DoFlush(s, t).threads[t])
  {
    hide Addressed, FlushMarks, Holds;
    HeldIsLog(s.threads[t]);
    HeldIsLog(DoFlush(s, t).threads[t]);
    FlushLogOk(s, s.threads[t], CommitFaa);
  }

  lemma FlushStep(s: State, t: nat)
    requires CanStep(s, t, Go) && s.threads[t].pc.Validate? && ThreadFacts(s, t)
    requires forall a: Addr | Validated(s.threads[t], a) :: ValidatedEntryOk(s, t, a)
    requires s.threads[t].pc.vi >= |s.threads[t].readSet|
    ensures QuietStep(s, DoFlush(s, t), t)
  {
    var s' := DoFlush(s, t);
    FlushQuiet(s, t);
    forall a: Addr | Validated(s'.threads[t], a) ensures ValidatedEntryOk(s', t, a) {
      assert Validated(s.threads[t], a);
    }
  }
}
