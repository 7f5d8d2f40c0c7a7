/** What one step of TrinityTL2 leaves alone. */
module Tl2Moves {
  import opened Tl2Model
  import opened Tl2Inv
  import opened Tl2Steps

  /** Thread u moves: as many cells and threads, the other threads where they were, no earlier clock. */
  ghost predicate Moves(s: State, s': State, u: nat) {
    && |s'.threads| == |s.threads| && |s'.cells| == |s.cells| && s.gClock <= s'.gClock
    && (forall t | 0 <= t < |s.threads| && t != u :: s'.threads[t] == s.threads[t])
  }

  /** Of the records, only the thread's own changes its status, or a new one is added. */
  ghost predicate RecordStep(s: State, s': State, u: nat) {
    && u < |s.threads| && |s.txs| <= |s'.txs|
    && (forall k | 0 <= k < |s.txs| && k != s.threads[u].rec :: s'.txs[k] == s.txs[k])
    && (s.threads[u].rec < |s.txs| ==>
          s'.txs[s.threads[u].rec] == s.txs[s.threads[u].rec]
          || (s'.txs[s.threads[u].rec] == s.txs[s.threads[u].rec].(st := s'.txs[s.threads[u].rec].st)
              && s.txs[s.threads[u].rec].tid == u))
    && (forall k | |s.txs| <= k < |s'.txs| :: s'.txs[k].tid == u && s.threads[u].pc.Active?)
  }

  predicate Recording(pc: PC) { pc.Active? || pc.Validate? || pc.CommitFaa? || pc.CommitSync? }

  predicate Earlier(pc: PC) { pc.Idle? || pc.BeginSeq? || pc.Loaded? || pc.StoreSeq? || pc.StoreMain? }

  lemma RecordingStep(s: State, u: nat, op: Op)
    requires CanStep(s, u, op) && Recording(s.threads[u].pc)
    requires !s.threads[u].pc.Active? ==> s.threads[u].rec < |s.txs| && s.txs[s.threads[u].rec].tid == u
    ensures Moves(s, DoStep(s, u, op), u) && RecordStep(s, DoStep(s, u, op), u)
  {
    hide Shape, CellShape, Addressed, FenceCells, FlushMarks, Ok, Cur, ValidateFails;
  }

  lemma EarlierStep(s: State, u: nat, op: Op)
    requires CanStep(s, u, op) && Earlier(s.threads[u].pc)
    ensures Moves(s, DoStep(s, u, op), u) && RecordStep(s, DoStep(s, u, op), u)
  {
    hide Shape, CellShape, Addressed, FenceCells, FlushMarks, Ok, Cur;
  }

  lemma LaterStep(s: State, u: nat, op: Op)
    requires CanStep(s, u, op) && !Recording(s.threads[u].pc) && !Earlier(s.threads[u].pc)
    ensures Moves(s, DoStep(s, u, op), u) && RecordStep(s, DoStep(s, u, op), u)
  {
    hide CellShape, SeqShape, FenceCells, FlushMarks, Ok, Cur;
  }

  lemma AnyStep(s: State, u: nat, op: Op)
    requires InvRunning(s) && CanStep(s, u, op)
    ensures Moves(s, DoStep(s, u, op), u) && RecordStep(s, DoStep(s, u, op), u)
  {
    hide InvRunning, DoStep, Moves, RecordStep;
    if Recording(s.threads[u].pc) {
      if !s.threads[u].pc.Active? { RecordKnown(s, u); }
      RecordingStep(s, u, op);
    } else if Earlier(s.threads[u].pc) {
      EarlierStep(s, u, op);
    } else {
      LaterStep(s, u, op);
    }
  }

  lemma RecordKnown(s: State, u: nat)
    requires InvRunning(s) && u < |s.threads| && Recording(s.threads[u].pc) && !s.threads[u].pc.Active?
    ensures s.threads[u].rec < |s.txs| && s.txs[s.threads[u].rec].tid == u
  {
    ThreadFactsFromInv(s, u);
    hide InvRunning;
  }
}
