/**
  Commit clocks and the order of validation.  Of two transactions that conflict because one
  writes what the other read or wrote before, the earlier record has the smaller clock; only a
  transaction that overwrites what an earlier one has read may have a smaller clock than it.
*/
module Tl2Order {
  import opened Tl2Model
  import opened Tl2Inv
  import opened Tl2Reads
  import opened Tl2Theorems
  import Tl2Crash
  import Tl2Steps

  // ---------- an invariant about readers ----------

  predicate DurableWriter(s: State, k: nat, a: Addr) {
    k < |s.txs| && s.txs[k].st.Durable? && a in s.txs[k].writes
  }

  /** The writers a committed transaction has read from, or read over, have clocks up to its rClock. */
  ghost predicate ReadersAfter(s: State) {
    forall j, k: nat, a | k < j < |s.txs| && Committed(s.txs[j]) && a in s.txs[j].rd && DurableWriter(s, k, a) ::
      s.txs[k].st.clock <= s.txs[j].rClock
  }

  ghost predicate ClockAfterReads(s: State) {
    forall j | 0 <= j < |s.txs| && Committed(s.txs[j]) :: s.txs[j].rClock < ClockOf(s.txs[j])
  }

  /** The same for entries that have passed validation. */
  ghost predicate EntryAfter(s: State, th: Thread, a: Addr) {
    forall k: nat | k < th.rec && DurableWriter(s, k, a) :: s.txs[k].st.clock <= th.rClock
  }

  ghost predicate EntriesAfter(s: State) {
    forall t, a | 0 <= t < |s.threads| && Validated(s.threads[t], a) :: EntryAfter(s, s.threads[t], a)
  }

  ghost predicate Order(s: State) { ReadersAfter(s) && ClockAfterReads(s) && EntriesAfter(s) }

  // ---------- clocks and crashes ----------

  /** Whatever p_seq a crash finds is at least the clock of every durable transaction of the thread. */
  ghost predicate Covered(q: PSeq, clock: nat) { forall i | q.lo <= i < |q.hist| :: clock <= q.hist[i] }

  ghost predicate SeqsCover(s: State) {
    forall k | 0 <= k < |s.txs| && s.txs[k].st.Durable? ::
      s.txs[k].tid < |s.pseq| && Covered(s.pseq[s.txs[k].tid], s.txs[k].st.clock)
  }

  /** Running transactions began after the last recovery, above all clocks from before it. */
  ghost predicate OldReads(s: State) {
    forall t, k | 0 <= t < |s.threads| && !s.threads[t].pc.Idle? && 0 <= k < s.epoch && k < |s.txs| && s.txs[k].st.Durable? ::
      s.txs[k].st.clock <= s.threads[t].rClock
  }

  ghost predicate WritersInOrder(s: State) {
    forall j, k, a | 0 <= j < k < |s.txs| && Committed(s.txs[j]) && Committed(s.txs[k])
      && a in s.txs[j].writes && a in s.txs[k].writes :: ClockOf(s.txs[j]) < ClockOf(s.txs[k])
  }

  ghost predicate Cover(s: State) { SeqsCover(s) && OldReads(s) && WritersInOrder(s) }

  lemma {:induction false} BelowClock(s: State, k: nat)
    requires InvRunning(s) && SeqsCover(s) && k < |s.txs| && s.txs[k].st.Durable?
    ensures s.txs[k].st.clock <= s.gClock
  {
    var q := s.pseq[s.txs[k].tid];
    assert SeqShape(q, s.gClock);
    assert s.txs[k].st.clock <= q.hist[|q.hist| - 1];
  }

  /** beginTx, pload and pstore. */
  predicate Front(pc: PC) {
    pc.Idle? || pc.BeginSeq? || pc.Active? || pc.Loaded? || pc.StoreSeq? || pc.StoreMain?
  }

  /** What a step makes of its thread's p_seq. */
  predicate SeqStep(q: PSeq, q': PSeq) {
    || (q'.hist == q.hist && q'.lo >= q.lo)
    || (|q'.hist| == |q.hist| + 1 && q'.hist[..|q.hist|] == q.hist && q'.lo >= q.lo
        && |q.hist| > 0 && q'.hist[|q.hist|] >= Top(q))
  }

  ghost predicate SeqsStep(s: State, s': State, t: nat) {
    && t < |s'.pseq| == |s.pseq| && (forall u | 0 <= u < |s.pseq| && u != t :: s'.pseq[u] == s.pseq[u])
    && SeqStep(s.pseq[t], s'.pseq[t]) && s.pseq[t].lo < |s.pseq[t].hist|
  }

  lemma {:induction false} FrontSeqs(s: State, t: nat, op: Op)
    requires InvRunning(s) && CanStep(s, t, op) && Front(s.threads[t].pc)
    ensures SeqsStep(s, DoStep(s, t, op), t)
  {
    Tl2Steps.ThreadFactsFromInv(s, t);
    hide InvRunning, Shape, CellShape, Addressed, FenceCells, FlushMarks, Ok, Cur, LogOk, RecOfThread;
  }

  lemma {:induction false} BackSeqs(s: State, t: nat, op: Op)
    requires InvRunning(s) && CanStep(s, t, op) && !Front(s.threads[t].pc)
    ensures SeqsStep(s, DoStep(s, t, op), t)
  {
    hide InvCells;
    Tl2Steps.ThreadFactsFromInv(s, t);
    hide InvRunning, Shape, CellShape, Addressed, FenceCells, FlushMarks, Ok, Cur, LogOk, RecOfThread, ValidateFails;
  }

  lemma {:induction false} SeqSteps(s: State, t: nat, op: Op)
    requires InvRunning(s) && CanStep(s, t, op)
    ensures SeqsStep(s, DoStep(s, t, op), t)
  {
    hide InvRunning, Shape, DoStep, SeqsStep;
    if Front(s.threads[t].pc) { FrontSeqs(s, t, op); } else { BackSeqs(s, t, op); }
  }

  lemma {:induction false} StillCovered(q: PSeq, q': PSeq, clock: nat)
    requires Covered(q, clock) && SeqStep(q, q') && q.lo < |q.hist|
    ensures Covered(q', clock)
  {
    forall i | q'.lo <= i < |q'.hist| ensures clock <= q'.hist[i] {
      if i < |q.hist| {
        assert q'.hist[i] == q.hist[i];
      } else {
        assert clock <= Top(q);
      }
    }
  }

  /** Where the records of s' that may matter come from; `fresh` has just become durable. */
  ghost predicate RecordsFrom(s: State, s': State, t: nat) {
    && s'.epoch == s.epoch <= |s.txs| <= |s'.txs|
    && (forall k | 0 <= k < |s'.txs| && s'.txs[k].st.Durable? ::
          k < |s.txs| && (s'.txs[k] == s.txs[k] || Synced(s, s', t, k)))
  }

  /** Thread t has made its record k durable. */
  ghost predicate Synced(s: State, s': State, t: nat, k: nat)
    requires k < |s.txs| && k < |s'.txs|
  {
    && s.epoch <= k && s'.txs[k].tid == t < |s'.pseq|
    && s'.txs[k].st.Durable? && Covered(s'.pseq[t], s'.txs[k].st.clock)
  }

  lemma {:induction false} SyncedAtSync(s: State, t: nat)
    requires InvRunning(s) && CanStep(s, t, Go) && s.threads[t].pc.CommitSync?
    ensures s.threads[t].rec < |s.txs| && Synced(s, DoCommitSync(s, t), t, s.threads[t].rec)
  {
    Tl2Steps.ThreadFactsFromInv(s, t);
    hide InvRunning;
  }

  lemma {:induction false} RecordsOfStep(s: State, t: nat, op: Op)
    requires InvRunning(s) && CanStep(s, t, op)
    ensures RecordsFrom(s, DoStep(s, t, op), t)
  {
    hide InvRunning, CellShape, Addressed, FenceCells, FlushMarks, Ok, Cur, LogOk, RecOfThread, ValidateFails, Synced;
    if s.threads[t].pc.CommitSync? {
      SyncedAtSync(s, t);
    }
  }

  lemma {:induction false} SeqsCoverStep(s: State, t: nat, op: Op)
    requires InvRunning(s) && SeqsCover(s) && CanStep(s, t, op)
    ensures SeqsCover(DoStep(s, t, op))
  {
    SeqSteps(s, t, op);
    RecordsOfStep(s, t, op);
    var s' := DoStep(s, t, op);
    hide InvRunning, DoStep, CanStep, Covered, SeqStep;
    forall k | 0 <= k < |s'.txs| && s'.txs[k].st.Durable?
      ensures s'.txs[k].tid < |s'.pseq| && Covered(s'.pseq[s'.txs[k].tid], s'.txs[k].st.clock)
    {
      if s'.txs[k] == s.txs[k] && s.txs[k].tid == t {
        StillCovered(s.pseq[t], s'.pseq[t], s.txs[k].st.clock);
      }
    }
  }

  /** A step leaves rClock alone, except that beginTx sets it. */
  ghost predicate ReadClockStep(s: State, s': State, t: nat) {
    && t < |s'.threads| == |s.threads| && (forall u | 0 <= u < |s.threads| && u != t :: s'.threads[u] == s.threads[u])
    && s'.threads[t].rClock == if s.threads[t].pc.Idle? then s.gClock else s.threads[t].rClock
  }

  lemma {:induction false} FrontReadClock(s: State, t: nat, op: Op)
    requires CanStep(s, t, op) && Front(s.threads[t].pc)
    ensures ReadClockStep(s, DoStep(s, t, op), t)
  {
    hide Shape, CellShape, Addressed, FenceCells, FlushMarks, Ok, Cur;
  }

  lemma {:induction false} BackReadClock(s: State, t: nat, op: Op)
    requires CanStep(s, t, op) && !Front(s.threads[t].pc)
    ensures ReadClockStep(s, DoStep(s, t, op), t)
  {
    hide Shape, CellShape, Addressed, FenceCells, FlushMarks, Ok, Cur, ValidateFails;
  }

  lemma {:induction false} ReadClockOfStep(s: State, t: nat, op: Op)
    requires CanStep(s, t, op)
    ensures ReadClockStep(s, DoStep(s, t, op), t)
  {
    hide Shape, DoStep, ReadClockStep;
    if Front(s.threads[t].pc) { FrontReadClock(s, t, op); } else { BackReadClock(s, t, op); }
  }

  lemma {:induction false} OldReadsStep(s: State, t: nat, op: Op)
    requires InvRunning(s) && SeqsCover(s) && OldReads(s) && CanStep(s, t, op)
    ensures OldReads(DoStep(s, t, op))
  {
    ReadClockOfStep(s, t, op);
    RecordsOfStep(s, t, op);
    var s' := DoStep(s, t, op);
    hide InvRunning, SeqsCover, DoStep, CanStep;
    forall u, k | 0 <= u < |s'.threads| && !s'.threads[u].pc.Idle? && 0 <= k < s'.epoch && k < |s'.txs| && s'.txs[k].st.Durable?
      ensures s'.txs[k].st.clock <= s'.threads[u].rClock
    {
      assert s'.txs[k] == s.txs[k];
      if u == t && s.threads[t].pc.Idle? {
        BelowClock(s, k);
      }
    }
  }

  /** Every committed record of s' was committed in s, with the same clock and writes. */
  predicate NoneCommits(s: State, s': State) {
    forall k | 0 <= k < |s'.txs| && Committed(s'.txs[k]) ::
      k < |s.txs| && Committed(s.txs[k]) && ClockOf(s.txs[k]) == ClockOf(s'.txs[k]) && s.txs[k].writes == s'.txs[k].writes
  }

  lemma {:induction false} NoneCommitsStep(s: State, t: nat, op: Op)
    requires InvRunning(s) && CanStep(s, t, op) && !s.threads[t].pc.CommitFaa?
    ensures NoneCommits(s, DoStep(s, t, op))
  {
    hide InvRunning, Shape, NoneCommits;
    var pc := s.threads[t].pc;
    if pc.CommitSync? {
      SyncCommits(s, t);
    } else if pc.Validate? || pc.Active? {
      ValidateCommits(s, t, op);
    } else {
      SameRecords(s, t, op);
      SameCommits(s, DoStep(s, t, op));
    }
  }

  lemma {:induction false} SameCommits(s: State, s': State)
    requires s'.txs == s.txs
    ensures NoneCommits(s, s')
  {
  }

  lemma {:induction false} SyncCommits(s: State, t: nat)
    requires InvRunning(s) && CanStep(s, t, Go) && s.threads[t].pc.CommitSync?
    ensures NoneCommits(s, DoCommitSync(s, t))
  {
    AtSync(s, t);
    hide InvRunning, Shape, FenceCells;
  }

  lemma {:induction false} ValidateCommits(s: State, t: nat, op: Op)
    requires CanStep(s, t, op) && (s.threads[t].pc.Validate? || s.threads[t].pc.Active?)
    ensures NoneCommits(s, DoStep(s, t, op))
  {
    hide CellShape, Addressed, FlushMarks, Ok, Cur, ValidateFails;
  }

  lemma {:induction false} SameRecords(s: State, t: nat, op: Op)
    requires CanStep(s, t, op)
    requires var pc := s.threads[t].pc; !pc.CommitFaa? && !pc.CommitSync? && !pc.Validate? && !pc.Active?
    ensures DoStep(s, t, op).txs == s.txs
  {
    hide Shape, CellShape, Addressed, FenceCells, FlushMarks, Ok, Cur;
  }

  lemma {:induction false} CommitInOrder(s: State, t: nat)
    requires InvRunning(s) && SeqsCover(s) && WritersInOrder(s) && CanStep(s, t, Go) && s.threads[t].pc.CommitFaa?
    ensures WritersInOrder(DoCommitFaa(s, t))
  {
    AtCommit(s, t);
    assert WritersSettle(s.txs);
    var s', rec := DoCommitFaa(s, t), s.threads[t].rec;
    forall j, k, a | 0 <= j < k < |s'.txs| && Committed(s'.txs[j]) && Committed(s'.txs[k])
      && a in s'.txs[j].writes && a in s'.txs[k].writes ensures ClockOf(s'.txs[j]) < ClockOf(s'.txs[k])
    {
      assert a in s.txs[j].writes && a in s.txs[k].writes;
      assert j != rec;
      if k == rec {
        BelowClock(s, j);
      }
    }
  }

  lemma {:induction false} CoverStep(s: State, t: nat, op: Op)
    requires InvRunning(s) && Cover(s) && CanStep(s, t, op)
    ensures Cover(DoStep(s, t, op))
  {
    hide InvRunning, SeqsCover, OldReads;
    SeqsCoverStep(s, t, op);
    OldReadsStep(s, t, op);
    if s.threads[t].pc.CommitFaa? {
      CommitInOrder(s, t);
    } else {
      NoneCommitsStep(s, t, op);
      hide DoStep, CanStep;
    }
  }

  lemma {:induction false} CoverCrash(s: State, ci: seq<nat>, qi: seq<nat>)
    requires Cover(s) && CrashChoice(s, ci, qi) && |s.pseq| == |s.threads|
    ensures Cover(DoCrash(s, ci, qi))
  {
    var s', q := DoCrash(s, ci, qi), CrashSeqs(s, qi);
    forall k | 0 <= k < |s'.txs| && s'.txs[k].st.Durable?
      ensures s'.txs[k].tid < |s'.pseq| && Covered(s'.pseq[s'.txs[k].tid], s'.txs[k].st.clock)
    {
      var i := s.txs[k].tid;
      if s.txs[k].st.Durable? {
        assert Covered(s.pseq[i], s.txs[k].st.clock) && s.txs[k].st.clock <= q[i];
      }
    }
  }

  lemma {:induction false} CoverRecover(s: State)
    requires Tl2Crash.InvRecovering(s) && Cover(s) && Enabled(s, Recover)
    ensures Cover(DoRecover(s))
  {
    hide Tl2Crash.CellRecovering, RecHalf, Cur;
  }

  // ---------- every step keeps it ----------

  /** Only thread t has changed, and it has passed no more entries. */
  ghost predicate Aside(s: State, s': State, t: nat) {
    && t < |s.threads| == |s'.threads| && s'.epoch == s.epoch
    && (forall u | 0 <= u < |s.threads| && u != t :: s'.threads[u] == s.threads[u])
    && (forall a | Validated(s'.threads[t], a) ::
          && Validated(s.threads[t], a)
          && s'.threads[t].rec == s.threads[t].rec && s'.threads[t].rClock == s.threads[t].rClock)
  }

  lemma {:induction false} AsideKeeps(s: State, s': State, t: nat)
    requires Order(s) && Aside(s, s', t) && s'.txs == s.txs
    ensures Order(s')
  {
    forall u, a | 0 <= u < |s'.threads| && Validated(s'.threads[u], a) ensures EntryAfter(s', s'.threads[u], a) {
      assert EntryAfter(s, s.threads[u], a);
    }
  }

  lemma {:induction false} EndOrder(s: State, t: nat)
    requires InvRunning(s) && Order(s) && CanStep(s, t, End) && s.threads[t].pc.Active?
    ensures Order(DoEnd(s, t))
  {
    hide InvRunning;
    var s' := DoEnd(s, t);
    if s.threads[t].log == [] {
      AsideKeeps(s, s', t);
    } else {
      RecInRange(s);
      forall u, a | 0 <= u < |s'.threads| && Validated(s'.threads[u], a) ensures EntryAfter(s', s'.threads[u], a) {
        assert u != t && EntryAfter(s, s.threads[u], a);
      }
    }
  }

  /** Entries that have passed are of transactions with a record. */
  lemma {:induction false} RecInRange(s: State)
    requires InvRunning(s)
    ensures forall t, a | 0 <= t < |s.threads| && Validated(s.threads[t], a) :: s.threads[t].rec < |s.txs|
  {
    hide InvCells, InvPersist, InvReads;
    assert ValidatedOk(s);
  }

  lemma {:induction false} PassOrder(s: State, t: nat)
    requires InvRunning(s) && OldReads(s) && Order(s) && CanStep(s, t, Go) && s.threads[t].pc.Validate?
    requires s.threads[t].pc.vi < |s.threads[t].readSet|
    requires s.threads[t].readSet[s.threads[t].pc.vi] < |s.cells| && !ValidateFails(s, t)
    ensures Order(DoValidate(s, t))
  {
    hide InvRunning, OldReads, ValidateFails, ReadersAfter, ClockAfterReads;
    PassedEntry(s, t);
    var s', th := DoValidate(s, t), s.threads[t];
    SameTxs(s, s');
    forall u, a | 0 <= u < |s'.threads| && Validated(s'.threads[u], a) ensures EntryAfter(s', s'.threads[u], a) {
      if u == t && a == th.readSet[th.pc.vi] {
        assert EntryAfter(s, th, a);
      } else {
        assert Validated(s.threads[u], a) && EntryAfter(s, s.threads[u], a);
      }
    }
  }

  lemma {:induction false} SameTxs(s: State, s': State)
    requires Order(s) && s'.txs == s.txs && s'.epoch == s.epoch
    ensures ReadersAfter(s') && ClockAfterReads(s')
  {
  }

  lemma {:induction false} FailOrder(s: State, t: nat)
    requires InvRunning(s) && Order(s) && CanStep(s, t, Go) && s.threads[t].pc.Validate?
    requires s.threads[t].pc.vi < |s.threads[t].readSet|
    requires s.threads[t].readSet[s.threads[t].pc.vi] < |s.cells| && ValidateFails(s, t)
    ensures Order(DoValidate(s, t))
  {
    hide InvRunning, ValidateFails;
    var s', th := DoValidate(s, t), s.threads[t];
    forall u, a | 0 <= u < |s'.threads| && Validated(s'.threads[u], a) ensures EntryAfter(s', s'.threads[u], a) {
      assert u != t && EntryAfter(s, s.threads[u], a);
    }
  }

  /** The lock word validation has accepted bounds the clocks of all writers of the cell. */
  lemma {:induction false} PassedEntry(s: State, t: nat)
    requires InvRunning(s) && OldReads(s) && CanStep(s, t, Go) && s.threads[t].pc.Validate?
    requires s.threads[t].pc.vi < |s.threads[t].readSet|
    requires s.threads[t].readSet[s.threads[t].pc.vi] < |s.cells| && !ValidateFails(s, t)
    ensures EntryAfter(s, s.threads[t], s.threads[t].readSet[s.threads[t].pc.vi])
  {
    var a := s.threads[t].readSet[s.threads[t].pc.vi];
    forall k: nat | k < s.threads[t].rec && DurableWriter(s, k, a) ensures s.txs[k].st.clock <= s.threads[t].rClock {
      if k >= s.epoch {
        AcceptableOld(s, t, a, k);
      }
    }
  }

  lemma {:induction false} FlushOrder(s: State, t: nat)
    requires Order(s) && CanStep(s, t, Go) && s.threads[t].pc.Validate?
    requires s.threads[t].pc.vi >= |s.threads[t].readSet|
    ensures Order(DoFlush(s, t))
  {
    var s', th := DoFlush(s, t), s.threads[t];
    forall a | Validated(s'.threads[t], a) ensures Validated(th, a) {
      var i :| 0 <= i < |th.readSet| && th.readSet[i] == a;
      assert i < th.pc.vi;
    }
    AsideKeeps(s, s', t);
  }

  /** Thread t changes the status of its record to st and has no passed entries after that. */
  ghost predicate Restated(s: State, s': State, t: nat, st: Status) {
    && t < |s.threads| == |s'.threads| && s'.epoch == s.epoch && s.threads[t].rec < |s.txs|
    && s'.txs == s.txs[s.threads[t].rec := s.txs[s.threads[t].rec].(st := st)]
    && (forall u | 0 <= u < |s.threads| && u != t :: s'.threads[u] == s.threads[u])
    && (s'.threads[t].pc.CommitSeq? || s'.threads[t].pc.ApplyBack?)
  }

  lemma {:induction false} CommitRestates(s: State, t: nat)
    requires CanStep(s, t, Go) && s.threads[t].pc.CommitFaa?
    ensures Restated(s, DoCommitFaa(s, t), t, InDoubt(s.gClock + 1))
  {
    hide Shape, FenceCells;
  }

  lemma {:induction false} SyncRestates(s: State, t: nat)
    requires CanStep(s, t, Go) && s.threads[t].pc.CommitSync?
    ensures Restated(s, DoCommitSync(s, t), t, Durable(s.threads[t].nextClock))
  {
    hide Shape, FenceCells;
  }

  /** What is known of a thread about to take its commit clock. */
  lemma {:induction false} AtCommit(s: State, t: nat)
    requires InvRunning(s) && t < |s.threads| && s.threads[t].pc.CommitFaa?
    ensures var th := s.threads[t];
      && th.rec < |s.txs| && s.txs[th.rec] == Tx(t, th.rClock, th.rd, th.wr, Pending) && th.rClock <= s.gClock
      && (forall a <- th.rd :: Validated(th, a))
  {
    assert RecOfThread(s, t);
    assert LogOk(s, s.threads[t]) && ClocksOk(s, s.threads[t]);
  }

  lemma {:induction false} CommitOrder(s: State, t: nat)
    requires InvRunning(s) && Order(s) && CanStep(s, t, Go) && s.threads[t].pc.CommitFaa?
    ensures Order(DoCommitFaa(s, t))
  {
    hide InvCells, Threads, LogOk, ClocksOk, Doubt, Addressed, Locks, LaterClocks, Snapshots, AbortPost, Restated,
      ValidatedOk;
    AtCommit(s, t);
    CommitRestates(s, t);
    hide InvRunning, CanStep, DoCommitFaa;
    var s', th := DoCommitFaa(s, t), s.threads[t];
    assert forall k: nat, a :: DurableWriter(s', k, a) ==> DurableWriter(s, k, a) && k != th.rec;
    forall j, k: nat, a | k < j < |s'.txs| && Committed(s'.txs[j]) && a in s'.txs[j].rd && DurableWriter(s', k, a)
      ensures s'.txs[k].st.clock <= s'.txs[j].rClock
    {
      if j == th.rec {
        assert EntryAfter(s, th, a);
      }
    }
    forall u, a | 0 <= u < |s'.threads| && Validated(s'.threads[u], a) ensures EntryAfter(s', s'.threads[u], a) {
      assert u != t && EntryAfter(s, s.threads[u], a);
    }
  }

  /** Record r, about to be durable, writes nothing that a later committed or passed entry has read. */
  ghost predicate Unread(s: State, r: nat)
    requires r < |s.txs|
  {
    && (forall j, a | r < j < |s.txs| && Committed(s.txs[j]) && a in s.txs[j].rd :: a !in s.txs[r].writes)
    && (forall u, a | 0 <= u < |s.threads| && Validated(s.threads[u], a) && r < s.threads[u].rec :: a !in s.txs[r].writes)
  }

  /** Nobody has passed or read a cell of a transaction in doubt. */
  lemma {:induction false} AtSync(s: State, t: nat)
    requires InvRunning(s) && t < |s.threads| && s.threads[t].pc.CommitSync?
    ensures var th := s.threads[t];
      && th.rec < |s.txs| && s.txs[th.rec].st == InDoubt(th.nextClock)
      && Unread(s, th.rec)
  {
    assert RecOfThread(s, t);
    assert SerialStable(s.txs) && ValidatedOk(s);
  }

  lemma {:induction false} SyncReaders(s: State, s': State, t: nat)
    requires t < |s.threads| && s.threads[t].rec < |s.txs| && s.txs[s.threads[t].rec].st.InDoubt?
    requires Restated(s, s', t, Durable(s.txs[s.threads[t].rec].st.clock)) && Unread(s, s.threads[t].rec)
    requires ReadersAfter(s) && ClockAfterReads(s)
    ensures ReadersAfter(s') && ClockAfterReads(s')
  {
    var r := s.threads[t].rec;
    forall j, k: nat, a | k < j < |s'.txs| && Committed(s'.txs[j]) && a in s'.txs[j].rd && DurableWriter(s', k, a)
      ensures s'.txs[k].st.clock <= s'.txs[j].rClock
    {
      assert Committed(s.txs[j]) && k != r && DurableWriter(s, k, a);
    }
  }

  lemma {:induction false} SyncEntries(s: State, s': State, t: nat)
    requires t < |s.threads| && s.threads[t].rec < |s.txs| && s.txs[s.threads[t].rec].st.InDoubt?
    requires Restated(s, s', t, Durable(s.txs[s.threads[t].rec].st.clock)) && Unread(s, s.threads[t].rec)
    requires EntriesAfter(s)
    ensures EntriesAfter(s')
  {
    forall u, a | 0 <= u < |s'.threads| && Validated(s'.threads[u], a) ensures EntryAfter(s', s'.threads[u], a) {
      assert u != t && EntryAfter(s, s.threads[u], a);
      forall k: nat | k < s'.threads[u].rec && DurableWriter(s', k, a) ensures DurableWriter(s, k, a) {
        assert k != s.threads[t].rec;
      }
    }
  }

  lemma {:induction false} SyncOrder(s: State, t: nat)
    requires InvRunning(s) && Order(s) && CanStep(s, t, Go) && s.threads[t].pc.CommitSync?
    ensures Order(DoCommitSync(s, t))
  {
    AtSync(s, t);
    SyncRestates(s, t);
    hide InvRunning, Shape, DoCommitSync, Restated, ReadersAfter, ClockAfterReads, EntriesAfter;
    SyncReaders(s, DoCommitSync(s, t), t);
    SyncEntries(s, DoCommitSync(s, t), t);
  }

  /** The steps that neither add a record nor settle one nor pass an entry. */
  predicate Elsewhere(pc: PC, op: Op) {
    !(pc.Active? && op.End?) && !pc.Validate? && !pc.CommitFaa? && !pc.CommitSync?
  }

  lemma {:induction false} ElsewhereAside(s: State, t: nat, op: Op)
    requires CanStep(s, t, op) && Elsewhere(s.threads[t].pc, op)
    ensures Aside(s, DoStep(s, t, op), t) && DoStep(s, t, op).txs == s.txs
  {
    hide DoCommitSync, DoCommitFaa, FenceCell, Top;
    NothingPassed(s, t, op);
    hide Shape, Addressed, FenceCells, FlushMarks, Ok, Cur, Validated;
  }

  lemma {:induction false} FrontNothingPassed(s: State, t: nat, op: Op)
    requires CanStep(s, t, op) && Elsewhere(s.threads[t].pc, op) && Front(s.threads[t].pc)
    ensures forall a :: !Validated(DoStep(s, t, op).threads[t], a)
  {
    hide Shape, Addressed, FenceCells, FlushMarks, Ok, Cur;
  }

  lemma {:induction false} BackNothingPassed(s: State, t: nat, op: Op)
    requires CanStep(s, t, op) && Elsewhere(s.threads[t].pc, op) && !Front(s.threads[t].pc)
    ensures forall a :: !Validated(DoStep(s, t, op).threads[t], a)
  {
    hide Shape, Addressed, FenceCells, FlushMarks, Ok, Cur;
  }

  lemma {:induction false} NothingPassed(s: State, t: nat, op: Op)
    requires CanStep(s, t, op) && Elsewhere(s.threads[t].pc, op)
    ensures forall a :: !Validated(DoStep(s, t, op).threads[t], a)
  {
    hide Shape, DoStep, Elsewhere, Validated;
    if Front(s.threads[t].pc) { FrontNothingPassed(s, t, op); } else { BackNothingPassed(s, t, op); }
  }

  lemma {:induction false} StepOrder(s: State, t: nat, op: Op)
    requires InvRunning(s) && OldReads(s) && Order(s) && CanStep(s, t, op)
    ensures Order(DoStep(s, t, op))
  {
    hide InvRunning, OldReads, Order, Aside;
    var pc := s.threads[t].pc;
    if Elsewhere(pc, op) {
      ElsewhereAside(s, t, op);
      AsideKeeps(s, DoStep(s, t, op), t);
    } else if pc.Active? {
      EndOrder(s, t);
    } else if pc.CommitFaa? {
      CommitOrder(s, t);
    } else if pc.CommitSync? {
      SyncOrder(s, t);
    } else if pc.vi >= |s.threads[t].readSet| {
      FlushOrder(s, t);
    } else if ValidateFails(s, t) {
      FailOrder(s, t);
    } else {
      PassOrder(s, t);
    }
  }

  /** A transaction that a crash makes durable has no later reader. */
  lemma {:induction false} OrderCrash(s: State, ci: seq<nat>, qi: seq<nat>)
    requires Order(s) && SerialStable(s.txs) && CrashChoice(s, ci, qi)
    ensures Order(DoCrash(s, ci, qi))
  {
    var s' := DoCrash(s, ci, qi);
    forall j, k: nat, a | k < j < |s'.txs| && Committed(s'.txs[j]) && a in s'.txs[j].rd && DurableWriter(s', k, a)
      ensures s'.txs[k].st.clock <= s'.txs[j].rClock
    {
      assert Committed(s.txs[j]) && a in s.txs[j].rd && a in s.txs[k].writes;
      assert DurableWriter(s, k, a);
    }
    forall j | 0 <= j < |s'.txs| && Committed(s'.txs[j]) ensures s'.txs[j].rClock < ClockOf(s'.txs[j]) {
      assert Committed(s.txs[j]);
    }
  }

  lemma {:induction false} NoneUnsettled(s: State)
    requires Inv(s)
    ensures SerialStable(s.txs) && |s.pseq| == |s.threads|
  {
  }

  lemma {:induction false} OrderRecover(s: State)
    requires Tl2Crash.InvRecovering(s) && Order(s) && Enabled(s, Recover)
    ensures Order(DoRecover(s))
  {
    var s' := DoRecover(s);
    hide Tl2Crash.CellRecovering, RecHalf, Cur;
    assert s'.txs == s.txs && s'.threads == s.threads;
  }

  lemma {:induction false} ActionOrder(s: State, act: Action)
    requires Inv(s) && Cover(s) && Order(s) && Enabled(s, act)
    ensures Cover(Apply(s, act)) && Order(Apply(s, act))
  {
    match act
    case Step(t, op) =>
      assert InvRunning(s);
      hide InvRunning, SeqsCover, OldReads, WritersInOrder, Order, DoStep;
      CoverStep(s, t, op);
      StepOrder(s, t, op);
    case Crash(ci, qi) =>
      NoneUnsettled(s);
      hide Inv, Cover, Order, DoCrash;
      CoverCrash(s, ci, qi);
      OrderCrash(s, ci, qi);
    case Recover =>
      assert Tl2Crash.InvRecovering(s);
      hide Tl2Crash.InvRecovering, Cover, Order, DoRecover;
      CoverRecover(s);
      OrderRecover(s);
  }

  lemma {:induction false} RunOrder(s: State, acts: seq<Action>)
    requires Inv(s) && Cover(s) && Order(s) && Run(s, acts)
    ensures Cover(After(s, acts)) && Order(After(s, acts))
    decreases |acts|
  {
    hide Inv, Cover, Order;
    if acts != [] {
      ActionKeeps(s, acts[0]);
      ActionOrder(s, acts[0]);
      RunOrder(Apply(s, acts[0]), acts[1..]);
    }
  }

  lemma {:induction false} ReachableOrder(s: State)
    requires Reachable(s)
    ensures Cover(s) && Order(s)
  {
    var n: nat, m: nat, acts: seq<Action> :| Run(Init(n, m), acts) && After(Init(n, m), acts) == s;
    Tl2Crash.InitKeeps(n, m);
    assert Cover(Init(n, m)) && Order(Init(n, m));
    RunOrder(Init(n, m), acts);
  }

  // ---------- the theorems ----------

  /** Record k overwrites, later in the order, what record j has read, and has the smaller clock. */
  ghost predicate Inverted(s: State, j: nat, k: nat, a: Addr) {
    && j < k && j < |s.txs| && s.txs[j].st.Durable? && a in s.txs[j].rd && DurableWriter(s, k, a)
    && s.txs[k].st.clock < s.txs[j].st.clock
  }

  /** Conflicts of the two other kinds are in clock order: write after write, and read after write. */
  lemma {:induction false} ClocksFollowConflicts(s: State, j: nat, k: nat, a: Addr)
    requires Reachable(s) && j < k < |s.txs| && DurableWriter(s, j, a) && s.txs[k].st.Durable?
    requires a in s.txs[k].writes || a in s.txs[k].rd
    ensures s.txs[j].st.clock < s.txs[k].st.clock
  {
    ReachableOrder(s);
    if a in s.txs[k].writes {
      assert ClockOf(s.txs[j]) < ClockOf(s.txs[k]);
    }
  }

  /** Record k comes before j by clock exactly if it does in the order of validation. */
  predicate ClockAgrees(s: State, j: nat, k: nat)
    requires j < |s.txs| && k < |s.txs| && s.txs[j].st.Durable? && s.txs[k].st.Durable?
  {
    s.txs[k].st.clock < s.txs[j].st.clock <==> k < j
  }

  /**
    Serial by clock: the writers of a that committed with a smaller clock than j are those that
    j has read over or read from.  That is so for every cell j has read exactly unless some later
    transaction overwrote the cell and took a smaller clock.
  */
  lemma {:induction false} ClockOrderIsExact(s: State, j: nat, a: Addr)
    requires Reachable(s) && j < |s.txs| && s.txs[j].st.Durable? && a in s.txs[j].rd
    ensures (forall k: nat | k != j && DurableWriter(s, k, a) :: ClockAgrees(s, j, k))
      <==> (forall k: nat :: !Inverted(s, j, k, a))
  {
    forall k: nat | k != j && DurableWriter(s, k, a) ensures ClockAgrees(s, j, k) <==> !Inverted(s, j, k, a) {
      if k < j {
        ClocksFollowConflicts(s, k, j, a);
      }
    }
  }
}
