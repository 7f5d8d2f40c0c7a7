/** The invariant of the TrinityTL2 machine, in named parts. */
module Tl2Inv {
  import opened Tl2Model

  // ---------- phases of a transaction ----------

  predicate Pre(pc: PC) {
    pc.Active? || pc.Loaded? || pc.StoreSeq? || pc.StoreMain? || pc.Validate? || pc.CommitFaa?
  }
  predicate Rolling(pc: PC) { pc.Rollback? || pc.AbortFaa? }
  predicate Doubt(pc: PC) { pc.CommitSeq? || pc.CommitSync? }
  predicate AbortPost(pc: PC) { pc.AbortSeq? || pc.AbortSync? }
  predicate Done(pc: PC) { pc.ApplyBack? || pc.Unlock? }
  predicate PostFaa(pc: PC) { Doubt(pc) || AbortPost(pc) || Done(pc) }

  /** Index of the first log entry whose cell thread th still has locked. */
  function From(th: Thread): nat {
    match th.pc
    case Idle => |th.log|
    case BeginSeq => |th.log|
    case Unlock(i, _) => if i <= |th.log| then i else |th.log|
    case _ => 0
  }

  predicate Holds(th: Thread, a: Addr) {
    exists i :: From(th) <= i < |th.log| && th.log[i] == a
  }

  predicate NoDup(log: seq<Addr>) {
    forall i, j | 0 <= i < j < |log| :: log[i] != log[j]
  }

  predicate Unsettled(x: Tx) { x.st.Pending? || x.st.InDoubt? }
  predicate Committed(x: Tx) { x.st.InDoubt? || x.st.Durable? }

  function ClockOf(x: Tx): nat
    requires Committed(x)
  {
    x.st.clock
  }

  // ---------- per thread ----------

  ghost predicate Mid(th: Thread, a: Addr) { th.pc.StoreMain? && th.pc.wa == a }

  /** p_seq of a thread relative to its progress. */
  ghost predicate SeqOk(th: Thread, q: PSeq) {
    var last := |q.hist| - 1;
    && q.lo <= q.mark <= last
    && (th.pc.BeginSeq? ==> Top(q) <= th.rClock)
    && (Pre(th.pc) || Rolling(th.pc) || th.pc.AbortSeq? ==>
        && Top(q) <= th.rClock
        && (th.update ==> Top(q) == th.rClock && q.mark == last)
        && (th.log != [] ==> q.lo == last))
    && (th.pc.CommitSeq? ==> Top(q) == th.rClock && q.lo == last)
    && (th.pc.CommitSync? ==>
        && q.lo == last - 1 && q.mark == last && q.hist[last - 1] == th.rClock && Top(q) == th.nextClock)
    && (th.pc.AbortSync? ==> q.mark == last && Top(q) == th.nextClock)
    && (Done(th.pc) ==> q.lo == last && Top(q) == th.nextClock)
  }

  ghost predicate LogOk(s: State, th: Thread) {
    && NoDup(th.log)
    && Addressed(s.cells, th.log)
    && Addressed(s.cells, th.readSet)
    && (!th.update ==> th.log == [])
    && (Pre(th.pc) || Doubt(th.pc) ==> forall a :: a in th.wr || Mid(th, a) <==> a in th.log)
    && (th.update ==> forall a :: a in th.rd <==> a in th.readSet)
    && (th.pc.BeginSeq? ==> th.log == [] && th.wr == map[] && th.rd == map[] && th.readSet == [] && th.update)
    && (th.pc.StoreSeq? && th.pc.sl.locked ==> th.pc.sa in th.log)
    && (th.pc.StoreSeq? ==> Ok(th.rClock, 0, th.pc.sl) || th.pc.sl.locked)
    && (th.pc.StoreSeq? || th.pc.StoreMain? ==> th.update)
    && (th.pc.Loaded? ==> th.pc.la < |s.cells|)
    && (th.pc.StoreSeq? ==> th.pc.sa < |s.cells|)
    && (th.pc.StoreMain? ==> th.pc.wa in th.log)
    && (th.pc.Validate? ==> th.log != [] && th.pc.vi <= |th.readSet|)
    && (th.pc.CommitFaa? ==> th.log != [])
    && (th.pc.ApplyBack? ==> th.pc.bi <= |th.log|)
    && (th.pc.Unlock? ==> th.pc.ui <= |th.log|)
    && (th.pc.Rollback? ==> th.pc.ri <= |th.log|)
    && (th.pc.CommitFaa? || th.pc.AbortFaa? ==>
        forall a <- th.log :: a in th.marks && th.marks[a] == |s.cells[a].hist| - 1)
    && (forall a | a in th.marks :: a < |s.cells| && th.marks[a] < |s.cells[a].hist|)
  }

  ghost predicate ClocksOk(s: State, th: Thread) {
    && th.rClock <= s.gClock
    && s.epoch <= th.pos <= |s.txs|
    && (PostFaa(th.pc) ==> th.rClock < th.nextClock <= s.gClock)
  }

  /** The current record of a validating or in-doubt thread. */
  ghost predicate RecOfThread(s: State, t: nat)
    requires t < |s.threads|
  {
    var th := s.threads[t];
    (th.pc.Validate? || th.pc.CommitFaa? || Doubt(th.pc) ==>
       && th.pos <= th.rec < |s.txs|
       && s.txs[th.rec] == Tx(t, th.rClock, th.rd, th.wr, if Doubt(th.pc) then InDoubt(th.nextClock) else Pending))
    && (th.pc.ApplyBack? || (th.pc.Unlock? && th.pc.commit) ==>
       && th.rec < |s.txs|
       && s.txs[th.rec] == Tx(t, th.rClock, th.rd, th.wr, Durable(th.nextClock)))
  }

  ghost predicate Threads(s: State) {
    && |s.pseq| == |s.threads|
    && forall t | 0 <= t < |s.threads| ::
      s.threads[t].pc.Idle? || (LogOk(s, s.threads[t]) && ClocksOk(s, s.threads[t]))
  }

  ghost predicate Seqs(s: State) {
    && |s.pseq| == |s.threads|
    && forall t | 0 <= t < |s.threads| ::
      |s.pseq[t].hist| > 0 && SeqOk(s.threads[t], s.pseq[t])
  }

  ghost predicate Recs(s: State) {
    && (forall t | 0 <= t < |s.threads| :: RecOfThread(s, t))
    && (forall k | 0 <= k < |s.txs| && Unsettled(s.txs[k]) ::
        && s.txs[k].tid < |s.threads|
        && s.threads[s.txs[k].tid].rec == k
        && (s.threads[s.txs[k].tid].pc.Validate? || s.threads[s.txs[k].tid].pc.CommitFaa?
            || Doubt(s.threads[s.txs[k].tid].pc)))
  }

  // ---------- locks and cell values ----------

  /** What a thread that has locked cell a guarantees about its contents. */
  ghost predicate OwnedOk(th: Thread, a: Addr, c: Cell, v: Val) {
    && c.lseq.sq == th.rClock
    && (if Done(th.pc) then c.main == v else c.back == v)
    && ((Pre(th.pc) || Doubt(th.pc)) && a in th.wr && !Mid(th, a) ==> c.main == th.wr[a])
    && (th.pc.AbortFaa? || AbortPost(th.pc) || th.pc.Unlock? ==> c.main == c.back)
    && (th.pc.Rollback? ==> forall j | 0 <= j < th.pc.ri && j < |th.log| && th.log[j] == a :: c.main == c.back)
    && (th.pc.ApplyBack? ==> forall j | 0 <= j < th.pc.bi && j < |th.log| && th.log[j] == a :: c.main == c.back)
  }

  ghost predicate LockOk(s: State, a: Addr)
    requires a < |s.cells| && |s.cells[a].hist| > 0
  {
    var c := Cur(s.cells[a]);
    c.lseq.locked ==>
      && c.lseq.tid < |s.threads|
      && Holds(s.threads[c.lseq.tid], a)
      && OwnedOk(s.threads[c.lseq.tid], a, c, Replay(s.txs, |s.txs|, a))
  }

  ghost predicate LockedBy(s: State, t: nat, a: Addr) {
    && a < |s.cells| && |s.cells[a].hist| > 0
    && Cur(s.cells[a]).lseq.locked && Cur(s.cells[a]).lseq.tid == t
  }

  ghost predicate Locks(s: State) {
    && (forall a | 0 <= a < |s.cells| :: |s.cells[a].hist| > 0)
    && (forall a | 0 <= a < |s.cells| :: LockOk(s, a))
    && (forall t, a | 0 <= t < |s.threads| && Holds(s.threads[t], a) :: LockedBy(s, t, a))
  }

  // ---------- persistence ----------

  ghost predicate Below(sq: nat, q: PSeq) { forall j | q.lo <= j < |q.hist| :: sq < q.hist[j] }
  ghost predicate AtMost(sq: nat, q: PSeq) { forall j | q.lo <= j < |q.hist| :: sq <= q.hist[j] }

  /** A locked persisted version that recovery rolls back although its lock is still held. */
  ghost predicate OpenVersion(th: Thread, c: Cell, cur: Cell, last: bool, v: Val) {
    && cur.lseq == c.lseq
    && c.back == v
    && (Pre(th.pc) || Rolling(th.pc) || (Doubt(th.pc) && last) || (AbortPost(th.pc) && c.main == v))
  }

  /** Every version of cell a that may be found after a crash recovers to v, its replayed value. */
  ghost predicate VersionOk(s: State, c: Cell, cur: Cell, last: bool, v: Val)
    requires |s.pseq| == |s.threads|
  {
    if c.lseq.locked then
      && c.lseq.tid < |s.threads|
      && ((Below(c.lseq.sq, s.pseq[c.lseq.tid]) && c.main == v)
          || OpenVersion(s.threads[c.lseq.tid], c, cur, last, v))
    else
      && c.main == c.back == v
      && (c.lseq.sq == 0 || (c.lseq.tid < |s.threads| && AtMost(c.lseq.sq, s.pseq[c.lseq.tid])))
  }

  ghost predicate CellPersist(s: State, a: Addr)
    requires a < |s.cells| && CellShape(s.cells[a]) && |s.pseq| == |s.threads|
  {
    var h := s.cells[a].hist;
    forall i | s.cells[a].lo <= i < |h| ::
      VersionOk(s, h[i], h[|h| - 1], i == |h| - 1, Replay(s.txs, |s.txs|, a))
  }

  ghost predicate Persist(s: State) {
    && |s.pseq| == |s.threads|
    && (forall a | 0 <= a < |s.cells| :: CellShape(s.cells[a]))
    && (forall a | 0 <= a < |s.cells| :: CellPersist(s, a))
  }

  /** In-doubt transactions have nothing but their own version durable. */
  ghost predicate DoubtFlushed(s: State) {
    forall t, a: Addr {:trigger a in s.threads[t].log} | 0 <= t < |s.threads| && Doubt(s.threads[t].pc) && a in s.threads[t].log ::
      a < |s.cells| && s.cells[a].lo == |s.cells[a].hist| - 1
  }

  // ---------- versions and clocks ----------

  function Bound(s: State, c: Cell): nat {
    if c.lseq.locked && c.lseq.tid < |s.threads| then
      (if Done(s.threads[c.lseq.tid].pc) then s.threads[c.lseq.tid].nextClock else s.threads[c.lseq.tid].rClock)
    else c.lseq.sq
  }

  ghost predicate Versions(s: State) {
    && (forall a | 0 <= a < |s.cells| :: |s.cells[a].hist| > 0)
    && (forall a | 0 <= a < |s.cells| :: !Cur(s.cells[a]).lseq.locked ==> Cur(s.cells[a]).lseq.sq <= s.gClock)
    && (forall a, k | 0 <= a < |s.cells| && s.epoch <= k < |s.txs| && s.txs[k].st.Durable? && a in s.txs[k].writes ::
        ClockOf(s.txs[k]) <= Bound(s, Cur(s.cells[a])))
  }

  // ---------- records ----------

  ghost predicate WritersSettle(txs: seq<Tx>) {
    forall j, k, a | 0 <= j < k < |txs| && a in txs[j].writes && a in txs[k].writes :: !Unsettled(txs[j])
  }

  ghost predicate ClocksBounded(s: State) {
    forall k | s.epoch <= k < |s.txs| && Committed(s.txs[k]) :: ClockOf(s.txs[k]) <= s.gClock
  }

  ghost predicate WriterClocks(s: State) {
    forall j, k, a | s.epoch <= j < k < |s.txs| && Committed(s.txs[j]) && Committed(s.txs[k])
      && a in s.txs[j].writes && a in s.txs[k].writes ::
      ClockOf(s.txs[j]) < ClockOf(s.txs[k])
  }

  /** Every committed transaction read the sequential state just before its record. */
  ghost predicate Serial(txs: seq<Tx>) {
    forall k, a | 0 <= k < |txs| && Committed(txs[k]) && a in txs[k].rd :: txs[k].rd[a] == Replay(txs, k, a)
  }

  ghost predicate SerialStable(txs: seq<Tx>) {
    forall j, k, a | 0 <= j < k < |txs| && Unsettled(txs[j]) && Committed(txs[k]) && a in txs[k].rd :: a !in txs[j].writes
  }

  /** Cells whose read-set entry has passed validation. */
  ghost predicate Validated(th: Thread, a: Addr) {
    (th.pc.Validate? && exists i :: 0 <= i < th.pc.vi && i < |th.readSet| && th.readSet[i] == a)
    || (th.pc.CommitFaa? && a in th.readSet)
  }

  ghost predicate ValidatedOk(s: State) {
    && (forall t, a | 0 <= t < |s.threads| && Validated(s.threads[t], a) ::
        s.threads[t].rec < |s.txs| && a in s.threads[t].rd
        && s.threads[t].rd[a] == Replay(s.txs, s.threads[t].rec, a))
    && (forall t, a, j | 0 <= t < |s.threads| && Validated(s.threads[t], a)
          && 0 <= j < s.threads[t].rec && j < |s.txs| && Unsettled(s.txs[j]) :: a !in s.txs[j].writes)
  }

  // ---------- snapshots ----------

  /** Everything a running transaction has read is one sequential state, fixed when it began. */
  ghost predicate Snapshots(s: State) {
    forall t, a | 0 <= t < |s.threads| && !s.threads[t].pc.Idle? && a in s.threads[t].rd ::
      s.threads[t].pos <= |s.txs| && s.threads[t].rd[a] == Replay(s.txs, s.threads[t].pos, a)
  }

  ghost predicate SnapshotsStable(s: State) {
    forall t, a, j | 0 <= t < |s.threads| && !s.threads[t].pc.Idle? && a in s.threads[t].rd
      && 0 <= j < s.threads[t].pos && j < |s.txs| && Unsettled(s.txs[j]) :: a !in s.txs[j].writes
  }

  /** Position and commit clock agree: what lies before the snapshot has a clock up to rClock. */
  ghost predicate LaterClocks(s: State) {
    forall t, k | 0 <= t < |s.threads| && !s.threads[t].pc.Idle?
      && s.threads[t].pos <= k < |s.txs| && Committed(s.txs[k]) :: ClockOf(s.txs[k]) > s.threads[t].rClock
  }

  ghost predicate EarlierClocks(s: State) {
    forall t, k, a | 0 <= t < |s.threads| && !s.threads[t].pc.Idle? && a in s.threads[t].rd
      && s.epoch <= k < s.threads[t].pos && k < |s.txs| && s.txs[k].st.Durable? && a in s.txs[k].writes ::
      ClockOf(s.txs[k]) <= s.threads[t].rClock
  }

  /** If pload's second access is going to accept, its first access saw the final value. */
  ghost predicate LoadStable(s: State, t: nat, a: Addr)
    requires t < |s.threads| && a < |s.cells| && |s.cells[a].hist| > 0
  {
    var l := Cur(s.cells[a]).lseq;
    if l.locked then
      l.tid == t || (l.tid < |s.threads| && PostFaa(s.threads[l.tid].pc) && s.threads[l.tid].nextClock <= s.threads[t].rClock)
    else l.sq <= s.threads[t].rClock
  }

  ghost predicate LoadsOk(s: State) {
    && (forall a | 0 <= a < |s.cells| :: |s.cells[a].hist| > 0)
    && forall t | 0 <= t < |s.threads| && s.threads[t].pc.Loaded? ::
      var a := s.threads[t].pc.la;
      a < |s.cells| && (LoadStable(s, t, a) ==> s.threads[t].pc.lval == Cur(s.cells[a]).main)
  }

  // ---------- all of it, while running ----------

  ghost predicate InvCells(s: State) { Shape(s) && Threads(s) && Seqs(s) && Recs(s) && Locks(s) }

  ghost predicate InvPersist(s: State) { Persist(s) && DoubtFlushed(s) && Versions(s) }

  ghost predicate InvTxs(s: State) {
    && WritersSettle(s.txs) && ClocksBounded(s) && WriterClocks(s)
    && Serial(s.txs) && SerialStable(s.txs) && ValidatedOk(s)
  }

  ghost predicate InvReads(s: State) {
    Snapshots(s) && SnapshotsStable(s) && LaterClocks(s) && EarlierClocks(s) && LoadsOk(s)
  }

  ghost predicate InvRunning(s: State) {
    s.mode.Running? && InvCells(s) && InvPersist(s) && InvTxs(s) && InvReads(s)
  }
}
