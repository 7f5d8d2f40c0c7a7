/**
  TrinityTL2 as a state machine: N threads, one atomic memory access per step,
  over persistent cells and per-thread persistent sequence numbers.

  Persistence: every persistent word group keeps the history of its contents since
  boot.  Stores to one cache line reach memory in order, so a crash finds some
  element of the history at or after `lo`, the newest element known to be durable.
  PWB remembers the current end of the history; the next fence of the same thread
  (PFENCE, PSYNC, a successful CAS or a fetch_add) raises `lo` to it.
*/
module Tl2Model {

  type Val = int
  type Addr = nat

  /** Lock bit, owner or last owner, and sequence, unpacked (see module LseqBits). */
  datatype Lseq = Lseq(locked: bool, tid: nat, sq: nat)

  datatype Cell = Cell(main: Val, back: Val, lseq: Lseq)

  datatype PCell = PCell(hist: seq<Cell>, lo: nat)

  /** p_seq of one thread; only that thread issues a PWB for it. */
  datatype PSeq = PSeq(hist: seq<nat>, lo: nat, mark: nat)

  /** A transaction record, appended when an update transaction starts validating. */
  datatype Status = Pending | InDoubt(clock: nat) | Durable(clock: nat) | Aborted
  datatype Tx = Tx(tid: nat, rClock: nat, rd: map<Addr, Val>, writes: map<Addr, Val>, st: Status)

  datatype PC =
    | Idle
    | BeginSeq                              // p_seq := rClock; PWB
    | Active                                // user code
    | Loaded(la: Addr, lval: Val)           // pload: main read, lseq not yet
    | StoreSeq(sa: Addr, sv: Val, sl: Lseq) // pstore: lseq read and acceptable
    | StoreMain(wa: Addr, wv: Val)          // pstore: lock held, main not yet written
    | Validate(vi: nat)
    | CommitFaa
    | CommitSeq
    | CommitSync
    | ApplyBack(bi: nat)
    | Rollback(ri: nat)
    | AbortFaa
    | AbortSeq
    | AbortSync
    | Unlock(ui: nat, commit: bool)

  datatype Thread = Thread(
    pc: PC,
    update: bool,
    rClock: nat,
    readSet: seq<Addr>,
    log: seq<Addr>,
    nextClock: nat,
    marks: map<Addr, nat>,    // PWBs issued since the last fence
    // history of the transaction, not part of the original's memory
    pos: nat,                 // number of records when it began
    rec: nat,                 // its own record, once validating
    rd: map<Addr, Val>,    // values its ploads returned for cells it had not locked
    wr: map<Addr, Val>)       // values it stored last

  datatype Mode = Running | Recovering(p: nat, reset: bool)

  datatype State = State(
    mode: Mode,
    gClock: nat,
    cells: seq<PCell>,
    pseq: seq<PSeq>,
    threads: seq<Thread>,
    txs: seq<Tx>,             // all records, in the order validation started
    epoch: nat)               // number of records when the machine last recovered

  datatype Op = Begin(upd: bool) | Load(a: Addr) | Store(sta: Addr, stv: Val) | End | Go

  datatype Action =
    | Step(t: nat, op: Op)
    | Crash(ci: seq<nat>, qi: seq<nat>)     // which element of each history survived
    | Recover

  // ---------- persistent memory ----------

  predicate CellShape(c: PCell) { c.lo < |c.hist| }

  function Cur(c: PCell): Cell
    requires |c.hist| > 0
  {
    c.hist[|c.hist| - 1]
  }

  function Put(c: PCell, x: Cell): PCell { c.(hist := c.hist + [x]) }

  function Top(q: PSeq): nat
    requires |q.hist| > 0
  {
    q.hist[|q.hist| - 1]
  }

  function PutSeqPwb(q: PSeq, v: nat): PSeq { PSeq(q.hist + [v], q.lo, |q.hist|) }

  function FenceSeq(q: PSeq): PSeq { q.(lo := q.mark) }

  function FenceCell(c: PCell, marks: map<Addr, nat>, a: Addr): PCell {
    if a in marks && marks[a] > c.lo then c.(lo := marks[a]) else c
  }

  function FenceCells(cells: seq<PCell>, marks: map<Addr, nat>): (r: seq<PCell>)
    ensures |r| == |cells|
  {
    seq(|cells|, a requires 0 <= a < |cells| => FenceCell(cells[a], marks, a))
  }

  /** The fence of thread t: everything t flushed is durable. */
  function Fence(s: State, t: nat): State
    requires t < |s.threads| == |s.pseq|
  {
    s.(cells := FenceCells(s.cells, s.threads[t].marks),
       pseq := s.pseq[t := FenceSeq(s.pseq[t])],
       threads := s.threads[t := s.threads[t].(marks := map[])])
  }

  predicate Addressed(cells: seq<PCell>, log: seq<Addr>) {
    forall i | 0 <= i < |log| :: log[i] < |cells| && |cells[log[i]].hist| > 0
  }

  function FlushMarks(cells: seq<PCell>, log: seq<Addr>): (m: map<Addr, nat>)
    requires Addressed(cells, log)
    ensures forall a :: a in m <==> a in log
    ensures forall a | a in m :: a < |cells| && m[a] == |cells[a].hist| - 1
  {
    map a | a in log :: |cells[a].hist| - 1
  }

  // ---------- helpers ----------

  predicate Ok(rClock: nat, t: nat, sl: Lseq) {
    (!sl.locked && sl.sq <= rClock) || (sl.locked && sl.tid == t)
  }

  function SetT(s: State, t: nat, th: Thread): State
    requires t < |s.threads|
  {
    s.(threads := s.threads[t := th])
  }

  function SetPc(s: State, t: nat, pc: PC): State
    requires t < |s.threads|
  {
    SetT(s, t, s.threads[t].(pc := pc))
  }

  function PutCell(s: State, a: Addr, x: Cell): State
    requires a < |s.cells|
  {
    s.(cells := s.cells[a := Put(s.cells[a], x)])
  }

  predicate Shape(s: State) {
    && |s.pseq| == |s.threads|
    && (forall a | 0 <= a < |s.cells| :: CellShape(s.cells[a]))
    && (forall t | 0 <= t < |s.pseq| :: SeqShape(s.pseq[t], s.gClock))
    && s.epoch <= |s.txs|
  }

  predicate SeqShape(q: PSeq, gClock: nat) {
    && q.lo <= q.mark < |q.hist|
    && (forall j | q.lo <= j < |q.hist| :: q.hist[j] <= Top(q))
    && Top(q) <= gClock
  }

  // ---------- beginTx ----------

  function DoBegin(s: State, t: nat, upd: bool): State
    requires t < |s.threads|
  {
    SetT(s, t, Thread(if upd then BeginSeq else Active, upd, s.gClock, [], [], 0, map[], |s.txs|, 0, map[], map[]))
  }

  function DoBeginSeq(s: State, t: nat): State
    requires t < |s.threads| == |s.pseq|
  {
    SetPc(s, t, Active).(pseq := s.pseq[t := PutSeqPwb(s.pseq[t], s.threads[t].rClock)])
  }

  // ---------- pload ----------

  function DoLoad(s: State, t: nat, a: Addr): State
    requires t < |s.threads| && a < |s.cells| && CellShape(s.cells[a])
  {
    SetPc(s, t, Loaded(a, Cur(s.cells[a]).main))
  }

  predicate LoadAborts(s: State, t: nat)
    requires t < |s.threads| && s.threads[t].pc.Loaded? && s.threads[t].pc.la < |s.cells|
    requires |s.cells[s.threads[t].pc.la].hist| > 0
  {
    !Ok(s.threads[t].rClock, t, Cur(s.cells[s.threads[t].pc.la]).lseq)
  }

  function DoLoadSeq(s: State, t: nat): State
    requires t < |s.threads| && s.threads[t].pc.Loaded? && s.threads[t].pc.la < |s.cells|
    requires |s.cells[s.threads[t].pc.la].hist| > 0
  {
    var th := s.threads[t];
    var a := th.pc.la;
    if LoadAborts(s, t) then SetPc(s, t, Rollback(0))
    else if Cur(s.cells[a]).lseq.locked then SetPc(s, t, Active)
    else
      SetT(s, t, th.(pc := Active,
                     readSet := if th.update then th.readSet + [a] else th.readSet,
                     rd := th.rd[a := th.pc.lval]))
  }

  // ---------- pstore ----------

  function DoStore(s: State, t: nat, a: Addr, v: Val): State
    requires t < |s.threads| && a < |s.cells| && CellShape(s.cells[a])
  {
    var sl := Cur(s.cells[a]).lseq;
    SetPc(s, t, if Ok(s.threads[t].rClock, t, sl) then StoreSeq(a, v, sl) else Rollback(0))
  }

  predicate CasFails(s: State, t: nat)
    requires t < |s.threads| && s.threads[t].pc.StoreSeq? && s.threads[t].pc.sa < |s.cells|
    requires |s.cells[s.threads[t].pc.sa].hist| > 0
  {
    Cur(s.cells[s.threads[t].pc.sa]).lseq != s.threads[t].pc.sl
  }

  function DoStoreCas(s: State, t: nat): State
    requires t < |s.threads| == |s.pseq| && s.threads[t].pc.StoreSeq? && s.threads[t].pc.sa < |s.cells|
    requires |s.cells[s.threads[t].pc.sa].hist| > 0 && |s.pseq[t].hist| > 0
  {
    var th := s.threads[t];
    var a := th.pc.sa;
    if th.pc.sl.locked then SetPc(s, t, StoreMain(a, th.pc.sv))
    else if CasFails(s, t) then SetPc(s, t, Rollback(0))
    else
      var f := Fence(s, t);
      SetT(PutCell(f, a, Cur(s.cells[a]).(lseq := Lseq(true, t, Top(s.pseq[t])))),
           t, f.threads[t].(pc := StoreMain(a, th.pc.sv), log := th.log + [a]))
  }

  function DoStoreMain(s: State, t: nat): State
    requires t < |s.threads| && s.threads[t].pc.StoreMain? && s.threads[t].pc.wa < |s.cells|
    requires |s.cells[s.threads[t].pc.wa].hist| > 0
  {
    var th := s.threads[t];
    var a := th.pc.wa;
    SetT(PutCell(s, a, Cur(s.cells[a]).(main := th.pc.wv)),
         t, th.(pc := Active, wr := th.wr[a := th.pc.wv]))
  }

  // ---------- endTx ----------

  function DoEnd(s: State, t: nat): State
    requires t < |s.threads|
  {
    var th := s.threads[t];
    if th.log == [] then SetPc(s, t, Idle)
    else
      SetT(s, t, th.(pc := Validate(0), rec := |s.txs|))
      .(txs := s.txs + [Tx(t, th.rClock, th.rd, th.wr, Pending)])
  }

  predicate ValidateFails(s: State, t: nat)
    requires t < |s.threads| && s.threads[t].pc.Validate? && s.threads[t].pc.vi < |s.threads[t].readSet|
    requires s.threads[t].readSet[s.threads[t].pc.vi] < |s.cells|
    requires |s.cells[s.threads[t].readSet[s.threads[t].pc.vi]].hist| > 0
  {
    !Ok(s.threads[t].rClock, t, Cur(s.cells[s.threads[t].readSet[s.threads[t].pc.vi]]).lseq)
  }

  /** One load of the validation loop. */
  function DoValidate(s: State, t: nat): State
    requires t < |s.threads| && s.threads[t].pc.Validate? && s.threads[t].pc.vi < |s.threads[t].readSet|
    requires s.threads[t].readSet[s.threads[t].pc.vi] < |s.cells|
    requires |s.cells[s.threads[t].readSet[s.threads[t].pc.vi]].hist| > 0
    requires s.threads[t].rec < |s.txs|
  {
    var th := s.threads[t];
    if ValidateFails(s, t) then
      SetPc(s, t, Rollback(0)).(txs := s.txs[th.rec := s.txs[th.rec].(st := Aborted)])
    else SetPc(s, t, Validate(th.pc.vi + 1))
  }

  /** v_log.flushPWB() after a successful validation. */
  function DoFlush(s: State, t: nat): State
    requires t < |s.threads|
    requires Addressed(s.cells, s.threads[t].log)
  {
    SetT(s, t, s.threads[t].(pc := CommitFaa, marks := FlushMarks(s.cells, s.threads[t].log)))
  }

  function DoCommitFaa(s: State, t: nat): State
    requires t < |s.threads| == |s.pseq| && s.threads[t].rec < |s.txs|
  {
    var f := Fence(s, t);
    var th := f.threads[t];
    SetT(f, t, th.(pc := CommitSeq, nextClock := s.gClock + 1))
    .(gClock := s.gClock + 1,
      txs := s.txs[th.rec := s.txs[th.rec].(st := InDoubt(s.gClock + 1))])
  }

  function DoPutNext(s: State, t: nat, pc: PC): State
    requires t < |s.threads| == |s.pseq|
  {
    SetPc(s, t, pc).(pseq := s.pseq[t := PutSeqPwb(s.pseq[t], s.threads[t].nextClock)])
  }

  function DoCommitSync(s: State, t: nat): State
    requires t < |s.threads| == |s.pseq| && s.threads[t].rec < |s.txs|
  {
    var th := s.threads[t];
    SetPc(Fence(s, t), t, ApplyBack(0))
    .(txs := s.txs[th.rec := s.txs[th.rec].(st := Durable(th.nextClock))])
  }

  function DoApplyBack(s: State, t: nat): State
    requires t < |s.threads| && s.threads[t].pc.ApplyBack?
    requires Addressed(s.cells, s.threads[t].log)
  {
    var th := s.threads[t];
    var i := th.pc.bi;
    if i < |th.log| then
      var c := Cur(s.cells[th.log[i]]);
      SetPc(PutCell(s, th.log[i], c.(back := c.main)), t, ApplyBack(i + 1))
    else SetPc(s, t, Unlock(0, true))
  }

  function DoUnlock(s: State, t: nat): State
    requires t < |s.threads| && s.threads[t].pc.Unlock?
    requires Addressed(s.cells, s.threads[t].log)
  {
    var th := s.threads[t];
    var i := th.pc.ui;
    if i < |th.log| then
      var c := Cur(s.cells[th.log[i]]);
      SetPc(PutCell(s, th.log[i], c.(lseq := Lseq(false, t, th.nextClock))), t, Unlock(i + 1, th.pc.commit))
    else SetPc(s, t, Idle)
  }

  // ---------- abortTx ----------

  function DoRollback(s: State, t: nat): State
    requires t < |s.threads| && s.threads[t].pc.Rollback?
    requires Addressed(s.cells, s.threads[t].log)
  {
    var th := s.threads[t];
    var i := th.pc.ri;
    if i < |th.log| then
      var c := Cur(s.cells[th.log[i]]);
      SetPc(PutCell(s, th.log[i], c.(main := c.back)), t, Rollback(i + 1))
    else SetT(s, t, th.(pc := AbortFaa, marks := FlushMarks(s.cells, th.log)))
  }

  function DoAbortFaa(s: State, t: nat): State
    requires t < |s.threads| == |s.pseq|
  {
    var f := Fence(s, t);
    SetT(f, t, f.threads[t].(pc := AbortSeq, nextClock := s.gClock + 1)).(gClock := s.gClock + 1)
  }

  function DoAbortSync(s: State, t: nat): State
    requires t < |s.threads| == |s.pseq|
  {
    SetPc(Fence(s, t), t, Unlock(0, false))
  }

  // ---------- crash and recovery ----------

  /** What recover() makes of one persisted cell, given the persisted p_seqs. */
  function RecCell(c: Cell, q: seq<nat>): Cell {
    if !c.lseq.locked then c
    else var v := if c.lseq.tid < |q| && q[c.lseq.tid] == c.lseq.sq then c.back else c.main;
         Cell(v, v, Lseq(false, 0, 0))
  }

  /** The cell after recover()'s first store to it. */
  function RecHalf(c: Cell, q: seq<nat>): Cell
    requires c.lseq.locked
  {
    if c.lseq.tid < |q| && q[c.lseq.tid] == c.lseq.sq then c.(main := c.back) else c.(back := c.main)
  }

  predicate CrashChoice(s: State, ci: seq<nat>, qi: seq<nat>) {
    && |ci| == |s.cells| && |qi| == |s.pseq|
    && (forall a | 0 <= a < |ci| :: s.cells[a].lo <= ci[a] < |s.cells[a].hist|)
    && (forall t | 0 <= t < |qi| :: s.pseq[t].lo <= qi[t] < |s.pseq[t].hist|)
  }

  /** The persisted p_seqs under a crash choice. */
  function CrashSeqs(s: State, qi: seq<nat>): (q: seq<nat>)
    requires |qi| == |s.pseq| && forall t | 0 <= t < |qi| :: qi[t] < |s.pseq[t].hist|
    ensures |q| == |qi|
  {
    seq(|qi|, t requires 0 <= t < |qi| => s.pseq[t].hist[qi[t]])
  }

  /** A crash decides every in-doubt transaction by its thread's persisted p_seq. */
  function SettleTx(x: Tx, q: seq<nat>): Tx {
    match x.st
    case Pending => x.(st := Aborted)
    case InDoubt(c) => x.(st := if x.tid < |q| && q[x.tid] == c then Durable(c) else Aborted)
    case _ => x
  }

  function Settle(txs: seq<Tx>, q: seq<nat>): (r: seq<Tx>)
    ensures |r| == |txs|
  {
    seq(|txs|, k requires 0 <= k < |txs| => SettleTx(txs[k], q))
  }

  function IdleThread(): Thread {
    Thread(Idle, false, 0, [], [], 0, map[], 0, 0, map[], map[])
  }

  function DoCrash(s: State, ci: seq<nat>, qi: seq<nat>): State
    requires CrashChoice(s, ci, qi)
  {
    var q := CrashSeqs(s, qi);
    State(Recovering(0, false), 0,
          seq(|s.cells|, a requires 0 <= a < |s.cells| => PCell([s.cells[a].hist[ci[a]]], 0)),
          seq(|s.pseq|, t requires 0 <= t < |s.pseq| => PSeq([q[t]], 0, 0)),
          seq(|s.threads|, t => IdleThread()),
          Settle(s.txs, q),
          |s.txs|)
  }

  function Tops(pseq: seq<PSeq>): (q: seq<nat>)
    requires forall t | 0 <= t < |pseq| :: |pseq[t].hist| > 0
    ensures |q| == |pseq|
  {
    seq(|pseq|, t requires 0 <= t < |pseq| => Top(pseq[t]))
  }

  function MaxOf(q: seq<nat>): (m: nat)
    ensures forall t | 0 <= t < |q| :: q[t] <= m
  {
    if q == [] then 0 else var m := MaxOf(q[..|q| - 1]); if q[|q| - 1] > m then q[|q| - 1] else m
  }

  /** One store of recover(), or its final PSYNC and clock update. */
  function DoRecover(s: State): State
    requires s.mode.Recovering?
    requires forall a | 0 <= a < |s.cells| :: |s.cells[a].hist| > 0
    requires forall t | 0 <= t < |s.pseq| :: |s.pseq[t].hist| > 0
    requires s.mode.reset ==> s.mode.p < |s.cells|
  {
    var p := s.mode.p;
    if p < |s.cells| then
      var c := Cur(s.cells[p]);
      if s.mode.reset then PutCell(s, p, c.(lseq := Lseq(false, 0, 0))).(mode := Recovering(p + 1, false))
      else if c.lseq.locked then PutCell(s, p, RecHalf(c, Tops(s.pseq))).(mode := Recovering(p, true))
      else s.(mode := Recovering(p + 1, false))
    else
      s.(mode := Running, gClock := MaxOf(Tops(s.pseq)),
         cells := seq(|s.cells|, a requires 0 <= a < |s.cells| => s.cells[a].(lo := |s.cells[a].hist| - 1)))
  }

  // ---------- the machine ----------

  function Init(cells: nat, threads: nat): State {
    State(Running, 1,
          seq(cells, a => PCell([Cell(0, 0, Lseq(false, 0, 0))], 0)),
          seq(threads, t => PSeq([1], 0, 0)),
          seq(threads, t => IdleThread()),
          [], 0)
  }

  /** What the code of thread t can do next. */
  predicate CanStep(s: State, t: nat, op: Op) {
    && Shape(s) && s.mode.Running? && t < |s.threads|
    && var th := s.threads[t];
    && (th.pc.Idle? || Addressed(s.cells, th.log))
    && match th.pc
       case Idle => op.Begin?
       case Active => op.End? || (op.Load? && op.a < |s.cells|) || (op.Store? && op.sta < |s.cells| && th.update)
       case Loaded(a, _) => op.Go? && a < |s.cells|
       case StoreSeq(a, _, _) => op.Go? && a < |s.cells|
       case StoreMain(a, _) => op.Go? && a < |s.cells|
       case Validate(i) => op.Go? && th.rec < |s.txs| && (i < |th.readSet| ==> th.readSet[i] < |s.cells|)
       case CommitFaa => op.Go? && th.rec < |s.txs|
       case CommitSync => op.Go? && th.rec < |s.txs|
       case _ => op.Go?
  }

  function DoStep(s: State, t: nat, op: Op): State
    requires CanStep(s, t, op)
  {
    match s.threads[t].pc
    case Idle => DoBegin(s, t, op.upd)
    case BeginSeq => DoBeginSeq(s, t)
    case Active => (match op
      case Load(a) => DoLoad(s, t, a)
      case Store(a, v) => DoStore(s, t, a, v)
      case _ => DoEnd(s, t))
    case Loaded(_, _) => DoLoadSeq(s, t)
    case StoreSeq(_, _, _) => DoStoreCas(s, t)
    case StoreMain(_, _) => DoStoreMain(s, t)
    case Validate(i) => if i < |s.threads[t].readSet| then DoValidate(s, t) else DoFlush(s, t)
    case CommitFaa => DoCommitFaa(s, t)
    case CommitSeq => DoPutNext(s, t, CommitSync)
    case CommitSync => DoCommitSync(s, t)
    case ApplyBack(_) => DoApplyBack(s, t)
    case Rollback(_) => DoRollback(s, t)
    case AbortFaa => DoAbortFaa(s, t)
    case AbortSeq => DoPutNext(s, t, AbortSync)
    case AbortSync => DoAbortSync(s, t)
    case Unlock(_, _) => DoUnlock(s, t)
  }

  predicate Enabled(s: State, act: Action) {
    match act
    case Step(t, op) => CanStep(s, t, op)
    case Crash(ci, qi) => CrashChoice(s, ci, qi)
    case Recover => Shape(s) && s.mode.Recovering? && (s.mode.reset ==> s.mode.p < |s.cells|)
  }

  function Apply(s: State, act: Action): State
    requires Enabled(s, act)
  {
    match act
    case Step(t, op) => DoStep(s, t, op)
    case Crash(ci, qi) => DoCrash(s, ci, qi)
    case Recover => DoRecover(s)
  }

  /** `acts` can be taken one after the other from s. */
  ghost predicate Run(s: State, acts: seq<Action>)
    decreases |acts|
  {
    acts == [] || (Enabled(s, acts[0]) && Run(Apply(s, acts[0]), acts[1..]))
  }

  ghost function After(s: State, acts: seq<Action>): State
    requires Run(s, acts)
    decreases |acts|
  {
    if acts == [] then s else After(Apply(s, acts[0]), acts[1..])
  }

  // ---------- sequential meaning of the records ----------

  /** The value of cell a when the durable records among the first k run one after the other. */
  function Replay(txs: seq<Tx>, k: nat, a: Addr): Val
    requires k <= |txs|
  {
    if k == 0 then 0
    else if txs[k - 1].st.Durable? && a in txs[k - 1].writes then txs[k - 1].writes[a]
    else Replay(txs, k - 1, a)
  }
}
