/**
  OneFilePTMLF as a state machine: threads run transactions, publish their write-set by one
  CAS of curTx, and help to apply whichever write-set is published.  One access to shared
  memory per step; a cell's value and sequence are read in two steps and changed together
  by the double-word CAS.
*/
module OneFileModel {

  type Val = int
  type Addr = nat

  /** curTx and requests, unpacked: sequence in the high bits, thread in the low ten. */
  datatype Trans = Trans(sq: nat, idx: nat)

  datatype Cell = Cell(val: Val, sq: nat)
  datatype Entry = Entry(addr: Addr, val: Val)

  /** The log array of a write-set; entries from num on are left from older transactions. */
  datatype WriteSet = WriteSet(num: nat, log: seq<Entry>)

  datatype PC =
    | Idle
    | BeginLoad
    | HRequest                              // helpApply: first look at the request
    | HCopyNum
    | HCopy(ci: nat)
    | HCurTx
    | HRequest2
    | HApply(ai: nat)
    | HVal(vi: nat, hv: Val)                // entry vi: value read
    | HDcas(di: nat, dv: Val, dq: nat)      // and its sequence, smaller than ours
    | HClose
    | BeginReset
    | BeginCheck
    | Active
    | Loaded(la: Addr, lv: Val)             // pload: value read, sequence not yet
    | CCheck
    | CRequest
    | CCas

  predicate Applying(pc: PC) { pc.HApply? || pc.HVal? || pc.HDcas? || pc.HClose? }
  predicate Copying(pc: PC) { pc.HCopyNum? || pc.HCopy? || pc.HCurTx? || pc.HRequest2? }
  predicate Helping(pc: PC) { pc.HRequest? || Copying(pc) || Applying(pc) }

  datatype Thread = Thread(
    pc: PC,
    my: Trans,                // myopd.curTx
    hl: Trans,                // the transaction helpApply works on
    commit: bool,             // helpApply was called by commitTx
    rd: map<Addr, Val>)       // history: values its ploads took from memory

  /** A committed transaction: its thread, its write-set and what it had read. */
  datatype Rec = Rec(idx: nat, log: seq<Entry>, rd: map<Addr, Val>)

  datatype State = State(
    curTx: Trans,
    request: seq<Trans>,
    cells: seq<Cell>,
    ws: seq<WriteSet>,
    threads: seq<Thread>,
    hist: seq<Rec>)           // history: transaction q at index q

  datatype Op = Begin | Load(a: Addr) | Store(sa: Addr, sv: Val) | End | Go
  datatype Action = Action(t: nat, op: Op)

  predicate HasAddr(log: seq<Entry>, a: Addr) { exists j :: 0 <= j < |log| && log[j].addr == a }

  function IndexOf(log: seq<Entry>, a: Addr): (j: nat)
    requires HasAddr(log, a)
    ensures j < |log| && log[j].addr == a
  {
    if log[0].addr == a then 0 else 1 + IndexOf(log[1..], a)
  }

  /** The simple log: one entry per address, the last value stored. */
  function AddTo(u: seq<Entry>, a: Addr, v: Val): seq<Entry> {
    if HasAddr(u, a) then u[IndexOf(u, a) := Entry(a, v)] else u + [Entry(a, v)]
  }

  predicate Distinct(log: seq<Entry>) {
    forall i, j | 0 <= i < j < |log| :: log[i].addr != log[j].addr
  }

  /** Value of cell a once transactions 0..q are applied. */
  function StateAt(hist: seq<Rec>, q: nat, a: Addr): Val
    requires q < |hist|
  {
    if HasAddr(hist[q].log, a) then hist[q].log[IndexOf(hist[q].log, a)].val
    else if q == 0 then 0
    else StateAt(hist, q - 1, a)
  }

  // ---------- steps ----------

  function SetPc(s: State, t: nat, pc: PC): State
    requires t < |s.threads|
  {
    s.(threads := s.threads[t := s.threads[t].(pc := pc)])
  }

  /** The write-set as far as it is in use. */
  function Used(w: WriteSet): seq<Entry>
    requires w.num <= |w.log|
  {
    w.log[..w.num]
  }

  /** The source asserts that the last slot of the log is never taken. */
  predicate CanAdd(w: WriteSet, a: Addr)
    requires w.num <= |w.log|
  {
    w.num < |w.log| && (HasAddr(Used(w), a) || w.num + 1 < |w.log|)
  }

  /** addOrReplace on the log array. */
  function Add(w: WriteSet, a: Addr, v: Val): WriteSet
    requires w.num < |w.log|
  {
    if HasAddr(Used(w), a) then w.(log := w.log[IndexOf(Used(w), a) := Entry(a, v)])
    else WriteSet(w.num + 1, w.log[w.num := Entry(a, v)])
  }

  function DoBeginLoad(s: State, t: nat): State
    requires t < |s.threads|
  {
    s.(threads := s.threads[t := s.threads[t].(pc := HRequest, my := s.curTx, hl := s.curTx, commit := false)])
  }

  /** helpApply returns to beginTx or to commitTx. */
  function HelpDone(s: State, t: nat): State
    requires t < |s.threads|
  {
    SetPc(s, t, if s.threads[t].commit then Idle else BeginReset)
  }

  function DoHRequest(s: State, t: nat): State
    requires t < |s.threads| && s.threads[t].hl.idx < |s.request|
  {
    var th := s.threads[t];
    if s.request[th.hl.idx] != th.hl then HelpDone(s, t)
    else SetPc(s, t, if th.hl.idx != t then HCopyNum else HApply(0))
  }

  function DoCopyNum(s: State, t: nat): State
    requires t < |s.threads| == |s.ws| && s.threads[t].hl.idx < |s.ws|
  {
    SetPc(s, t, HCopy(0)).(ws := s.ws[t := s.ws[t].(num := s.ws[s.threads[t].hl.idx].num)])
  }

  function DoCopy(s: State, t: nat): State
    requires t < |s.threads| == |s.ws| && s.threads[t].hl.idx < |s.ws| && s.threads[t].pc.HCopy?
    requires |s.ws[t].log| == |s.ws[s.threads[t].hl.idx].log| && s.ws[t].num <= |s.ws[t].log|
  {
    var i := s.threads[t].pc.ci;
    if i < s.ws[t].num then
      SetPc(s, t, HCopy(i + 1))
      .(ws := s.ws[t := s.ws[t].(log := s.ws[t].log[i := s.ws[s.threads[t].hl.idx].log[i]])])
    else SetPc(s, t, HCurTx)
  }

  function DoHCurTx(s: State, t: nat): State
    requires t < |s.threads|
  {
    if s.curTx != s.threads[t].hl then HelpDone(s, t) else SetPc(s, t, HRequest2)
  }

  function DoHRequest2(s: State, t: nat): State
    requires t < |s.threads| && s.threads[t].hl.idx < |s.request|
  {
    if s.request[s.threads[t].hl.idx] != s.threads[t].hl then HelpDone(s, t) else SetPc(s, t, HApply(0))
  }

  /** The i-th entry thread t applies. */
  function EntryAt(w: WriteSet, t: nat, i: nat): Entry
    requires 0 < w.num <= |w.log|
  {
    w.log[(t * 8 + i) % w.num]
  }

  function DoApply(s: State, t: nat): State
    requires t < |s.threads| == |s.ws| && s.threads[t].pc.HApply? && s.ws[t].num <= |s.ws[t].log|
    requires s.threads[t].pc.ai < s.ws[t].num ==> EntryAt(s.ws[t], t, s.threads[t].pc.ai).addr < |s.cells|
  {
    var i := s.threads[t].pc.ai;
    if i < s.ws[t].num then SetPc(s, t, HVal(i, s.cells[EntryAt(s.ws[t], t, i).addr].val))
    else SetPc(s, t, HClose)
  }

  function DoHVal(s: State, t: nat): State
    requires t < |s.threads| == |s.ws| && s.threads[t].pc.HVal? && 0 < s.ws[t].num <= |s.ws[t].log|
    requires EntryAt(s.ws[t], t, s.threads[t].pc.vi).addr < |s.cells|
  {
    var th := s.threads[t];
    var q := s.cells[EntryAt(s.ws[t], t, th.pc.vi).addr].sq;
    SetPc(s, t, if q < th.hl.sq then HDcas(th.pc.vi, th.pc.hv, q) else HApply(th.pc.vi + 1))
  }

  function DoHDcas(s: State, t: nat): State
    requires t < |s.threads| == |s.ws| && s.threads[t].pc.HDcas? && 0 < s.ws[t].num <= |s.ws[t].log|
    requires EntryAt(s.ws[t], t, s.threads[t].pc.di).addr < |s.cells|
  {
    var th := s.threads[t];
    var e := EntryAt(s.ws[t], t, th.pc.di);
    var s' := SetPc(s, t, HApply(th.pc.di + 1));
    if s.cells[e.addr] == Cell(th.pc.dv, th.pc.dq) then s'.(cells := s.cells[e.addr := Cell(e.val, th.hl.sq)]) else s'
  }

  function DoHClose(s: State, t: nat): State
    requires t < |s.threads| && s.threads[t].hl.idx < |s.request|
  {
    var hl := s.threads[t].hl;
    var s' := HelpDone(s, t);
    if s.request[hl.idx] == hl then s'.(request := s.request[hl.idx := Trans(hl.sq + 1, hl.idx)]) else s'
  }

  function DoReset(s: State, t: nat): State
    requires t < |s.threads| == |s.ws|
  {
    SetPc(s, t, BeginCheck).(ws := s.ws[t := s.ws[t].(num := 0)])
  }

  function DoBeginCheck(s: State, t: nat): State
    requires t < |s.threads|
  {
    if s.curTx == s.threads[t].my then
      s.(threads := s.threads[t := s.threads[t].(pc := Active, rd := map[])])
    else SetPc(s, t, BeginLoad)
  }

  function DoLoad(s: State, t: nat, a: Addr): State
    requires t < |s.threads| && a < |s.cells|
  {
    SetPc(s, t, Loaded(a, s.cells[a].val))
  }

  predicate LoadAborts(s: State, t: nat)
    requires t < |s.threads| && s.threads[t].pc.Loaded? && s.threads[t].pc.la < |s.cells|
  {
    s.cells[s.threads[t].pc.la].sq > s.threads[t].my.sq
  }

  /** pload's second access; the exception starts the transaction over. */
  function DoLoaded(s: State, t: nat): State
    requires t < |s.threads| && s.threads[t].pc.Loaded? && s.threads[t].pc.la < |s.cells|
  {
    var th := s.threads[t];
    if LoadAborts(s, t) then SetPc(s, t, BeginLoad)
    else s.(threads := s.threads[t := th.(pc := Active, rd := th.rd[th.pc.la := th.pc.lv])])
  }

  /** What that pload returns: lookupAddr. */
  function LoadResult(s: State, t: nat): Val
    requires t < |s.threads| == |s.ws| && s.threads[t].pc.Loaded? && s.ws[t].num <= |s.ws[t].log|
  {
    var th := s.threads[t];
    if HasAddr(Used(s.ws[t]), th.pc.la) then Used(s.ws[t])[IndexOf(Used(s.ws[t]), th.pc.la)].val else th.pc.lv
  }

  function DoStore(s: State, t: nat, a: Addr, v: Val): State
    requires t < |s.ws| && s.ws[t].num < |s.ws[t].log|
  {
    s.(ws := s.ws[t := Add(s.ws[t], a, v)])
  }

  function DoEnd(s: State, t: nat): State
    requires t < |s.threads| == |s.ws|
  {
    SetPc(s, t, if s.ws[t].num == 0 then Idle else CCheck)
  }

  function DoCheck(s: State, t: nat): State
    requires t < |s.threads|
  {
    SetPc(s, t, if s.threads[t].my != s.curTx then BeginLoad else CRequest)
  }

  function DoRequest(s: State, t: nat): State
    requires t < |s.threads| == |s.request|
  {
    SetPc(s, t, CCas).(request := s.request[t := Trans(s.threads[t].my.sq + 1, t)])
  }

  function DoCas(s: State, t: nat): State
    requires t < |s.threads| == |s.ws| && s.ws[t].num <= |s.ws[t].log|
  {
    var th := s.threads[t];
    var newTx := Trans(th.my.sq + 1, t);
    if s.curTx != th.my then SetPc(s, t, BeginLoad)
    else
      s.(curTx := newTx,
         threads := s.threads[t := th.(pc := HRequest, hl := newTx, commit := true)],
         hist := s.hist + [Rec(t, Used(s.ws[t]), th.rd)])
  }

  // ---------- the machine ----------

  function Init(cells: nat, threads: nat, stores: nat): State
    requires threads > 0
  {
    State(Trans(1, 0),
          seq(threads, i => Trans(0, 0)),
          seq(cells, i => Cell(0, 0)),
          seq(threads, i => WriteSet(0, seq(stores, j => Entry(0, 0)))),
          seq(threads, i => Thread(Idle, Trans(1, 0), Trans(1, 0), false, map[])),
          [Rec(0, [], map[]), Rec(0, [], map[])])
  }

  predicate Shape(s: State) {
    && |s.request| == |s.ws| == |s.threads|
    && (forall t | 0 <= t < |s.ws| :: s.ws[t].num <= |s.ws[t].log| && |s.ws[t].log| == |s.ws[0].log|)
  }

  predicate CanStep(s: State, t: nat, op: Op) {
    && Shape(s) && t < |s.threads|
    && var th, w := s.threads[t], s.ws[t];
    && (Helping(th.pc) ==> th.hl.idx < |s.threads|)
    && match th.pc
       case Idle => op.Begin?
       case Active =>
         || op.End?
         || (op.Load? && op.a < |s.cells|)
         || (op.Store? && op.sa < |s.cells| && CanAdd(w, op.sa))
       case HApply(i) => op.Go? && (i < w.num ==> EntryAt(w, t, i).addr < |s.cells|)
       case HVal(i, _) => op.Go? && 0 < w.num && EntryAt(w, t, i).addr < |s.cells|
       case HDcas(i, _, _) => op.Go? && 0 < w.num && EntryAt(w, t, i).addr < |s.cells|
       case Loaded(a, _) => op.Go? && a < |s.cells|
       case _ => op.Go?
  }

  function DoStep(s: State, t: nat, op: Op): State
    requires CanStep(s, t, op)
  {
    match s.threads[t].pc
    case Idle => SetPc(s, t, BeginLoad)
    case BeginLoad => DoBeginLoad(s, t)
    case HRequest => DoHRequest(s, t)
    case HCopyNum => DoCopyNum(s, t)
    case HCopy(_) => DoCopy(s, t)
    case HCurTx => DoHCurTx(s, t)
    case HRequest2 => DoHRequest2(s, t)
    case HApply(_) => DoApply(s, t)
    case HVal(_, _) => DoHVal(s, t)
    case HDcas(_, _, _) => DoHDcas(s, t)
    case HClose => DoHClose(s, t)
    case BeginReset => DoReset(s, t)
    case BeginCheck => DoBeginCheck(s, t)
    case Active => (match op
      case Load(a) => DoLoad(s, t, a)
      case Store(a, v) => DoStore(s, t, a, v)
      case _ => DoEnd(s, t))
    case Loaded(_, _) => DoLoaded(s, t)
    case CCheck => DoCheck(s, t)
    case CRequest => DoRequest(s, t)
    case CCas => DoCas(s, t)
  }

  predicate Run(s: State, acts: seq<Action>)
    decreases |acts|
  {
    acts == [] || (CanStep(s, acts[0].t, acts[0].op) && Run(DoStep(s, acts[0].t, acts[0].op), acts[1..]))
  }

  function After(s: State, acts: seq<Action>): State
    requires Run(s, acts)
    decreases |acts|
  {
    if acts == [] then s else After(DoStep(s, acts[0].t, acts[0].op), acts[1..])
  }
}
