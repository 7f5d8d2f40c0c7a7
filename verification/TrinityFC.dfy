/**
  Flat combining over Trinity's memory: the machine of module FlatCombining with the functions
  and endTx taken apart into single accesses to persistent memory.  The lock holder runs each
  function of its batch call by call; endTx is PFENCE, the store of p_seq, PWB and PSYNC; a crash
  leaves any image of the memory, and recover() goes over it store by store.
*/
module TrinityFC {
  import opened Persistence
  import opened TxRuns
  import opened Trinity
  import F = FlatCombining

  // ---------- functions ----------

  datatype Call = Read(a: Addr) | Write(wa: Addr, wv: Val) | Return

  /** What a function does next, given the results of its calls so far. */
  type Code = seq<Val> -> Call

  /** A function running alone: the results of its calls, and the cells. */
  datatype Local = Local(outs: seq<Val>, cells: seq<Val>)

  function OneCall(c: Code, l: Local): Local {
    match c(l.outs)
    case Read(a) => if a < |l.cells| then l.(outs := l.outs + [l.cells[a]]) else l
    case Write(a, v) => if a < |l.cells| then Local(l.outs + [v], l.cells[a := v]) else l
    case Return => l
  }

  function AfterCalls(c: Code, v: seq<Val>, k: nat): Local {
    if k == 0 then Local([], v) else OneCall(c, AfterCalls(c, v, k - 1))
  }

  /** Run alone on cells v, the function returns leaving v'. */
  ghost predicate Ends(c: Code, v: seq<Val>, v': seq<Val>) {
    exists k: nat :: c(AfterCalls(c, v, k).outs).Return? && AfterCalls(c, v, k).cells == v'
  }

  /** The last function of rs takes u to v. */
  ghost predicate EndsLast(code: nat -> Code, rs: seq<nat>, u: seq<Val>, v: seq<Val>)
    requires rs != []
  {
    Ends(code(rs[|rs| - 1]), u, v)
  }

  /** The functions with these numbers, run one after the other from v, leave v'. */
  ghost predicate Ran(code: nat -> Code, rs: seq<nat>, v: seq<Val>, v': seq<Val>) {
    if rs == [] then v' == v
    else exists u :: EndsLast(code, rs, u, v') && Ran(code, rs[..|rs| - 1], v, u)
  }

  // ---------- states ----------

  /** Where the lock holder is within a function or within endTx. */
  datatype Work =
    | Idle
    | Calling(outs: seq<Val>)
      // pstore
    | StoreBack(a: Addr, v: Val, outs: seq<Val>)
    | StoreSeq(a: Addr, v: Val, outs: seq<Val>)
    | StoreMain(a: Addr, v: Val, outs: seq<Val>)
    | Flush(a: Addr, outs: seq<Val>)
      // endTx
    | StorePseq
    | PwbPseq
    | Psync

  datatype Mode =
    | Running
      // recover(), at cell i: before its stores, between them, and before its PWB
    | Scan(i: nat)
    | ScanSeq(i: nat)
    | ScanPwb(i: nat)

  datatype State = State(
    mode: Mode,
    fc: F.State,
    mem: Memory,
    work: seq<Work>,
    code: nat -> Code,              // the functions, by the numbers of their transactions
    // history
    loads: seq<seq<(Addr, Val)>>,   // of the actor's current read-only transaction
    ends: seq<nat>,                 // how many functions had run when p_seq became 1, 2, ...
    base: seq<Val>,                 // contents at the last commit
    now: seq<Val>)                  // contents when the last function returned

  datatype Action =
    | Step(p: nat, op: F.Op)        // everything that does not touch persistent memory
    | Access(w: nat)                // an access of the lock holder's function or endTx
    | Load(q: nat, a: Addr)         // a pload of a read-only transaction
    | Crash(img: Image)
    | Recover

  function Zeros(n: nat): seq<Val> { seq(n, i => 0) }

  function Init(cells: nat, slots: nat, actors: nat, code: nat -> Code): State {
    State(Running, F.Init(slots, actors), Boot(Image(seq(cells, a => Cell(0, 0, 0)), 1)),
          seq(actors, p => Idle), code, seq(actors, p => []), [0], Zeros(cells), Zeros(cells))
  }

  // ---------- steps ----------

  /** The function the actor is to run next, if it is at one. */
  function Current(a: F.Actor): F.Option<nat> {
    if a.pc.Exec? && a.pc.ei < |a.pc.elfc| then a.pc.elfc[a.pc.ei] else F.None
  }

  /** The actor's next step is one on persistent memory. */
  predicate InMemory(a: F.Actor) { a.pc.EndTx? || Current(a).Some? }

  predicate CanStep(s: State, p: nat, op: F.Op) {
    s.mode.Running? && F.CanStep(s.fc, p, op) && |s.loads| == |s.fc.actors| && !InMemory(s.fc.actors[p])
  }

  function DoStep(s: State, p: nat, op: F.Op): State
    requires CanStep(s, p, op)
  {
    s.(fc := F.DoStep(s.fc, p, op), loads := if s.fc.actors[p].pc.CheckLock? then s.loads[p := []] else s.loads)
  }

  predicate CanLoad(s: State, q: nat, a: Addr) {
    && s.mode.Running? && q < |s.fc.actors| == |s.loads| && s.fc.actors[q].pc.Reading?
    && MemOk(s.mem) && a < |s.mem.cells|
  }

  function DoLoad(s: State, q: nat, a: Addr): State
    requires CanLoad(s, q, a)
  {
    s.(loads := s.loads[q := s.loads[q] + [(a, Cur(s.mem.cells[a]).main)]])
  }

  predicate CanWork(s: State, w: nat) {
    && s.mode.Running? && w < |s.work| == |s.fc.actors| && F.CanStep(s.fc, w, F.Go) && MemOk(s.mem)
    && InMemory(s.fc.actors[w])
    && match s.work[w]
       case Idle => true
       case Calling(outs) => Current(s.fc.actors[w]).Some? && Accesses(s.code(Current(s.fc.actors[w]).value)(outs), |s.mem.cells|)
       case StoreBack(a, _, _) => a < |s.mem.cells|
       case StoreSeq(a, _, _) => a < |s.mem.cells|
       case StoreMain(a, _, _) => a < |s.mem.cells|
       case Flush(a, _) => a < |s.mem.cells|
       case _ => true
  }

  /** The call stays within the persistent cells. */
  predicate Accesses(c: Call, n: nat) { (c.Read? ==> c.a < n) && (c.Write? ==> c.wa < n) }

  function SetWork(s: State, w: nat, x: Work): State
    requires w < |s.work|
  {
    s.(work := s.work[w := x])
  }

  /** The next call of the function. */
  function DoCall(s: State, w: nat): State
    requires CanWork(s, w) && s.work[w].Calling?
  {
    var outs := s.work[w].outs;
    match s.code(Current(s.fc.actors[w]).value)(outs)
    case Read(a) => SetWork(s, w, Calling(outs + [Cur(s.mem.cells[a]).main]))
    case Write(a, v) =>
      SetWork(s, w, if Cur(s.mem.cells[a]).sq != Cur(s.mem.pseq) then StoreBack(a, v, outs) else StoreMain(a, v, outs))
    case Return => SetWork(s, w, Idle).(fc := F.DoStep(s.fc, w, F.Go), now := Mains(s.mem))
  }

  function DoWork(s: State, w: nat): State
    requires CanWork(s, w)
  {
    var m := s.mem;
    match s.work[w]
    case Idle =>
      if s.fc.actors[w].pc.EndTx? then SetWork(s, w, StorePseq).(mem := FenceAll(m)) else SetWork(s, w, Calling([]))
    case Calling(_) => DoCall(s, w)
    case StoreBack(a, v, outs) =>
      SetWork(s, w, StoreSeq(a, v, outs)).(mem := PutCell(m, a, Cur(m.cells[a]).(back := Cur(m.cells[a]).main)))
    case StoreSeq(a, v, outs) =>
      SetWork(s, w, StoreMain(a, v, outs)).(mem := PutCell(m, a, Cur(m.cells[a]).(sq := Cur(m.pseq))))
    case StoreMain(a, v, outs) =>
      SetWork(s, w, Flush(a, outs + [v])).(mem := PutCell(m, a, Cur(m.cells[a]).(main := v)))
    case Flush(a, outs) => SetWork(s, w, Calling(outs)).(mem := FlushCell(m, a))
    case StorePseq =>
      SetWork(s, w, PwbPseq).(mem := m.(pseq := Put(m.pseq, Cur(m.pseq) + 1)), ends := s.ends + [|s.fc.executed|])
    case PwbPseq => SetWork(s, w, Psync).(mem := m.(pseq := Pwb(m.pseq)))
    case Psync =>
      SetWork(s, w, Idle).(mem := FenceAll(m), fc := F.DoStep(s.fc, w, F.Go), base := s.now)
  }

  // ---------- crash and recovery ----------

  /** How many functions had run when p_seq became what the crash has left. */
  function Kept(s: State, img: Image): (k: nat)
    ensures k <= |s.fc.executed|
  {
    if 0 < img.pseq <= |s.ends| && s.ends[img.pseq - 1] <= |s.fc.executed| then s.ends[img.pseq - 1] else 0
  }

  predicate CanCrash(s: State, img: Image) { MemOk(s.mem) && CrashImage(s.mem, img) }

  function DoCrash(s: State, img: Image): State
    requires CanCrash(s, img)
  {
    var n := |s.fc.actors|;
    State(Scan(0), F.Lose(s.fc, Kept(s, img)), Boot(img), seq(n, p => Idle), s.code, seq(n, p => []),
          if img.pseq <= |s.ends| then s.ends[..img.pseq] else s.ends, Recovered(img), Recovered(img))
  }

  predicate CanRecover(s: State) {
    && MemOk(s.mem)
    && match s.mode
       case Running => false
       case Scan(_) => true
       case ScanSeq(i) => i < |s.mem.cells|
       case ScanPwb(i) => i < |s.mem.cells|
  }

  function DoRecover(s: State): State
    requires CanRecover(s)
  {
    var m := s.mem;
    match s.mode
    case Scan(i) =>
      if i >= |m.cells| then s.(mode := Running, mem := FenceAll(m))
      else
        var c := Cur(m.cells[i]);
        if c.sq != Cur(m.pseq) then s.(mode := Scan(i + 1))
        else s.(mode := ScanSeq(i), mem := PutCell(m, i, c.(main := c.back)))
    case ScanSeq(i) => s.(mode := ScanPwb(i), mem := PutCell(m, i, Cur(m.cells[i]).(sq := 0)))
    case ScanPwb(i) => s.(mode := Scan(i + 1), mem := FlushCell(m, i))
  }

  // ---------- the machine ----------

  predicate Enabled(s: State, act: Action) {
    match act
    case Step(p, op) => CanStep(s, p, op)
    case Access(w) => CanWork(s, w)
    case Load(q, a) => CanLoad(s, q, a)
    case Crash(img) => CanCrash(s, img)
    case Recover => CanRecover(s)
  }

  function Apply(s: State, act: Action): State
    requires Enabled(s, act)
  {
    match act
    case Step(p, op) => DoStep(s, p, op)
    case Access(w) => DoWork(s, w)
    case Load(q, a) => DoLoad(s, q, a)
    case Crash(img) => DoCrash(s, img)
    case Recover => DoRecover(s)
  }

  predicate Run(s: State, acts: seq<Action>)
    decreases |acts|
  {
    acts == [] || (Enabled(s, acts[0]) && Run(Apply(s, acts[0]), acts[1..]))
  }

  function After(s: State, acts: seq<Action>): State
    requires Run(s, acts)
    decreases |acts|
  {
    if acts == [] then s else After(Apply(s, acts[0]), acts[1..])
  }
}
