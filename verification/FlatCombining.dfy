/**
  Concurrency of Trinity: the thread registry, the C-RW-WP reader-writer lock and flat
  combining, as a machine that makes one access to shared memory per step.  The transactions
  themselves are the functions' identities: `executed` is the order in which functions ran,
  and the first `committed` of them are what recovery brings back (module Trinity).
*/
module FlatCombining {

  datatype Option<T> = None | Some(value: T)

  /** Slot i of a local copy of the flat-combining array. */
  type Batch = seq<Option<nat>>

  datatype PC =
    | Out
      // ThreadRegistry::register_thread_new
    | RegLoad(i: nat)
    | RegCas(ci: nat)
    | RegMax(mi: nat)
    | RegMaxCas(xi: nat, cur: int)
      // ns_write_transaction
    | Publish
    | TryLoad
    | TryCas
    | CheckMine
    | ScanMax
    | Scan(si: nat, max: nat, slfc: Batch)
    | Quit
    | WaitMax(mlfc: Batch)
    | Wait(j: nat, wmax: nat, wlfc: Batch)
    | Exec(ei: nat, elfc: Batch)
    | EndTx(tlfc: Batch)
    | Clear(ki: nat, klfc: Batch)
    | Unlock
      // ns_read_transaction
    | Arrive
    | CheckLock
    | Depart
    | Spin
    | Reading

  /** tid is -1 before registration; req is the transaction being written. */
  datatype Actor = Actor(pc: PC, tid: int, write: bool, req: nat)

  datatype State = State(
    locked: bool,
    used: seq<bool>,            // usedTID
    maxTid: int,
    reading: seq<bool>,         // RIStaticPerThread::states
    fc: seq<Option<nat>>,
    actors: seq<Actor>,
    executed: seq<nat>,
    committed: nat,
    // history
    owner: int,                 // actor that holds the lock, or -1
    next: nat,                  // transactions numbered so far
    returned: set<nat>)         // those whose call has returned

  datatype Op = Write | Read | Exit | Go

  datatype Action = Step(p: nat, op: Op) | Crash(keep: nat)

  function Init(slots: nat, actors: nat): State {
    State(false, seq(slots, i => false), -1, seq(slots, i => false), seq(slots, i => None),
          seq(actors, i => Actor(Out, -1, false, 0)), [], 0, -1, 0, {})
  }

  // ---------- steps ----------

  function Go1(s: State, p: nat, pc: PC): State
    requires p < |s.actors|
  {
    s.(actors := s.actors[p := s.actors[p].(pc := pc)])
  }

  /** The transaction proper, once the thread has a tid. */
  function Enter(write: bool): PC { if write then Publish else Arrive }

  function DoOut(s: State, p: nat, op: Op): State
    requires p < |s.actors| && (op == Exit ==> 0 <= s.actors[p].tid < |s.used|)
  {
    var a := s.actors[p];
    match op
    case Exit =>
      s.(used := s.used[a.tid := false], actors := s.actors[p := Actor(Out, -1, false, 0)])
    case _ =>
      var w := op == Write;
      var b := Actor(if a.tid >= 0 then Enter(w) else RegLoad(0), a.tid, w, s.next);
      s.(actors := s.actors[p := b], next := s.next + 1)
  }

  function DoRegister(s: State, p: nat): State
    requires p < |s.actors|
    requires s.actors[p].pc.RegLoad? || s.actors[p].pc.RegCas? || s.actors[p].pc.RegMax? || s.actors[p].pc.RegMaxCas?
    requires s.actors[p].pc.RegLoad? ==> s.actors[p].pc.i < |s.used|
    requires s.actors[p].pc.RegCas? ==> s.actors[p].pc.ci < |s.used|
  {
    var a := s.actors[p];
    match a.pc
    case RegLoad(i) => Go1(s, p, if s.used[i] then RegLoad(i + 1) else RegCas(i))
    case RegCas(i) => if s.used[i] then Go1(s, p, RegLoad(i + 1)) else Go1(s, p, RegMax(i)).(used := s.used[i := true])
    case RegMax(i) =>
      if s.maxTid <= i then Go1(s, p, RegMaxCas(i, s.maxTid))
      else s.(actors := s.actors[p := a.(pc := Enter(a.write), tid := i)])
    case RegMaxCas(i, cur) => Go1(s, p, RegMax(i)).(maxTid := if s.maxTid == cur then i + 1 else s.maxTid)
  }

  function Return(s: State, p: nat): State
    requires p < |s.actors|
  {
    var a := s.actors[p];
    Go1(s, p, Out).(returned := if a.write then s.returned + {a.req} else s.returned)
  }

  function DoPublish(s: State, p: nat): State
    requires p < |s.actors| && 0 <= s.actors[p].tid < |s.fc|
  {
    Go1(s, p, TryLoad).(fc := s.fc[s.actors[p].tid := Some(s.actors[p].req)])
  }

  function DoTry(s: State, p: nat): State
    requires p < |s.actors| && (s.actors[p].pc.TryLoad? || s.actors[p].pc.TryCas?)
  {
    if s.locked then Go1(s, p, CheckMine)
    else if s.actors[p].pc.TryLoad? then Go1(s, p, TryCas)
    else Go1(s, p, ScanMax).(locked := true, owner := p)
  }

  function DoCheckMine(s: State, p: nat): State
    requires p < |s.actors| && 0 <= s.actors[p].tid < |s.fc|
  {
    if s.fc[s.actors[p].tid] == None then Return(s, p) else Go1(s, p, TryLoad)
  }

  predicate Nothing(b: Batch) { forall i | 0 <= i < |b| :: b[i] == None }

  function DoScan(s: State, p: nat): State
    requires p < |s.actors| && s.actors[p].pc.Scan? && s.actors[p].pc.max <= |s.fc|
  {
    var pc := s.actors[p].pc;
    if pc.si < pc.max then Go1(s, p, Scan(pc.si + 1, pc.max, pc.slfc + [s.fc[pc.si]]))
    else Go1(s, p, if Nothing(pc.slfc) then Quit else WaitMax(pc.slfc))
  }

  function Release(s: State, p: nat): State
    requires p < |s.actors|
  {
    Return(s, p).(locked := false, owner := -1)
  }

  /** isEmpty, called until it is true. */
  function DoWait(s: State, p: nat): State
    requires p < |s.actors| && s.actors[p].pc.Wait? && s.actors[p].pc.wmax <= |s.reading|
  {
    var pc := s.actors[p].pc;
    if pc.j < pc.wmax then
      Go1(s, p, if s.reading[pc.j] then WaitMax(pc.wlfc) else Wait(pc.j + 1, pc.wmax, pc.wlfc))
    else Go1(s, p, Exec(0, pc.wlfc))
  }

  function DoExec(s: State, p: nat): State
    requires p < |s.actors| && s.actors[p].pc.Exec?
  {
    var pc := s.actors[p].pc;
    if pc.ei >= |pc.elfc| then Go1(s, p, EndTx(pc.elfc))
    else
      var s' := Go1(s, p, Exec(pc.ei + 1, pc.elfc));
      match pc.elfc[pc.ei]
      case None => s'
      case Some(r) => s'.(executed := s.executed + [r])
  }

  function DoClear(s: State, p: nat): State
    requires p < |s.actors| && s.actors[p].pc.Clear? && |s.actors[p].pc.klfc| <= |s.fc|
  {
    var pc := s.actors[p].pc;
    if pc.ki >= |pc.klfc| then Go1(s, p, Unlock)
    else
      var s' := Go1(s, p, Clear(pc.ki + 1, pc.klfc));
      if pc.klfc[pc.ki] == None then s' else s'.(fc := s.fc[pc.ki := None])
  }

  function SetReading(s: State, p: nat, b: bool, pc: PC): State
    requires p < |s.actors| && 0 <= s.actors[p].tid < |s.reading|
  {
    Go1(s, p, pc).(reading := s.reading[s.actors[p].tid := b])
  }

  predicate Shape(s: State) { |s.used| == |s.reading| == |s.fc| }

  predicate CanStep(s: State, p: nat, op: Op) {
    && Shape(s) && p < |s.actors|
    && var a := s.actors[p];
    match a.pc
    case Out => op == Write || op == Read || (op == Exit && 0 <= a.tid < |s.used|)
    case RegLoad(i) => op == Go && i < |s.used|     // otherwise the registry is full
    case RegCas(i) => op == Go && i < |s.used|
    case RegMax(_) => op == Go
    case RegMaxCas(_, _) => op == Go
    case Scan(_, max, _) => op == Go && max <= |s.fc|
    case Wait(_, max, _) => op == Go && max <= |s.fc|
    case Clear(_, lfc) => op == Go && |lfc| <= |s.fc|
    case ScanMax => op == Go && s.maxTid >= 0
    case WaitMax(_) => op == Go && s.maxTid >= 0
    case _ => op == Go && 0 <= a.tid < |s.fc|
  }

  function DoStep(s: State, p: nat, op: Op): State
    requires CanStep(s, p, op)
  {
    match s.actors[p].pc
    case Out => DoOut(s, p, op)
    case RegLoad(_) => DoRegister(s, p)
    case RegCas(_) => DoRegister(s, p)
    case RegMax(_) => DoRegister(s, p)
    case RegMaxCas(_, _) => DoRegister(s, p)
    case Publish => DoPublish(s, p)
    case TryLoad => DoTry(s, p)
    case TryCas => DoTry(s, p)
    case CheckMine => DoCheckMine(s, p)
    case ScanMax => Go1(s, p, Scan(0, s.maxTid, []))
    case Scan(_, _, _) => DoScan(s, p)
    case Quit => Release(s, p)
    case WaitMax(lfc) => Go1(s, p, Wait(0, s.maxTid, lfc))
    case Wait(_, _, _) => DoWait(s, p)
    case Exec(_, _) => DoExec(s, p)
    case EndTx(lfc) => Go1(s, p, Clear(0, lfc)).(committed := |s.executed|)
    case Clear(_, _) => DoClear(s, p)
    case Unlock => Release(s, p)
    case Arrive => SetReading(s, p, true, CheckLock)
    case CheckLock => Go1(s, p, if s.locked then Depart else Reading)
    case Depart => SetReading(s, p, false, Spin)
    case Spin => Go1(s, p, if s.locked then Spin else Arrive)
    case Reading => Return(SetReading(s, p, false, Out), p)
  }

  /** In the middle of endTx a crash may find the batch committed already. */
  predicate CanCrash(s: State, keep: nat) {
    keep <= |s.executed|
    && (keep == s.committed || (keep == |s.executed| && exists p :: 0 <= p < |s.actors| && s.actors[p].pc.EndTx?))
  }

  /** All volatile state is lost, the threads with it. */
  function Lose(s: State, keep: nat): State
    requires keep <= |s.executed|
  {
    Init(|s.used|, |s.actors|).(executed := s.executed[..keep], committed := keep, next := s.next, returned := s.returned)
  }

  function DoCrash(s: State, keep: nat): State
    requires CanCrash(s, keep)
  {
    Lose(s, keep)
  }

  predicate Enabled(s: State, a: Action) {
    match a
    case Step(p, op) => CanStep(s, p, op)
    case Crash(keep) => CanCrash(s, keep)
  }

  function Apply(s: State, a: Action): State
    requires Enabled(s, a)
  {
    match a
    case Step(p, op) => DoStep(s, p, op)
    case Crash(keep) => DoCrash(s, keep)
  }

  predicate Run(s: State, acts: seq<Action>)
    decreases |acts|
  {
    acts == [] || (Enabled(s, acts[0]) && Run(Apply(s, acts[0]), acts[1..]))
  }

  function After(s: State, acts: seq<Action>): State
    requires Run(s, acts)
    decreases |acts|
  {
    if acts == [] then s else After(Apply(s, acts[0]), acts[1..])
  }
}
