/** The invariant of flat combining. */
module FlatCombiningInv {
  import opened FlatCombining

  predicate Holding(pc: PC) {
    pc.ScanMax? || pc.Scan? || pc.Quit? || pc.WaitMax? || pc.Wait? || pc.Exec? || pc.EndTx? || pc.Clear? || pc.Unlock?
  }

  predicate Published(pc: PC) { pc.TryLoad? || pc.TryCas? || pc.CheckMine? || Holding(pc) }

  predicate Registering(pc: PC) { pc.RegLoad? || pc.RegCas? || pc.RegMax? || pc.RegMaxCas? }

  /** Past waitForReaders, before the commit. */
  predicate Mutating(pc: PC) { pc.Exec? || pc.EndTx? }

  /** The slot of the registry the actor has taken, or -1. */
  function Slot(a: Actor): int {
    match a.pc
    case RegMax(i) => i
    case RegMaxCas(i, _) => i
    case _ => a.tid
  }

  ghost predicate ActorOk(s: State, p: nat)
    requires p < |s.actors|
  {
    var a := s.actors[p];
    && -1 <= a.tid && -1 <= Slot(a) < |s.used|
    && (Slot(a) >= 0 ==> s.used[Slot(a)])
    && (0 <= a.tid ==> a.tid < s.maxTid)
    && (if Registering(a.pc) then a.tid == -1 else a.pc.Out? || a.tid >= 0)
    && (Published(a.pc) || a.pc.Publish? ==> a.write)
    && (a.pc.Arrive? || a.pc.CheckLock? || a.pc.Depart? || a.pc.Spin? || a.pc.Reading? ==> !a.write)
    && (a.pc.CheckLock? || a.pc.Depart? || a.pc.Reading? ==> a.tid < |s.reading| && s.reading[a.tid])
    && (!a.pc.Out? ==> a.req < s.next)
    && (a.pc.RegMaxCas? ==> a.pc.cur <= a.pc.xi)
    && (Holding(a.pc) <==> p as int == s.owner)
  }

  ghost predicate SlotsOk(s: State) {
    && (forall p: nat, q: nat | p < q < |s.actors| && Slot(s.actors[p]) >= 0 :: Slot(s.actors[p]) != Slot(s.actors[q]))
    && (forall p: nat, q: nat | p < q < |s.actors| && !s.actors[p].pc.Out? && !s.actors[q].pc.Out? ::
         s.actors[p].req != s.actors[q].req)
    && -1 <= s.maxTid <= |s.used|
    && (s.locked <==> s.owner >= 0) && -1 <= s.owner < |s.actors|
  }

  /** No reader below j has been missed by the scan; none can come in while the lock is held. */
  ghost predicate ReadersOk(s: State) {
    0 <= s.owner < |s.actors| ==>
      match s.actors[s.owner].pc
      case Wait(j, m, _) => forall q: nat | q < |s.actors| && s.actors[q].pc.Reading? :: j <= s.actors[q].tid < m
      case Exec(_, _) => NoReader(s)
      case EndTx(_) => NoReader(s)
      case Clear(_, _) => NoReader(s)
      case Unlock => NoReader(s)
      case _ => true
  }

  ghost predicate NoReader(s: State) { forall q: nat | q < |s.actors| :: !s.actors[q].pc.Reading? }

  /** The lock holder's local copy of the array. */
  function Lfc(pc: PC): Batch {
    match pc
    case Scan(_, _, lfc) => lfc
    case WaitMax(lfc) => lfc
    case Wait(_, _, lfc) => lfc
    case Exec(_, lfc) => lfc
    case EndTx(lfc) => lfc
    case Clear(_, lfc) => lfc
    case _ => []
  }

  /** The holder has run slot t of its batch and not yet cleared it. */
  predicate InDoubt(pc: PC, t: nat) {
    && t < |Lfc(pc)| && Lfc(pc)[t] != None
    && match pc
       case Exec(i, _) => t < i
       case EndTx(_) => true
       case Clear(i, _) => t >= i
       case _ => false
  }

  predicate OwnerDoubt(s: State, t: nat) { 0 <= s.owner < |s.actors| && InDoubt(s.actors[s.owner].pc, t) }

  predicate Executed(s: State, r: nat) { exists k :: 0 <= k < |s.executed| && s.executed[k] == r }

  predicate Durable(s: State, r: nat) {
    s.committed <= |s.executed| && exists k :: 0 <= k < s.committed && s.executed[k] == r
  }

  /** A published function has run exactly if its slot is being processed. */
  ghost predicate SlotOk(s: State, t: nat)
    requires t < |s.fc|
  {
    s.fc[t].Some? ==>
      && (Executed(s, s.fc[t].value) <==> OwnerDoubt(s, t))
      && s.fc[t].value < s.next
  }

  ghost predicate FcOk(s: State) {
    && (forall t: nat | t < |s.fc| :: SlotOk(s, t))
    // a waiting actor's slot holds its own function or is empty
    && (forall p: nat | p < |s.actors| && 0 <= s.actors[p].tid < |s.fc| :: MineOk(s, p))
    && (forall p: nat | p < |s.actors| && !s.actors[p].pc.Out? && !Published(s.actors[p].pc) :: Unrun(s, p))
    // a slot nobody waits in is empty
    && (forall t: nat | t < |s.fc| && s.fc[t].Some? :: exists p :: Waits(s, p, t))
  }

  predicate Waits(s: State, p: nat, t: nat) {
    p < |s.actors| && s.actors[p].tid == t && Published(s.actors[p].pc)
  }

  /** Not published yet, so not run yet. */
  predicate Unrun(s: State, p: nat)
    requires p < |s.actors|
  {
    !Executed(s, s.actors[p].req)
  }

  ghost predicate MineOk(s: State, p: nat)
    requires p < |s.actors| && 0 <= s.actors[p].tid < |s.fc|
  {
    var a := s.actors[p];
    if Published(a.pc) then
      if s.fc[a.tid] == None then Durable(s, a.req) else s.fc[a.tid] == Some(a.req)
    else s.fc[a.tid] == None
  }

  /** The copy agrees with the array as far as it goes, and covers the holder's own slot. */
  ghost predicate LfcOk(s: State) {
    s.owner >= 0 ==>
      0 <= s.owner < |s.actors| &&
      var a := s.actors[s.owner];
      var lfc := Lfc(a.pc);
      && |lfc| <= |s.fc|
      && (forall t | 0 <= t < |lfc| && lfc[t].Some? && !(a.pc.Clear? && t < a.pc.ki) :: s.fc[t] == lfc[t])
      && (a.pc.Scan? ==> |lfc| == a.pc.si <= a.pc.max <= |s.fc| && a.tid < a.pc.max
                         && (0 <= a.tid < |lfc| && lfc[a.tid] == None ==> s.fc[a.tid] == None))
      && (a.pc.WaitMax? || a.pc.Wait? || a.pc.Exec? || a.pc.EndTx? || a.pc.Clear? ==>
            && 0 <= a.tid < |lfc| && (lfc[a.tid] == None ==> s.fc[a.tid] == None))
      && (a.pc.Wait? ==> a.pc.j <= a.pc.wmax <= |s.fc|)
      && (a.pc.Exec? ==> a.pc.ei <= |lfc|)
      && (a.pc.Clear? ==> a.pc.ki <= |lfc| && (a.tid < a.pc.ki ==> s.fc[a.tid] == None))
      && (a.pc.Quit? || a.pc.Unlock? ==> 0 <= a.tid < |s.fc| && s.fc[a.tid] == None)
  }

  ghost predicate LogOk(s: State) {
    && s.committed <= |s.executed|
    && (forall i, j | 0 <= i < j < |s.executed| :: s.executed[i] != s.executed[j])
    && (forall k | 0 <= k < |s.executed| :: s.executed[k] < s.next)
    && (forall r <- s.returned :: Durable(s, r))
    && (s.committed < |s.executed| ==> 0 <= s.owner < |s.actors| && Mutating(s.actors[s.owner].pc))
  }

  ghost predicate Inv(s: State) {
    && Shape(s) && (forall p: nat | p < |s.actors| :: ActorOk(s, p))
    && SlotsOk(s) && ReadersOk(s) && FcOk(s) && LfcOk(s) && LogOk(s)
  }

  lemma {:induction false} InitKeeps(slots: nat, actors: nat)
    ensures Inv(Init(slots, actors))
  {
  }
}
