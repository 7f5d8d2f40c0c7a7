/** Every step of flat combining keeps its invariant. */
module FlatCombiningProof {
  import opened FlatCombining
  import opened FlatCombiningInv

  ghost predicate ActorsOk(s: State) { forall q: nat | q < |s.actors| :: ActorOk(s, q) }

  lemma {:induction false} Parts(s: State)
    requires Inv(s)
    ensures Shape(s) && ActorsOk(s) && SlotsOk(s) && ReadersOk(s) && FcOk(s) && LfcOk(s) && LogOk(s)
  {
  }

  lemma {:induction false} Whole(s: State)
    requires Shape(s) && ActorsOk(s) && SlotsOk(s) && ReadersOk(s) && FcOk(s) && LfcOk(s) && LogOk(s)
    ensures Inv(s)
  {
  }

  /** What the invariant says about one actor. */
  lemma {:induction false} Facts(s: State, p: nat)
    requires Inv(s) && p < |s.actors|
    ensures ActorOk(s, p) && (s.actors[p].tid >= 0 ==> s.actors[p].tid < |s.fc| && MineOk(s, p))
    ensures !s.actors[p].pc.Out? && !Published(s.actors[p].pc) ==> Unrun(s, p)
  {
  }

  // ---------- what a step of actor p leaves alone ----------

  predicate OthersSame(s: State, s': State, p: nat) {
    && p < |s.actors| == |s'.actors|
    && forall q: nat | q < |s.actors| && q != p :: s'.actors[q] == s.actors[q]
  }

  predicate SameSize(s: State, s': State) { Shape(s) && Shape(s') && |s'.fc| == |s.fc| }

  /** The lock is taken or released by p, or by nobody. */
  predicate OwnerMoves(s: State, s': State, p: nat) {
    s'.owner == s.owner || ((s.owner == -1 || s.owner == p) && (s'.owner == -1 || s'.owner == p))
  }

  predicate SlotKept(s: State, s': State, t: int)
    requires SameSize(s, s')
  {
    0 <= t < |s.used| ==> (s.used[t] ==> s'.used[t]) && (s.reading[t] ==> s'.reading[t])
  }

  lemma {:induction false} ActorsKeep(s: State, s': State, p: nat)
    requires SameSize(s, s') && OthersSame(s, s', p) && ActorsOk(s) && OwnerMoves(s, s', p)
    requires ActorOk(s', p) && s'.maxTid >= s.maxTid && s'.next >= s.next
    requires forall q: nat | q < |s.actors| && q != p && Slot(s.actors[q]) >= 0 :: SlotKept(s, s', Slot(s.actors[q]))
    ensures ActorsOk(s')
  {
    forall q: nat | q < |s'.actors| ensures ActorOk(s', q) {
      assert ActorOk(s, q);
      assert q != p && Slot(s.actors[q]) >= 0 ==> SlotKept(s, s', Slot(s.actors[q]));
    }
  }

  /** Slot and number of p are kept, given up or new. */
  lemma {:induction false} SlotsKeep(s: State, s': State, p: nat)
    requires SameSize(s, s') && OthersSame(s, s', p) && ActorsOk(s) && SlotsOk(s)
    requires var a, b := s.actors[p], s'.actors[p];
      && (Slot(b) < 0 || Slot(b) == Slot(a) || (Slot(b) < |s.used| && !s.used[Slot(b)]))
      && (b.pc.Out? || (b.req == a.req && !a.pc.Out?) || b.req == s.next)
    requires -1 <= s'.maxTid <= |s'.used| && (s'.locked <==> s'.owner >= 0) && -1 <= s'.owner < |s'.actors|
    ensures SlotsOk(s')
  {
    forall q: nat | q < |s.actors| && q != p
      ensures Slot(s.actors[q]) >= 0 ==> Slot(s.actors[q]) != Slot(s'.actors[p])
      ensures !s.actors[q].pc.Out? && !s'.actors[p].pc.Out? ==> s.actors[q].req != s'.actors[p].req
    {
      assert ActorOk(s, q);
    }
  }

  /** Shared data of flat combining untouched, and p stays, enters or leaves properly. */
  ghost predicate Aside(s: State, s': State, p: nat) {
    && OthersSame(s, s', p) && s'.fc == s.fc && s'.executed == s.executed && s'.committed == s.committed
    && s'.next >= s.next
    && var a, b := s.actors[p], s'.actors[p];
    && (Published(b.pc) ==> Published(a.pc) && b.tid == a.tid && b.req == a.req)
    && (Published(a.pc) && !Published(b.pc) ==> 0 <= a.tid < |s.fc| && s.fc[a.tid] == None)
    && (!b.pc.Out? && !Published(b.pc) ==> Unrun(s', p))
    && (!Published(b.pc) && 0 <= b.tid < |s.fc| ==> s.fc[b.tid] == None)
    && (forall t: nat | t < |s.fc| :: OwnerDoubt(s', t) == OwnerDoubt(s, t))
  }

  lemma {:induction false} AsideKeepsFc(s: State, s': State, p: nat)
    requires FcOk(s) && Aside(s, s', p)
    ensures FcOk(s')
  {
    forall t: nat | t < |s'.fc| ensures SlotOk(s', t) {
      assert SlotOk(s, t);
      assert OwnerDoubt(s', t) == OwnerDoubt(s, t);
    }
    forall q: nat | q < |s'.actors| && 0 <= s'.actors[q].tid < |s'.fc| ensures MineOk(s', q) {
      assert q != p || Published(s'.actors[p].pc) ==> MineOk(s, q);
    }
    forall q: nat | q < |s'.actors| && !s'.actors[q].pc.Out? && !Published(s'.actors[q].pc) ensures Unrun(s', q) {
      assert q != p ==> Unrun(s, q);
    }
    forall t: nat | t < |s'.fc| && s'.fc[t].Some? ensures exists q :: Waits(s', q, t) {
      var q: nat :| Waits(s, q, t);
      assert Waits(s', q, t);
    }
  }

  lemma {:induction false} LogKeeps(s: State, s': State, p: nat)
    requires LogOk(s) && OthersSame(s, s', p) && s'.executed == s.executed && s'.committed == s.committed
    requires s'.next >= s.next && (forall r <- s'.returned :: r in s.returned || Durable(s, r))
    requires 0 <= s.owner < |s.actors| && Mutating(s.actors[s.owner].pc) ==>
      s'.owner == s.owner && Mutating(s'.actors[s'.owner].pc)
    ensures LogOk(s')
  {
    forall r <- s'.returned ensures Durable(s', r) {
      assert Durable(s, r);
    }
  }

  /** p does not hold the lock and comes no closer to reading. */
  predicate Bystander(s: State, s': State, p: nat) {
    && OthersSame(s, s', p) && s'.owner == s.owner && s.owner != p
    && (s'.actors[p].pc.Reading? ==> s.actors[p].pc.Reading? || s.owner < 0)
  }

  lemma {:induction false} ReadersKeep(s: State, s': State, p: nat)
    requires ReadersOk(s) && Bystander(s, s', p)
    requires s'.actors[p].pc.Reading? && s.owner >= 0 ==> s'.actors[p].tid == s.actors[p].tid
    ensures ReadersOk(s')
  {
  }

  lemma {:induction false} LfcKeeps(s: State, s': State, p: nat)
    requires LfcOk(s) && Bystander(s, s', p) && s'.fc == s.fc
    ensures LfcOk(s')
  {
  }

  /** A step of an actor that does not hold the lock and publishes nothing. */
  lemma {:induction false} BystanderKeeps(s: State, s': State, p: nat)
    requires Inv(s) && SameSize(s, s') && Bystander(s, s', p) && Aside(s, s', p)
    requires ActorOk(s', p) && s.maxTid <= s'.maxTid <= |s'.used| && s'.locked == s.locked
    requires forall q: nat | q < |s.actors| && q != p && Slot(s.actors[q]) >= 0 :: SlotKept(s, s', Slot(s.actors[q]))
    requires s'.actors[p].pc.Reading? && s.owner >= 0 ==> s'.actors[p].tid == s.actors[p].tid
    requires var a, b := s.actors[p], s'.actors[p];
      && (Slot(b) < 0 || Slot(b) == Slot(a) || (Slot(b) < |s.used| && !s.used[Slot(b)]))
      && (b.pc.Out? || (b.req == a.req && !a.pc.Out?) || b.req == s.next)
    requires forall r <- s'.returned :: r in s.returned || Durable(s, r)
    ensures Inv(s')
  {
    Parts(s);
    Ranges(s);
    hide ActorOk;
    hide ReadersOk;
    hide FcOk;
    hide LfcOk;
    hide LogOk;
    hide SlotKept;
    hide Aside;
    ActorsKeep(s, s', p);
    AsideNext(s, s', p);
    SlotsKeep(s, s', p);
    AsideKeepsFc(s, s', p);
    LogKeeps(s, s', p);
    ReadersKeep(s, s', p);
    LfcKeeps(s, s', p);
    Whole(s');
  }

  lemma {:induction false} AsideNext(s: State, s': State, p: nat)
    requires Aside(s, s', p)
    ensures s'.next >= s.next && s'.executed == s.executed && s'.committed == s.committed && s'.fc == s.fc
  {
  }

  lemma {:induction false} Ranges(s: State)
    requires SlotsOk(s)
    ensures -1 <= s.maxTid <= |s.used| && (s.locked <==> s.owner >= 0) && -1 <= s.owner < |s.actors|
  {
  }

  /** What p needs to know for a step of its own. */
  lemma {:induction false} Knows(s: State, p: nat)
    requires Inv(s) && p < |s.actors|
    ensures Shape(s) && ActorOk(s, p) && -1 <= s.maxTid <= |s.used| && (s.locked <==> s.owner >= 0)
    ensures s.actors[p].tid >= 0 ==> s.actors[p].tid < |s.fc| && MineOk(s, p)
    ensures !s.actors[p].pc.Out? && !Published(s.actors[p].pc) ==> !Executed(s, s.actors[p].req)
    ensures !Executed(s, s.next) && -1 <= s.owner < |s.actors|
    ensures forall q: nat | q < |s.actors| && q != p && Slot(s.actors[p]) >= 0 :: Slot(s.actors[q]) != Slot(s.actors[p])
  {
    Facts(s, p);
    NextUnrun(s);
    NotOther(s, p);
  }

  lemma {:induction false} ExitKeeps(s: State, p: nat)
    requires Inv(s) && CanStep(s, p, Exit) && s.actors[p].pc.Out?
    ensures Inv(DoOut(s, p, Exit))
  {
    hide Inv;
    hide ActorsOk;
    hide SlotsOk;
    hide FcOk;
    hide LfcOk;
    hide ReadersOk;
    hide LogOk;
    Knows(s, p);
    BystanderKeeps(s, DoOut(s, p, Exit), p);
  }

  lemma {:induction false} StartKeeps(s: State, p: nat, op: Op)
    requires Inv(s) && CanStep(s, p, op) && s.actors[p].pc.Out? && op != Exit
    ensures Inv(DoOut(s, p, op))
  {
    hide Inv;
    hide ActorsOk;
    hide SlotsOk;
    hide FcOk;
    hide LfcOk;
    hide ReadersOk;
    hide LogOk;
    Knows(s, p);
    BystanderKeeps(s, DoOut(s, p, op), p);
  }

  lemma {:induction false} RegisterKeeps(s: State, p: nat, op: Op)
    requires Inv(s) && CanStep(s, p, op) && Registering(s.actors[p].pc)
    ensures Inv(DoRegister(s, p))
  {
    hide Inv, DoRegister;
    match s.actors[p].pc
    case RegLoad(_) => TakeKeeps(s, p, op);
    case RegCas(_) => TakeKeeps(s, p, op);
    case RegMax(_) => MaxTidKeeps(s, p, op);
    case RegMaxCas(_, _) => MaxTidKeeps(s, p, op);
  }

  /** The scan for a free slot. */
  lemma {:induction false} TakeKeeps(s: State, p: nat, op: Op)
    requires Inv(s) && CanStep(s, p, op) && (s.actors[p].pc.RegLoad? || s.actors[p].pc.RegCas?)
    ensures Inv(DoRegister(s, p))
  {
    hide Inv, ActorsOk, SlotsOk, FcOk, LfcOk, ReadersOk, LogOk, MineOk;
    Knows(s, p);
    BystanderKeeps(s, DoRegister(s, p), p);
  }

  lemma {:induction false} MaxTidKeeps(s: State, p: nat, op: Op)
    requires Inv(s) && CanStep(s, p, op) && (s.actors[p].pc.RegMax? || s.actors[p].pc.RegMaxCas?)
    ensures Inv(DoRegister(s, p))
  {
    hide Inv, ActorsOk, SlotsOk, FcOk, LfcOk, ReadersOk, LogOk, MineOk;
    Knows(s, p);
    SlotFree(s, p);
    BystanderKeeps(s, DoRegister(s, p), p);
  }

  /** The slot being registered is nobody else's, so nobody has published in it. */
  lemma {:induction false} SlotFree(s: State, p: nat)
    requires Inv(s) && p < |s.actors| && 0 <= Slot(s.actors[p]) < |s.fc| && !Published(s.actors[p].pc)
    ensures s.fc[Slot(s.actors[p])] == None
  {
  }

  lemma {:induction false} NextUnrun(s: State)
    requires LogOk(s)
    ensures !Executed(s, s.next)
  {
  }

  lemma {:induction false} NotOther(s: State, p: nat)
    requires SlotsOk(s) && p < |s.actors|
    ensures forall q: nat | q < |s.actors| && q != p && Slot(s.actors[p]) >= 0 :: Slot(s.actors[q]) != Slot(s.actors[p])
  {
  }

  /** A step of the lock holder, or of the actor that takes or gives up the lock. */
  lemma {:induction false} HolderKeeps(s: State, s': State, p: nat)
    requires Inv(s) && SameSize(s, s') && Aside(s, s', p) && ActorOk(s', p)
    requires (s.owner == -1 || s.owner == p) && (s'.owner == -1 || s'.owner == p) && (s'.locked <==> s'.owner >= 0)
    requires s'.maxTid == s.maxTid && s'.used == s.used && s'.reading == s.reading
    requires s'.actors[p].tid == s.actors[p].tid && Slot(s.actors[p]) == Slot(s'.actors[p])
    requires !s.actors[p].pc.Out? && s'.actors[p].req == s.actors[p].req
    requires ReadersOk(s') && LfcOk(s')
    requires forall r <- s'.returned :: r in s.returned || Durable(s, r)
    requires s.owner == p && Mutating(s.actors[p].pc) ==> s'.owner == p && Mutating(s'.actors[p].pc)
    ensures Inv(s')
  {
    Parts(s);
    Ranges(s);
    hide ActorOk;
    hide ReadersOk;
    hide FcOk;
    hide LfcOk;
    hide LogOk;
    hide Aside;
    AsideNext(s, s', p);
    ActorsKeep(s, s', p);
    SlotsKeep(s, s', p);
    AsideKeepsFc(s, s', p);
    LogKeeps(s, s', p);
    Whole(s');
  }

  lemma {:induction false} TryKeeps(s: State, p: nat)
    requires Inv(s) && CanStep(s, p, Go) && (s.actors[p].pc.TryLoad? || s.actors[p].pc.TryCas?)
    ensures Inv(DoTry(s, p))
  {
    hide Inv;
    hide ActorsOk;
    hide SlotsOk;
    hide FcOk;
    hide LfcOk;
    hide ReadersOk;
    hide LogOk;
    Knows(s, p);
    var s' := DoTry(s, p);
    if s'.owner == p {
      assert ReadersOk(s') && LfcOk(s') by { Parts(s); FreshHolder(s', p); }
      HolderKeeps(s, s', p);
    } else {
      BystanderKeeps(s, s', p);
    }
  }

  lemma {:induction false} FreshHolder(s: State, p: nat)
    requires p < |s.actors| && s.owner == p && s.actors[p].pc.ScanMax?
    ensures ReadersOk(s) && LfcOk(s)
  {
  }

  lemma {:induction false} CheckMineKeeps(s: State, p: nat)
    requires Inv(s) && CanStep(s, p, Go) && s.actors[p].pc.CheckMine?
    ensures Inv(DoCheckMine(s, p))
  {
    hide Inv;
    hide ActorsOk;
    hide SlotsOk;
    hide FcOk;
    hide LfcOk;
    hide ReadersOk;
    hide LogOk;
    Knows(s, p);
    BystanderKeeps(s, DoCheckMine(s, p), p);
  }

  /** What the lock holder knows. */
  lemma {:induction false} HolderKnows(s: State, p: nat)
    requires Inv(s) && p < |s.actors| && Holding(s.actors[p].pc)
    ensures s.owner == p && LfcOk(s) && ReadersOk(s)
    ensures s.committed < |s.executed| ==> Mutating(s.actors[p].pc)
    ensures forall q: nat | q < |s.actors| && s.actors[q].pc.Reading? ::
      0 <= s.actors[q].tid < s.maxTid && s.actors[q].tid < |s.reading| && s.reading[s.actors[q].tid]
  {
    forall q: nat | q < |s.actors| && s.actors[q].pc.Reading?
      ensures 0 <= s.actors[q].tid < s.maxTid && s.actors[q].tid < |s.reading| && s.reading[s.actors[q].tid]
    {
      assert ActorOk(s, q);
    }
    assert ActorOk(s, p);
  }

  lemma {:induction false} ScanKeeps(s: State, p: nat)
    requires Inv(s) && CanStep(s, p, Go) && s.actors[p].pc.Scan?
    ensures Inv(DoScan(s, p))
  {
    hide Inv;
    hide ActorsOk;
    hide SlotsOk;
    hide FcOk;
    hide LogOk;
    Knows(s, p);
    HolderKnows(s, p);
    HolderKeeps(s, DoScan(s, p), p);
  }

  lemma {:induction false} MaxKeeps(s: State, p: nat)
    requires Inv(s) && CanStep(s, p, Go) && (s.actors[p].pc.ScanMax? || s.actors[p].pc.WaitMax?)
    ensures Inv(DoStep(s, p, Go))
  {
    hide Inv;
    hide ActorsOk;
    hide SlotsOk;
    hide FcOk;
    hide LogOk;
    Knows(s, p);
    HolderKnows(s, p);
    HolderKeeps(s, DoStep(s, p, Go), p);
  }

  lemma {:induction false} WaitKeeps(s: State, p: nat)
    requires Inv(s) && CanStep(s, p, Go) && s.actors[p].pc.Wait?
    ensures Inv(DoWait(s, p))
  {
    hide Inv;
    hide ActorsOk;
    hide SlotsOk;
    hide FcOk;
    hide LogOk;
    Knows(s, p);
    HolderKnows(s, p);
    HolderKeeps(s, DoWait(s, p), p);
  }

  lemma {:induction false} ReleaseKeeps(s: State, p: nat)
    requires Inv(s) && CanStep(s, p, Go) && (s.actors[p].pc.Quit? || s.actors[p].pc.Unlock?)
    ensures Inv(Release(s, p))
  {
    hide Inv;
    hide ActorsOk;
    hide SlotsOk;
    hide FcOk;
    hide LogOk;
    Knows(s, p);
    HolderKnows(s, p);
    HolderKeeps(s, Release(s, p), p);
  }

  lemma {:induction false} ReaderKeeps(s: State, p: nat)
    requires Inv(s) && CanStep(s, p, Go)
    requires s.actors[p].pc.Arrive? || s.actors[p].pc.CheckLock? || s.actors[p].pc.Depart? || s.actors[p].pc.Spin?
             || s.actors[p].pc.Reading?
    ensures Inv(DoStep(s, p, Go))
  {
    hide Inv;
    hide ActorsOk;
    hide SlotsOk;
    hide FcOk;
    hide LfcOk;
    hide ReadersOk;
    hide LogOk;
    Knows(s, p);
    BystanderKeeps(s, DoStep(s, p, Go), p);
  }

  // ---------- steps on the array and on the log ----------

  /** Everything but the array, the log and the lock holder's progress. */
  lemma {:induction false} RestKeeps(s: State, s': State, p: nat)
    requires Inv(s) && SameSize(s, s') && OthersSame(s, s', p) && ActorOk(s', p)
    requires s'.owner == s.owner && s'.locked == s.locked && s'.next == s.next
    requires s'.maxTid == s.maxTid && s'.used == s.used && s'.reading == s.reading
    requires Slot(s.actors[p]) == Slot(s'.actors[p]) && !s.actors[p].pc.Out? && s'.actors[p].req == s.actors[p].req
    requires ReadersOk(s') && LfcOk(s') && FcOk(s') && LogOk(s')
    ensures Inv(s')
  {
    Parts(s);
    Ranges(s);
    hide ActorOk;
    hide ReadersOk;
    hide FcOk;
    hide LfcOk;
    hide LogOk;
    ActorsKeep(s, s', p);
    SlotsKeep(s, s', p);
    Whole(s');
  }

  /** Two functions waiting at the same time are different. */
  lemma {:induction false} Distinct(s: State, t: nat, u: nat)
    requires Inv(s) && t < |s.fc| && u < |s.fc| && t != u && s.fc[t].Some? && s.fc[u].Some?
    ensures s.fc[t] != s.fc[u]
  {
    var p: nat :| Waits(s, p, t);
    var q: nat :| Waits(s, q, u);
    assert MineOk(s, p) && MineOk(s, q);
    assert p < q || q < p;
  }

  lemma {:induction false} PublishFc(s: State, p: nat)
    requires Inv(s) && CanStep(s, p, Go) && s.actors[p].pc.Publish?
    ensures FcOk(DoPublish(s, p)) && LfcOk(DoPublish(s, p))
  {
    var s' := DoPublish(s, p);
    Facts(s, p);
    var t := s.actors[p].tid;
    assert Waits(s', p, t);
    NotOther(s, p);
    assert !OwnerDoubt(s', t);
    forall u: nat | u < |s.fc| ensures SlotOk(s', u) {
      assert SlotOk(s, u);
    }
    forall q: nat | q < |s.actors| && 0 <= s'.actors[q].tid < |s.fc| ensures MineOk(s', q) {
      assert ActorOk(s, q) && MineOk(s, q);
      assert q != p ==> Slot(s.actors[q]) != t;
    }
    forall q: nat | q < |s.actors| && !s'.actors[q].pc.Out? && !Published(s'.actors[q].pc) ensures Unrun(s', q) {
      assert Unrun(s, q);
    }
    forall u: nat | u < |s.fc| && s'.fc[u].Some? ensures exists q :: Waits(s', q, u) {
      if u != t {
        var q: nat :| Waits(s, q, u);
        assert Waits(s', q, u);
      }
    }
  }

  lemma {:induction false} PublishKeeps(s: State, p: nat)
    requires Inv(s) && CanStep(s, p, Go) && s.actors[p].pc.Publish?
    ensures Inv(DoPublish(s, p))
  {
    var s' := DoPublish(s, p);
    Parts(s);
    hide Inv;
    hide ActorsOk;
    hide SlotsOk;
    hide FcOk;
    hide LfcOk;
    hide ReadersOk;
    hide LogOk;
    Knows(s, p);
    PublishFc(s, p);
    LogKeeps(s, s', p);
    ReadersKeep(s, s', p);
    RestKeeps(s, s', p);
  }

  /** The function run is one more, and a new one. */
  lemma {:induction false} ExecLog(s: State, p: nat)
    requires Inv(s) && CanStep(s, p, Go) && s.actors[p].pc.Exec? && s.actors[p].pc.ei < |s.actors[p].pc.elfc|
    requires s.actors[p].pc.elfc[s.actors[p].pc.ei].Some?
    ensures var s', t := DoExec(s, p), s.actors[p].pc.ei;
      && t < |s.fc| && s.fc[t].Some? && s'.executed == s.executed + [s.fc[t].value]
      && (forall x: nat :: Executed(s', x) <==> Executed(s, x) || x == s.fc[t].value)
      && (forall x: nat :: Durable(s, x) ==> Durable(s', x))
      && LogOk(s')
  {
    var s', t := DoExec(s, p), s.actors[p].pc.ei;
    HolderKnows(s, p);
    var r := s.fc[t].value;
    assert SlotOk(s, t);
    forall x: nat
      ensures Executed(s', x) <==> Executed(s, x) || x == r
      ensures Durable(s, x) ==> Durable(s', x)
    {
      assert forall k | 0 <= k < |s.executed| :: s'.executed[k] == s.executed[k];
      assert s'.executed[|s.executed|] == r;
    }
  }

  lemma {:induction false} SlotFact(s: State, t: nat)
    requires Inv(s) && t < |s.fc|
    ensures SlotOk(s, t)
  {
  }

  lemma {:induction false} ExecSlot(s: State, p: nat, u: nat)
    requires Inv(s) && CanStep(s, p, Go) && s.actors[p].pc.Exec? && s.actors[p].pc.ei < |s.actors[p].pc.elfc|
    requires s.actors[p].pc.elfc[s.actors[p].pc.ei].Some? && u < |s.fc|
    ensures SlotOk(DoExec(s, p), u)
  {
    hide Inv;
    hide ReadersOk;
    hide LogOk;
    hide Executed;
    hide Durable;
    HolderKnows(s, p);
    ExecLog(s, p);
    SlotFact(s, u);
    if u != s.actors[p].pc.ei && s.fc[u].Some? { Distinct(s, s.actors[p].pc.ei, u); }
  }

  /** Who has not published is not waiting in any slot. */
  lemma {:induction false} NotWaiting(s: State, q: nat, t: nat)
    requires Inv(s) && q < |s.actors| && !s.actors[q].pc.Out? && !Published(s.actors[q].pc)
    requires t < |s.fc| && s.fc[t].Some?
    ensures s.actors[q].req != s.fc[t].value
  {
    var w: nat :| Waits(s, w, t);
    assert MineOk(s, w);
    assert q < w || w < q;
  }

  lemma {:induction false} ExecFc(s: State, p: nat)
    requires Inv(s) && CanStep(s, p, Go) && s.actors[p].pc.Exec? && s.actors[p].pc.ei < |s.actors[p].pc.elfc|
    requires s.actors[p].pc.elfc[s.actors[p].pc.ei].Some?
    ensures FcOk(DoExec(s, p))
  {
    hide SlotsOk;
    var s' := DoExec(s, p);
    var t := s.actors[p].pc.ei;
    HolderKnows(s, p);
    ExecLog(s, p);
    hide Executed;
    hide Durable;
    forall u: nat | u < |s.fc| ensures SlotOk(s', u) {
      ExecSlot(s, p, u);
    }
    forall q: nat | q < |s.actors| && 0 <= s'.actors[q].tid < |s.fc| ensures MineOk(s', q) {
      assert MineOk(s, q);
    }
    forall q: nat | q < |s.actors| && !s'.actors[q].pc.Out? && !Published(s'.actors[q].pc) ensures Unrun(s', q) {
      NotWaiting(s, q, t);
      assert Unrun(s, q);
    }
    forall u: nat | u < |s.fc| && s'.fc[u].Some? ensures exists q :: Waits(s', q, u) {
      var q: nat :| Waits(s, q, u);
      assert Waits(s', q, u);
    }
  }

  lemma {:induction false} ExecKeeps(s: State, p: nat)
    requires Inv(s) && CanStep(s, p, Go) && s.actors[p].pc.Exec?
    ensures Inv(DoExec(s, p))
  {
    hide Inv;
    var pc := s.actors[p].pc;
    if pc.ei < |pc.elfc| && pc.elfc[pc.ei].Some? {
      ExecOne(s, p);
    } else {
      ExecNone(s, p);
    }
  }

  lemma {:induction false} ExecOne(s: State, p: nat)
    requires Inv(s) && CanStep(s, p, Go) && s.actors[p].pc.Exec? && s.actors[p].pc.ei < |s.actors[p].pc.elfc|
    requires s.actors[p].pc.elfc[s.actors[p].pc.ei].Some?
    ensures Inv(DoExec(s, p))
  {
    hide Inv;
    hide ActorsOk;
    hide SlotsOk;
    hide FcOk;
    hide LogOk;
    hide Executed;
    hide MineOk;
    Knows(s, p);
    HolderKnows(s, p);
    ExecLog(s, p);
    ExecFc(s, p);
    RestKeeps(s, DoExec(s, p), p);
  }

  lemma {:induction false} ExecNone(s: State, p: nat)
    requires Inv(s) && CanStep(s, p, Go) && s.actors[p].pc.Exec?
    requires s.actors[p].pc.ei < |s.actors[p].pc.elfc| ==> s.actors[p].pc.elfc[s.actors[p].pc.ei] == None
    ensures Inv(DoExec(s, p))
  {
    hide Inv;
    hide ActorsOk;
    hide SlotsOk;
    hide FcOk;
    hide LogOk;
    hide Executed;
    hide MineOk;
    Knows(s, p);
    HolderKnows(s, p);
    HolderKeeps(s, DoExec(s, p), p);
  }

  lemma {:induction false} EndTxFc(s: State, p: nat)
    requires Inv(s) && CanStep(s, p, Go) && s.actors[p].pc.EndTx?
    ensures FcOk(DoStep(s, p, Go)) && LogOk(DoStep(s, p, Go))
  {
    hide ActorOk, SlotsOk;
    var s' := DoStep(s, p, Go);
    HolderKnows(s, p);
    assert FcOk(s) && LogOk(s);
    assert s' == Go1(s, p, Clear(0, s.actors[p].pc.tlfc)).(committed := |s.executed|);
    assert forall u: nat :: OwnerDoubt(s', u) == OwnerDoubt(s, u);
    hide Inv, CanStep, DoStep, OwnerDoubt, ReadersOk, LfcOk, Executed;
    EndTxLog(s, s');
    forall u: nat | u < |s.fc| ensures SlotOk(s', u) {
      assert SlotOk(s, u) && OwnerDoubt(s', u) == OwnerDoubt(s, u);
      SameExecuted(s, s');
    }
    forall q: nat | q < |s.actors| && 0 <= s'.actors[q].tid < |s.fc| ensures MineOk(s', q) {
      assert MineOk(s, q);
    }
    forall q: nat | q < |s.actors| && !s'.actors[q].pc.Out? && !Published(s'.actors[q].pc) ensures Unrun(s', q) {
      assert Unrun(s, q);
      SameExecuted(s, s');
    }
    forall u: nat | u < |s.fc| && s'.fc[u].Some? ensures exists q :: Waits(s', q, u) {
      var q: nat :| Waits(s, q, u);
      assert Waits(s', q, u);
    }
  }

  lemma {:induction false} SameExecuted(s: State, s': State)
    requires s'.executed == s.executed
    ensures forall r: nat :: Executed(s', r) == Executed(s, r)
  {
  }

  lemma {:induction false} EndTxLog(s: State, s': State)
    requires LogOk(s) && s'.executed == s.executed && s'.committed == |s.executed|
    requires s'.next == s.next && s'.returned == s.returned
    ensures LogOk(s') && forall x: nat :: Durable(s, x) ==> Durable(s', x)
  {
  }

  lemma {:induction false} EndTxKeeps(s: State, p: nat)
    requires Inv(s) && CanStep(s, p, Go) && s.actors[p].pc.EndTx?
    ensures Inv(DoStep(s, p, Go))
  {
    hide Inv;
    hide ActorsOk;
    hide SlotsOk;
    hide FcOk;
    hide LogOk;
    Knows(s, p);
    HolderKnows(s, p);
    EndTxFc(s, p);
    RestKeeps(s, DoStep(s, p, Go), p);
  }

  /** Clearing slot t, whose function is durable, by the only actor working on it. */
  ghost predicate Cleared(s: State, s': State, p: nat, t: nat) {
    && p < |s.actors| && t < |s.fc| && s.fc[t].Some? && s' == s.(actors := s'.actors, fc := s.fc[t := None])
    && OthersSame(s, s', p) && s'.actors[p] == s.actors[p].(pc := s'.actors[p].pc)
    && Published(s.actors[p].pc) && Published(s'.actors[p].pc)
    && Durable(s, s.fc[t].value)
    && (forall u: nat | u < |s.fc| && u != t :: OwnerDoubt(s', u) == OwnerDoubt(s, u))
  }

  lemma {:induction false} ClearedKeepsFc(s: State, s': State, p: nat, t: nat)
    requires FcOk(s) && Cleared(s, s', p, t)
    ensures FcOk(s')
  {
    SameExecuted(s, s');
    hide OwnerDoubt, Executed;
    forall u: nat | u < |s.fc| ensures SlotOk(s', u) {
      assert SlotOk(s, u);
    }
    forall q: nat | q < |s.actors| && 0 <= s'.actors[q].tid < |s.fc| ensures MineOk(s', q) {
      assert MineOk(s, q);
    }
    forall q: nat | q < |s.actors| && !s'.actors[q].pc.Out? && !Published(s'.actors[q].pc) ensures Unrun(s', q) {
      assert Unrun(s, q);
    }
    forall u: nat | u < |s.fc| && s'.fc[u].Some? ensures exists q :: Waits(s', q, u) {
      var q: nat :| Waits(s, q, u);
      assert Waits(s', q, u);
    }
  }

  lemma {:induction false} ClearFc(s: State, p: nat)
    requires Inv(s) && CanStep(s, p, Go) && s.actors[p].pc.Clear? && s.actors[p].pc.ki < |s.actors[p].pc.klfc|
    requires s.actors[p].pc.klfc[s.actors[p].pc.ki].Some?
    ensures FcOk(DoClear(s, p))
  {
    var s' := DoClear(s, p);
    var t := s.actors[p].pc.ki;
    HolderKnows(s, p);
    assert FcOk(s) && SlotOk(s, t) && OwnerDoubt(s, t) && Durable(s, s.fc[t].value);
    hide Inv, ReadersOk, FcOk, Durable;
    ClearedKeepsFc(s, s', p, t);
  }

  lemma {:induction false} ClearKeeps(s: State, p: nat)
    requires Inv(s) && CanStep(s, p, Go) && s.actors[p].pc.Clear?
    ensures Inv(DoClear(s, p))
  {
    hide Inv;
    var pc := s.actors[p].pc;
    if pc.ki < |pc.klfc| && pc.klfc[pc.ki].Some? {
      ClearOne(s, p);
    } else {
      ClearNone(s, p);
    }
  }

  /** The rest of the invariant when slot ki is cleared. */
  lemma {:induction false} ClearRest(s: State, p: nat)
    requires Inv(s) && CanStep(s, p, Go) && s.actors[p].pc.Clear? && s.actors[p].pc.ki < |s.actors[p].pc.klfc|
    requires s.actors[p].pc.klfc[s.actors[p].pc.ki].Some?
    ensures var s' := DoClear(s, p); ActorOk(s', p) && ReadersOk(s') && LfcOk(s')
  {
    hide Inv, ActorsOk, SlotsOk, FcOk, LogOk, MineOk, Executed, Durable;
    Knows(s, p);
    HolderKnows(s, p);
  }

  lemma {:induction false} ClearLog(s: State, p: nat)
    requires Inv(s) && CanStep(s, p, Go) && s.actors[p].pc.Clear?
    ensures LogOk(DoClear(s, p))
  {
    Parts(s);
    HolderKnows(s, p);
    hide Inv, ActorsOk, SlotsOk, FcOk, ReadersOk, LfcOk;
    LogKeeps(s, DoClear(s, p), p);
  }

  lemma {:induction false} ClearOne(s: State, p: nat)
    requires Inv(s) && CanStep(s, p, Go) && s.actors[p].pc.Clear? && s.actors[p].pc.ki < |s.actors[p].pc.klfc|
    requires s.actors[p].pc.klfc[s.actors[p].pc.ki].Some?
    ensures Inv(DoClear(s, p))
  {
    ClearRest(s, p);
    ClearFc(s, p);
    ClearLog(s, p);
    hide Inv, ActorOk, FcOk, LogOk, ReadersOk, LfcOk;
    RestKeeps(s, DoClear(s, p), p);
  }

  lemma {:induction false} ClearNone(s: State, p: nat)
    requires Inv(s) && CanStep(s, p, Go) && s.actors[p].pc.Clear?
    requires s.actors[p].pc.ki < |s.actors[p].pc.klfc| ==> s.actors[p].pc.klfc[s.actors[p].pc.ki] == None
    ensures Inv(DoClear(s, p))
  {
    hide Inv;
    hide ActorsOk;
    hide SlotsOk;
    hide FcOk;
    hide LogOk;
    hide Executed;
    hide MineOk;
    Knows(s, p);
    HolderKnows(s, p);
    HolderKeeps(s, DoClear(s, p), p);
  }

  lemma {:induction false} CrashKeeps(s: State, keep: nat)
    requires Inv(s) && CanCrash(s, keep)
    ensures Inv(DoCrash(s, keep))
  {
    var s' := DoCrash(s, keep);
    forall x <- s'.returned ensures Durable(s', x) {
      assert Durable(s, x);
    }
  }

  lemma {:induction false} StepKeeps(s: State, p: nat, op: Op)
    requires Inv(s) && CanStep(s, p, op)
    ensures Inv(DoStep(s, p, op))
  {
    hide Inv;
    match s.actors[p].pc
    case Out => if op == Exit { ExitKeeps(s, p); } else { StartKeeps(s, p, op); }
    case RegLoad(_) => RegisterKeeps(s, p, op);
    case RegCas(_) => RegisterKeeps(s, p, op);
    case RegMax(_) => RegisterKeeps(s, p, op);
    case RegMaxCas(_, _) => RegisterKeeps(s, p, op);
    case Publish => PublishKeeps(s, p);
    case TryLoad => TryKeeps(s, p);
    case TryCas => TryKeeps(s, p);
    case CheckMine => CheckMineKeeps(s, p);
    case ScanMax => MaxKeeps(s, p);
    case Scan(_, _, _) => ScanKeeps(s, p);
    case Quit => ReleaseKeeps(s, p);
    case WaitMax(_) => MaxKeeps(s, p);
    case Wait(_, _, _) => WaitKeeps(s, p);
    case Exec(_, _) => ExecKeeps(s, p);
    case EndTx(_) => EndTxKeeps(s, p);
    case Clear(_, _) => ClearKeeps(s, p);
    case Unlock => ReleaseKeeps(s, p);
    case Arrive => ReaderKeeps(s, p);
    case CheckLock => ReaderKeeps(s, p);
    case Depart => ReaderKeeps(s, p);
    case Spin => ReaderKeeps(s, p);
    case Reading => ReaderKeeps(s, p);
  }

  lemma {:induction false} RunKeeps(s: State, acts: seq<Action>)
    requires Inv(s) && Run(s, acts)
    ensures Inv(After(s, acts))
    decreases |acts|
  {
    hide Inv;
    if acts != [] {
      match acts[0] {
        case Step(p, op) => StepKeeps(s, p, op);
        case Crash(keep) => CrashKeeps(s, keep);
      }
      RunKeeps(Apply(s, acts[0]), acts[1..]);
    }
  }
}
