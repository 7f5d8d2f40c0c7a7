/** What holds of every run of Trinity's writers and readers, crashes included. */
module FlatCombiningTheorems {
  import opened FlatCombining
  import opened FlatCombiningInv
  import opened FlatCombiningProof

  ghost predicate Reachable(s: State) {
    exists slots: nat, n: nat, acts: seq<Action> :: Run(Init(slots, n), acts) && After(Init(slots, n), acts) == s
  }

  lemma {:induction false} ReachableInv(s: State)
    requires Reachable(s)
    ensures Inv(s)
  {
    var slots: nat, n: nat, acts: seq<Action> :| Run(Init(slots, n), acts) && After(Init(slots, n), acts) == s;
    InitKeeps(slots, n);
    RunKeeps(Init(slots, n), acts);
  }

  /**
    C-RW-WP: at most one thread holds the lock, and once it has passed waitForReaders no thread
    is inside a read-only transaction, though the scan is not atomic and threads register meanwhile.
  */
  lemma {:induction false} Exclusion(s: State, p: nat, q: nat)
    requires Reachable(s) && p < |s.actors| && q < |s.actors| && p != q && Mutating(s.actors[p].pc)
    ensures !Holding(s.actors[q].pc) && !s.actors[q].pc.Reading?
  {
    ReachableInv(s);
    Parts(s);
    assert ActorOk(s, p) && ActorOk(s, q);
  }

  /** A reader sees the state of committed transactions only, and the same one until it leaves. */
  lemma {:induction false} ReaderSnapshot(s: State, q: nat, p: nat, op: Op)
    requires Reachable(s) && q < |s.actors| && s.actors[q].pc.Reading? && CanStep(s, p, op)
    ensures s.committed == |s.executed|
    ensures DoStep(s, p, op).executed == s.executed
  {
    ReachableInv(s);
    Parts(s);
    assert ActorOk(s, q) && ActorOk(s, p);
  }

  /** Registered threads have different slots, all below maxTid. */
  lemma {:induction false} TidsUnique(s: State, p: nat, q: nat)
    requires Reachable(s) && p < q < |s.actors| && s.actors[p].tid >= 0 && s.actors[q].tid >= 0
    ensures s.actors[p].tid != s.actors[q].tid && s.actors[p].tid < s.maxTid && s.actors[q].tid < s.maxTid
  {
    ReachableInv(s);
    Parts(s);
    assert ActorOk(s, p) && ActorOk(s, q);
  }

  /** No function runs twice. */
  lemma {:induction false} AtMostOnce(s: State, i: nat, j: nat)
    requires Reachable(s) && i < j < |s.executed|
    ensures s.executed[i] != s.executed[j]
  {
    ReachableInv(s);
    Parts(s);
  }

  /** When the publishing call returns, its function has run, and what it did is durable. */
  lemma {:induction false} ReturnsDurable(s: State, p: nat, op: Op, r: nat)
    requires Reachable(s) && CanStep(s, p, op)
    requires r in DoStep(s, p, op).returned
    ensures Durable(DoStep(s, p, op), r)
  {
    ReachableInv(s);
    StepKeeps(s, p, op);
    Parts(DoStep(s, p, op));
  }

  /** The call of actor p ends: its program counter is back outside. */
  predicate CallEnds(s: State, s': State, p: nat) {
    p < |s.actors| == |s'.actors| && !s.actors[p].pc.Out? && s'.actors[p].pc.Out?
  }

  /** The only places a call ends at: its slot found empty, the lock given up, or reading done. */
  predicate Leaving(pc: PC) { pc.CheckMine? || pc.Quit? || pc.Unlock? || pc.Reading? }

  lemma {:induction false} InsideStep(s: State, p: nat, op: Op)
    requires CanStep(s, p, op) && !Leaving(s.actors[p].pc) && Holding(s.actors[p].pc)
    ensures var s' := DoStep(s, p, op); s'.returned == s.returned && !CallEnds(s, s', p) && OthersSame(s, s', p)
  {
  }

  lemma {:induction false} OutsideStep(s: State, p: nat, op: Op)
    requires CanStep(s, p, op) && !Leaving(s.actors[p].pc) && !Holding(s.actors[p].pc)
    ensures var s' := DoStep(s, p, op); s'.returned == s.returned && !CallEnds(s, s', p) && OthersSame(s, s', p)
  {
  }

  lemma {:induction false} LeavingStep(s: State, p: nat, op: Op)
    requires CanStep(s, p, op) && Leaving(s.actors[p].pc)
    ensures var s' := DoStep(s, p, op);
      && OthersSame(s, s', p)
      && s'.returned == s.returned + (if s.actors[p].write && CallEnds(s, s', p) then {s.actors[p].req} else {})
  {
  }

  /** `returned` has the writes whose calls have ended, and a call ends by a step of its own only. */
  lemma {:induction false} ReturnedIsEnded(s: State, p: nat, op: Op)
    requires CanStep(s, p, op)
    ensures var s' := DoStep(s, p, op);
      && s'.returned == s.returned + (if s.actors[p].write && CallEnds(s, s', p) then {s.actors[p].req} else {})
      && forall q: nat | q < |s.actors| && CallEnds(s, s', q) :: q == p
  {
    hide DoStep, CallEnds;
    if Leaving(s.actors[p].pc) {
      LeavingStep(s, p, op);
    } else if Holding(s.actors[p].pc) {
      InsideStep(s, p, op);
    } else {
      OutsideStep(s, p, op);
    }
    OnlyOwn(s, DoStep(s, p, op), p);
  }

  lemma {:induction false} OnlyOwn(s: State, s': State, p: nat)
    requires OthersSame(s, s', p)
    ensures forall q: nat | q < |s.actors| && CallEnds(s, s', q) :: q == p
  {
  }

  /** No call ends early: a write only once its function has run durably, a read only after reading. */
  lemma {:induction false} EndsDone(s: State, p: nat, op: Op)
    requires Reachable(s) && CanStep(s, p, op) && CallEnds(s, DoStep(s, p, op), p)
    ensures var s' := DoStep(s, p, op);
      if s.actors[p].write then s.actors[p].req in s'.returned && Durable(s', s.actors[p].req)
      else s.actors[p].pc.Reading?
  {
    ReturnedIsEnded(s, p, op);
    if s.actors[p].write {
      ReturnsDurable(s, p, op, s.actors[p].req);
    } else {
      ReachableInv(s);
      Parts(s);
      assert ActorOk(s, p);
      if !Leaving(s.actors[p].pc) {
        if Holding(s.actors[p].pc) { InsideStep(s, p, op); } else { OutsideStep(s, p, op); }
      }
    }
  }

  /** And stays so: whatever happens later, crashes included, it ran before and runs no more. */
  lemma {:induction false} ReturnedForever(s: State, acts: seq<Action>, r: nat)
    requires Reachable(s) && r in s.returned && Run(s, acts)
    ensures exists k :: 0 <= k < s.committed <= |s.executed| && s.executed[k] == r
    ensures s.executed[..s.committed] <= After(s, acts).executed && s.committed <= After(s, acts).committed
    ensures forall i | s.committed <= i < |After(s, acts).executed| :: After(s, acts).executed[i] != r
    decreases |acts|
  {
    ReachableInv(s);
    Parts(s);
    assert Durable(s, r);
    CommittedStays(s, acts);
    RunKeeps(s, acts);
    var s' := After(s, acts);
    Parts(s');
    var k :| 0 <= k < s.committed && s.executed[k] == r;
    assert s'.executed[k] == s.executed[..s.committed][k];
  }

  lemma {:induction false} CommittedStays(s: State, acts: seq<Action>)
    requires Inv(s) && Run(s, acts)
    ensures s.committed <= |s.executed| && s.committed <= After(s, acts).committed <= |After(s, acts).executed|
    ensures s.executed[..s.committed] <= After(s, acts).executed
    decreases |acts|
  {
    Parts(s);
    if acts != [] {
      var m := Apply(s, acts[0]);
      match acts[0] {
        case Step(p, op) => StepKeeps(s, p, op);
        case Crash(keep) => CrashKeeps(s, keep);
      }
      StepCommitted(s, acts[0]);
      CommittedStays(m, acts[1..]);
      assert s.executed[..s.committed] == m.executed[..s.committed];
      assert m.executed[..s.committed] == m.executed[..m.committed][..s.committed];
    }
  }

  lemma {:induction false} StepCommitted(s: State, a: Action)
    requires Inv(s) && Enabled(s, a)
    ensures s.committed <= Apply(s, a).committed && s.committed <= |s.executed|
    ensures s.executed[..s.committed] <= Apply(s, a).executed
  {
    CommittedWithin(s);
    hide Inv;
    match a
    case Step(p, op) =>
      if Holding(s.actors[p].pc) { HolderCommitted(s, p, op); } else { OtherCommitted(s, p, op); }
    case Crash(_) =>
  }

  lemma {:induction false} HolderCommitted(s: State, p: nat, op: Op)
    requires s.committed <= |s.executed| && CanStep(s, p, op) && Holding(s.actors[p].pc)
    ensures s.committed <= DoStep(s, p, op).committed && s.executed[..s.committed] <= DoStep(s, p, op).executed
  {
  }

  lemma {:induction false} OtherCommitted(s: State, p: nat, op: Op)
    requires s.committed <= |s.executed| && CanStep(s, p, op) && !Holding(s.actors[p].pc)
    ensures s.committed <= DoStep(s, p, op).committed && s.executed[..s.committed] <= DoStep(s, p, op).executed
  {
  }

  lemma {:induction false} CommittedWithin(s: State)
    requires Inv(s)
    ensures s.committed <= |s.executed|
  {
    Parts(s);
  }

  /** A batch is all or nothing: a crash keeps what was committed or also the whole running batch. */
  lemma {:induction false} CrashKeepsBatches(s: State, keep: nat)
    requires Reachable(s) && CanCrash(s, keep)
    ensures var s' := DoCrash(s, keep);
      && s'.executed == s.executed[..keep] && s'.committed == keep >= s.committed
      && (forall r <- s.returned :: Durable(s', r))
      && (keep > s.committed ==> 0 <= s.owner < |s.actors| && s.actors[s.owner].pc.EndTx?)
  {
    ReachableInv(s);
    CrashKeeps(s, keep);
    Parts(s);
    Parts(DoCrash(s, keep));
    if keep > s.committed {
      var p :| 0 <= p < |s.actors| && s.actors[p].pc.EndTx?;
      assert ActorOk(s, p);
    }
  }
}
