/**
  What holds of every run of Trinity's writers and readers over persistent memory: the cells
  are what the functions executed so far leave when they run alone one after the other, a
  crash loses none that has returned, and readers see such contents only.
*/
module TrinityFCTheorems {
  import opened Persistence
  import opened TxRuns
  import opened Trinity
  import opened TrinityFC
  import opened TrinityFCInv
  import opened TrinityFCProof
  import opened TrinityFCCrash
  import F = FlatCombining
  import FI = FlatCombiningInv
  import FT = FlatCombiningTheorems

  ghost predicate Reachable(s: State) {
    exists cells: nat, slots: nat, n: nat, code: nat -> Code, acts: seq<Action> ::
      Run(Init(cells, slots, n, code), acts) && After(Init(cells, slots, n, code), acts) == s
  }

  lemma {:induction false} ReachableInv(s: State)
    requires Reachable(s)
    ensures Inv(s)
  {
    var cells: nat, slots: nat, n: nat, code: nat -> Code, acts: seq<Action> :|
      Run(Init(cells, slots, n, code), acts) && After(Init(cells, slots, n, code), acts) == s;
    hide Inv, Init, Run, After;
    TrinityFCInv.InitKeeps(cells, slots, n, code);
    TrinityFCCrash.RunKeeps(Init(cells, slots, n, code), acts);
  }

  // ---------- the functions ----------

  lemma {:induction false} ReturnedIsLast(c: Code, v: seq<Val>, j: nat, k: nat)
    requires j <= k && c(AfterCalls(c, v, j).outs).Return?
    ensures AfterCalls(c, v, k) == AfterCalls(c, v, j)
  {
    if j < k {
      ReturnedIsLast(c, v, j, k - 1);
    }
  }

  lemma {:induction false} EndsOnce(c: Code, v: seq<Val>, x: seq<Val>, y: seq<Val>)
    requires Ends(c, v, x) && Ends(c, v, y)
    ensures x == y
  {
    var j: nat :| c(AfterCalls(c, v, j).outs).Return? && AfterCalls(c, v, j).cells == x;
    var k: nat :| c(AfterCalls(c, v, k).outs).Return? && AfterCalls(c, v, k).cells == y;
    if j <= k { ReturnedIsLast(c, v, j, k); } else { ReturnedIsLast(c, v, k, j); }
  }

  /** The functions that ran, in their order, determine the contents. */
  lemma {:induction false} RanOnce(code: nat -> Code, rs: seq<nat>, v: seq<Val>, x: seq<Val>, y: seq<Val>)
    requires Ran(code, rs, v, x) && Ran(code, rs, v, y)
    ensures x == y
    decreases |rs|
  {
    if rs != [] {
      var before := rs[..|rs| - 1];
      var t :| EndsLast(code, rs, t, x) && Ran(code, before, v, t);
      var u :| EndsLast(code, rs, u, y) && Ran(code, before, v, u);
      RanOnce(code, before, v, t, u);
      EndsOnce(code(rs[|rs| - 1]), t, x, y);
    }
  }

  // ---------- refinement ----------

  /** Each access is one of the machine without memory, or invisible there. */
  lemma {:induction false} ProjectStep(s: State, act: Action) returns (facts: seq<F.Action>)
    requires Inv(s) && Enabled(s, act)
    ensures F.Run(s.fc, facts) && F.After(s.fc, facts) == Apply(s, act).fc
  {
    facts := [];
    match act
    case Step(p, op) =>
      facts := [F.Action.Step(p, op)];
      One(s.fc, facts[0]);
    case Access(w) =>
      if Apply(s, act).fc != s.fc {
        Moving(s, w);
        facts := [F.Action.Step(w, F.Go)];
        One(s.fc, facts[0]);
      }
    case Load(_, _) =>
    case Crash(img) =>
      CrashFinds(s, img);
      facts := [F.Action.Crash(Kept(s, img))];
      One(s.fc, facts[0]);
    case Recover =>
  }

  lemma {:induction false} One(fc: F.State, act: F.Action)
    requires F.Enabled(fc, act)
    ensures F.Run(fc, [act]) && F.After(fc, [act]) == F.Apply(fc, act)
  {
    hide F.Enabled, F.Apply;
    assert [act][1..] == [];
  }

  lemma {:induction false} Moving(s: State, w: nat)
    requires CanWork(s, w) && DoWork(s, w).fc != s.fc
    ensures F.CanStep(s.fc, w, F.Go) && DoWork(s, w).fc == F.DoStep(s.fc, w, F.Go)
  {
    hide F.CanStep, F.DoStep;
  }

  lemma {:induction false} Joined(fc: F.State, a: seq<F.Action>, b: seq<F.Action>)
    requires F.Run(fc, a) && F.Run(F.After(fc, a), b)
    ensures F.Run(fc, a + b) && F.After(fc, a + b) == F.After(F.After(fc, a), b)
    decreases |a|
  {
    hide F.Enabled, F.Apply;
    if a == [] {
      assert a + b == b;
    } else {
      Joined(F.Apply(fc, a[0]), a[1..], b);
      assert (a + b)[1..] == a[1..] + b;
    }
  }

  /**
    Every run over memory is a run of the machine without memory, in which a function runs in one
    step, endTx is one step and a crash keeps whole batches; so all that holds of those holds here.
  */
  lemma {:induction false} Projects(s: State, acts: seq<Action>) returns (facts: seq<F.Action>)
    requires Inv(s) && Run(s, acts)
    ensures F.Run(s.fc, facts) && F.After(s.fc, facts) == After(s, acts).fc
    decreases |acts|
  {
    hide Inv, Enabled, Apply, F.Enabled, F.Apply;
    facts := [];
    if acts != [] {
      var m := Apply(s, acts[0]);
      ActionKeeps(s, acts[0]);
      var a := ProjectStep(s, acts[0]);
      var b := Projects(m, acts[1..]);
      Joined(s.fc, a, b);
      facts := a + b;
    }
  }

  lemma {:induction false} ReachableProjects(s: State)
    requires Reachable(s)
    ensures FT.Reachable(s.fc)
  {
    var cells: nat, slots: nat, n: nat, code: nat -> Code, acts: seq<Action> :|
      Run(Init(cells, slots, n, code), acts) && After(Init(cells, slots, n, code), acts) == s;
    assert Init(cells, slots, n, code).fc == F.Init(slots, n);
    hide Inv, Init, Run, After, F.Init, F.Run, F.After;
    TrinityFCInv.InitKeeps(cells, slots, n, code);
    var facts := Projects(Init(cells, slots, n, code), acts);
  }

  // ---------- the contents of memory ----------

  /** Nobody is between waitForReaders and the end of endTx, and recovery is over. */
  predicate Quiet(s: State) {
    s.mode.Running? && forall p: nat | p < |s.fc.actors| :: !FI.Mutating(s.fc.actors[p].pc)
  }

  /** Then all functions that have run are committed, and the cells are what they leave. */
  lemma {:induction false} MemoryIsExecuted(s: State)
    requires Reachable(s) && Quiet(s)
    ensures s.fc.committed == |s.fc.executed|
    ensures MemOk(s.mem) && Ran(s.code, s.fc.executed, Zeros(|s.mem.cells|), Mains(s.mem))
  {
    ReachableInv(s);
    hide FI.Inv, Ran;
    assert QuietOk(s);
  }

  /** What a reader has loaded is what the functions leave that had committed when it came in. */
  lemma {:induction false} ReaderSees(s: State, q: nat)
    requires Reachable(s) && s.mode.Running? && q < |s.fc.actors| && s.fc.actors[q].pc.Reading?
    ensures Quiet(s) && q < |s.loads| && MemOk(s.mem)
    ensures forall i | 0 <= i < |s.loads[q]| ::
      s.loads[q][i].0 < |s.mem.cells| && s.loads[q][i].1 == Mains(s.mem)[s.loads[q][i].0]
  {
    ReachableInv(s);
    Knows(s.fc);
    hide FI.Inv, Ran;
    assert QuietOk(s);
  }

  /** And these stay the same until it leaves, whatever the others do. */
  lemma {:induction false} ReaderStays(s: State, q: nat, act: Action)
    requires Reachable(s) && s.mode.Running? && q < |s.fc.actors| && s.fc.actors[q].pc.Reading?
    requires Enabled(s, act) && !act.Crash?
    ensures var s' := Apply(s, act); s'.fc.executed == s.fc.executed && s'.mem == s.mem
  {
    ReachableInv(s);
    Knows(s.fc);
    hide FI.Inv, Ran, ContentsOk, LoadsOk;
    if act.Access? {
      InMemoryMutates(s.fc.actors[act.w]);
    } else if act.Step? {
      StepAside(s.fc, act.p, act.op);
    }
  }

  // ---------- crashes ----------

  /** Steps of recover() and crashes of it, until it is done. */
  ghost predicate RecoveryRun(s: State, acts: seq<Action>)
    decreases |acts|
  {
    acts == [] ||
    (!s.mode.Running? && (acts[0].Recover? || acts[0].Crash?) && Enabled(s, acts[0]) && RecoveryRun(Apply(s, acts[0]), acts[1..]))
  }

  lemma {:induction false} RecoveryRunIsRun(s: State, acts: seq<Action>)
    requires RecoveryRun(s, acts)
    ensures Run(s, acts)
    decreases |acts|
  {
    hide Enabled, Apply;
    if acts != [] {
      RecoveryRunIsRun(Apply(s, acts[0]), acts[1..]);
    }
  }

  /** A crash of recovery finds the same contents again. */
  lemma {:induction false} ScanStays(s: State, act: Action)
    requires Inv(s) && !s.mode.Running? && Enabled(s, act) && (act.Recover? || act.Crash?)
    ensures var s' := Apply(s, act);
      && s'.fc.executed == s.fc.executed && s'.code == s.code && s'.base == s.base
      && (s'.mode.Running? ==> MemOk(s'.mem) && Mains(s'.mem) == s'.base && AllSettled(s'.mem))
  {
    hide FI.Inv, Ran, WorkOk, LoadsOk;
    assert ScanOk(s);
    if act.Crash? {
      var p := Cur(s.mem.pseq);
      TxIsSafe(s.mem, p, s.base, map[p := s.base]);
      assert Kept(s, act.img) == |s.fc.executed|;
      assert s.fc.executed[..|s.fc.executed|] == s.fc.executed;
    } else if s.mode.Scan? && s.mode.i >= |s.mem.cells| {
      RecoverEnds(s);
    }
  }

  lemma {:induction false} RecoveryOutcome(s: State, acts: seq<Action>)
    requires Inv(s) && !s.mode.Running? && RecoveryRun(s, acts) && Run(s, acts)
    ensures var r := After(s, acts);
      && r.fc.executed == s.fc.executed && r.code == s.code && r.base == s.base
      && (r.mode.Running? ==> MemOk(r.mem) && Mains(r.mem) == s.base && AllSettled(r.mem))
    decreases |acts|
  {
    hide Inv, Enabled, Apply, AllSettled;
    if acts != [] {
      var m := Apply(s, acts[0]);
      ScanStays(s, acts[0]);
      ActionKeeps(s, acts[0]);
      if m.mode.Running? {
        assert acts[1..] == [];
      } else {
        RecoveryOutcome(m, acts[1..]);
      }
    }
  }

  /**
    Durable linearizability: whatever image the crash leaves and however often recovery is cut
    off, the cells recovered are what the first k functions leave, where k is a number at which a
    batch ended and includes every function whose call had returned.
  */
  lemma {:induction false} CrashRecovers(s: State, img: Image, acts: seq<Action>)
    requires Reachable(s) && CanCrash(s, img)
    requires RecoveryRun(DoCrash(s, img), acts) && Run(DoCrash(s, img), acts)
    requires After(DoCrash(s, img), acts).mode.Running?
    ensures var r, k := After(DoCrash(s, img), acts), Kept(s, img);
      && 0 < img.pseq <= |s.ends| && k == s.ends[img.pseq - 1]
      && (k == s.fc.committed
          || (k == |s.fc.executed| && exists p :: 0 <= p < |s.fc.actors| && s.fc.actors[p].pc.EndTx?))
      && (forall x <- s.fc.returned :: exists i :: 0 <= i < k && s.fc.executed[i] == x)
      && r.fc.executed == s.fc.executed[..k] && MemOk(r.mem) && AllSettled(r.mem) && |r.mem.cells| == |s.mem.cells|
      && Ran(s.code, s.fc.executed[..k], Zeros(|s.mem.cells|), Mains(r.mem))
  {
    ReachableInv(s);
    CrashFinds(s, img);
    CrashKeeps(s, img);
    ReturnedKept(s, img);
    var c := DoCrash(s, img);
    assert c.fc.executed == s.fc.executed[..Kept(s, img)] && c.base == Recovered(img) && !c.mode.Running?;
    hide Inv, AllSettled, Ran, Run, After, RecoveryRun, Recovered;
    RecoveryOutcome(c, acts);
  }

  lemma {:induction false} ReturnedKept(s: State, img: Image)
    requires Inv(s) && CanCrash(s, img) && Found(s, img)
    ensures s.fc.committed <= Kept(s, img)
    ensures forall x <- s.fc.returned :: exists i :: 0 <= i < Kept(s, img) && s.fc.executed[i] == x
  {
    assert FI.LogOk(s.fc);
    hide FI.Inv, Sizes, ContentsOk, PhaseOk, Ran;
    forall x <- s.fc.returned ensures exists i :: 0 <= i < Kept(s, img) && s.fc.executed[i] == x {
      assert FI.Durable(s.fc, x);
    }
  }

  // ---------- calls that have returned ----------

  /** Over the cells, too, no call ends before it is done, except in a crash. */
  lemma {:induction false} EndsDone(s: State, act: Action, p: nat)
    requires Reachable(s) && Enabled(s, act) && !act.Crash? && FT.CallEnds(s.fc, Apply(s, act).fc, p)
    ensures var s', a := Apply(s, act), s.fc.actors[p];
      if a.write then
        a.req in s'.fc.returned && exists i :: 0 <= i < s'.fc.committed <= |s'.fc.executed| && s'.fc.executed[i] == a.req
      else a.pc.Reading?
  {
    ReachableProjects(s);
    hide Reachable, FT.Reachable, F.DoStep, F.CanStep;
    match act
    case Step(q, op) =>
      FT.ReturnedIsEnded(s.fc, q, op);
      FT.EndsDone(s.fc, p, op);
    case Access(w) =>
      Moving(s, w);
      FT.ReturnedIsEnded(s.fc, w, F.Go);
      FT.EndsDone(s.fc, p, F.Go);
    case Load(_, _) =>
    case Recover =>
  }

  /**
    A function whose call has returned is, in every later quiet state, crashes or not, among those
    whose effects memory holds, and every function called afterwards comes after it in the order.
  */
  lemma {:induction false} ReturnedStays(s: State, r: nat, acts: seq<Action>) returns (i: nat)
    requires Reachable(s) && r in s.fc.returned && Run(s, acts) && Quiet(After(s, acts))
    ensures var t := After(s, acts);
      && MemOk(t.mem) && Ran(t.code, t.fc.executed, Zeros(|t.mem.cells|), Mains(t.mem))
      && i < |t.fc.executed| && t.fc.executed[i] == r
      && (forall j | 0 <= j < |t.fc.executed| && t.fc.executed[j] == r :: j == i)
      && (forall j | 0 <= j < |t.fc.executed| && t.fc.executed[j] >= s.fc.next :: i < j)
  {
    var t := After(s, acts);
    ReachableInv(s);
    TrinityFCCrash.RunKeeps(s, acts);
    var facts := Projects(s, acts);
    ReachableProjects(s);
    FT.ReturnedForever(s.fc, facts, r);
    i :| 0 <= i < s.fc.committed <= |s.fc.executed| && s.fc.executed[i] == r;
    QuietMemory(t);
    OrderKept(s.fc, t.fc, i);
    hide Inv, Run, After, F.Run, F.After, FT.Reachable, Reachable, Ran, Quiet;
    assert t.fc.executed[i] == s.fc.executed[..s.fc.committed][i];
  }

  lemma {:induction false} QuietMemory(s: State)
    requires Inv(s) && Quiet(s)
    ensures MemOk(s.mem) && Ran(s.code, s.fc.executed, Zeros(|s.mem.cells|), Mains(s.mem))
  {
    hide FI.Inv, Ran;
    assert QuietOk(s);
  }

  lemma {:induction false} OrderKept(fc: F.State, fc': F.State, i: nat)
    requires FI.Inv(fc) && FI.Inv(fc') && i < fc.committed <= |fc.executed|
    requires fc.executed[..fc.committed] <= fc'.executed
    ensures forall j | 0 <= j < |fc'.executed| && fc'.executed[j] == fc'.executed[i] :: j == i
    ensures forall j | 0 <= j < |fc'.executed| && fc'.executed[j] >= fc.next :: i < j
  {
    assert FI.LogOk(fc) && FI.LogOk(fc');
    hide FI.Inv;
    forall j | 0 <= j < fc.committed ensures fc'.executed[j] < fc.next {
      assert fc'.executed[j] == fc.executed[..fc.committed][j];
    }
  }
}
