/**
  Commit clocks are not an order of serialization: a run of two transactions in which the first
  to validate takes the larger clock although the other overwrites the cell it has read.
*/
module Tl2Inversion {
  import opened Tl2Model
  import opened Tl2Inv
  import opened Tl2Theorems
  import opened Tl2Order
  import Tl2Crash
  import Tl2Steps

  // ---------- runs, one after the other ----------

  lemma {:induction false} RunConcat(s: State, a: seq<Action>, b: seq<Action>)
    requires Run(s, a) && Run(After(s, a), b)
    ensures Run(s, a + b) && After(s, a + b) == After(After(s, a), b)
    decreases |a|
  {
    hide Enabled, Apply;
    if a == [] {
      assert a + b == b;
    } else {
      RunConcat(Apply(s, a[0]), a[1..], b);
      assert (a + b)[1..] == a[1..] + b;
    }
  }

  lemma {:induction false} RunOne(s: State, act: Action)
    requires Enabled(s, act)
    ensures Run(s, [act]) && After(s, [act]) == Apply(s, act)
  {
    assert [act][1..] == [];
  }

  /** s after the actions is r, and the invariant still holds. */
  ghost predicate Gets(s: State, acts: seq<Action>, r: State) {
    Run(s, acts) && After(s, acts) == r && InvRunning(r)
  }

  lemma {:induction false} GetsConcat(s: State, a: seq<Action>, m: State, b: seq<Action>, r: State)
    requires Gets(s, a, m) && Gets(m, b, r)
    ensures Gets(s, a + b, r)
  {
    RunConcat(s, a, b);
  }

  /** What the code of thread t may do next, beyond what the invariant guarantees. */
  predicate Offered(s: State, t: nat, op: Op)
    requires t < |s.threads|
  {
    match s.threads[t].pc
    case Idle => op.Begin?
    case Active => op.End? || (op.Load? && op.a < |s.cells|) || (op.Store? && op.sta < |s.cells| && s.threads[t].update)
    case _ => op.Go?
  }

  lemma {:induction false} Steps(s: State, t: nat, op: Op)
    requires InvRunning(s) && t < |s.threads| && Offered(s, t, op)
    ensures CanStep(s, t, op) && Gets(s, [Step(t, op)], DoStep(s, t, op))
  {
    Tl2Steps.ThreadFactsFromInv(s, t);
    hide DoStep;
    StepKeeps(s, t, op);
    RunOne(s, Step(t, op));
  }

  // ---------- the calls of a transaction, run without interruption ----------

  /** Only thread t has moved; all cells but those of `but` have their contents. */
  ghost predicate Alone(s: State, r: State, t: nat, but: set<Addr>) {
    && t < |s.threads| == |r.threads| && |r.cells| == |s.cells|
    && (forall u | 0 <= u < |s.threads| && u != t :: r.threads[u] == s.threads[u])
    && (forall a: nat | a < |s.cells| :: |s.cells[a].hist| > 0 && |r.cells[a].hist| > 0)
    && (forall a: nat | a < |s.cells| && a !in but :: Cur(r.cells[a]) == Cur(s.cells[a]))
  }

  /** The cell is unlocked and not newer than rClock. */
  predicate Free(s: State, a: Addr, rClock: nat) {
    a < |s.cells| && |s.cells[a].hist| > 0 && !Cur(s.cells[a]).lseq.locked && Cur(s.cells[a]).lseq.sq <= rClock
  }

  function BeginActs(t: nat): seq<Action> { [Step(t, Begin(true))] + [Step(t, Go)] }

  lemma {:induction false} Begins(s: State, t: nat) returns (r: State)
    requires InvRunning(s) && t < |s.threads| && s.threads[t].pc.Idle?
    ensures Gets(s, BeginActs(t), r) && Alone(s, r, t, {}) && r.txs == s.txs && r.gClock == s.gClock
    ensures r.threads[t] == Thread(Active, true, s.gClock, [], [], 0, map[], |s.txs|, 0, map[], map[])
  {
    hide InvRunning, Run, After;
    Steps(s, t, Begin(true));
    var m := DoBegin(s, t, true);
    Steps(m, t, Go);
    r := DoBeginSeq(m, t);
    GetsConcat(s, [Step(t, Begin(true))], m, [Step(t, Go)], r);
  }

  function LoadActs(t: nat, a: Addr): seq<Action> { [Step(t, Load(a))] + [Step(t, Go)] }

  lemma {:induction false} Loads(s: State, t: nat, a: Addr) returns (r: State)
    requires InvRunning(s) && t < |s.threads| && s.threads[t].pc.Active? && s.threads[t].update
    requires Free(s, a, s.threads[t].rClock)
    ensures Gets(s, LoadActs(t, a), r) && Alone(s, r, t, {}) && r.txs == s.txs && r.gClock == s.gClock
    ensures var th := s.threads[t];
      r.threads[t] == th.(readSet := th.readSet + [a], rd := th.rd[a := Cur(s.cells[a]).main])
  {
    hide InvRunning, Run, After;
    Steps(s, t, Load(a));
    var m := DoLoad(s, t, a);
    Steps(m, t, Go);
    r := DoLoadSeq(m, t);
    GetsConcat(s, [Step(t, Load(a))], m, [Step(t, Go)], r);
  }

  function StoreActs(t: nat, a: Addr, v: Val): seq<Action> { [Step(t, Store(a, v))] + [Step(t, Go)] + [Step(t, Go)] }

  lemma {:induction false} Stores(s: State, t: nat, a: Addr, v: Val) returns (r: State)
    requires InvRunning(s) && t < |s.threads| && s.threads[t].pc.Active? && s.threads[t].update
    requires Free(s, a, s.threads[t].rClock)
    ensures Gets(s, StoreActs(t, a, v), r) && Alone(s, r, t, {a}) && r.txs == s.txs && r.gClock == s.gClock
    ensures var th := s.threads[t];
      r.threads[t] == th.(marks := map[], log := th.log + [a], wr := th.wr[a := v])
  {
    hide InvRunning, Run, After;
    Steps(s, t, Store(a, v));
    var m := DoStore(s, t, a, v);
    Steps(m, t, Go);
    var n := DoStoreCas(m, t);
    GetsConcat(s, [Step(t, Store(a, v))], m, [Step(t, Go)], n);
    Steps(n, t, Go);
    r := DoStoreMain(n, t);
    GetsConcat(s, [Step(t, Store(a, v))] + [Step(t, Go)], n, [Step(t, Go)], r);
  }

  lemma {:induction false} Ends(s: State, t: nat) returns (r: State)
    requires InvRunning(s) && t < |s.threads| && s.threads[t].pc.Active? && s.threads[t].log != []
    ensures Gets(s, [Step(t, End)], r) && Alone(s, r, t, {}) && r.gClock == s.gClock
    ensures var th := s.threads[t];
      && r.threads[t] == th.(pc := Validate(0), rec := |s.txs|)
      && r.txs == s.txs + [Tx(t, th.rClock, th.rd, th.wr, Pending)]
  {
    hide InvRunning, Run, After;
    Steps(s, t, End);
    r := DoEnd(s, t);
  }

  lemma {:induction false} Passes(s: State, t: nat) returns (r: State)
    requires InvRunning(s) && t < |s.threads| && s.threads[t].pc.Validate? && s.threads[t].pc.vi < |s.threads[t].readSet|
    requires Free(s, s.threads[t].readSet[s.threads[t].pc.vi], s.threads[t].rClock)
    ensures Gets(s, [Step(t, Go)], r) && Alone(s, r, t, {}) && r.txs == s.txs && r.gClock == s.gClock
    ensures r.threads[t] == s.threads[t].(pc := Validate(s.threads[t].pc.vi + 1))
  {
    hide InvRunning, Run, After;
    Steps(s, t, Go);
    r := DoValidate(s, t);
  }

  lemma {:induction false} Flushes(s: State, t: nat) returns (r: State)
    requires InvRunning(s) && t < |s.threads| && s.threads[t].pc.Validate? && s.threads[t].pc.vi >= |s.threads[t].readSet|
    ensures Gets(s, [Step(t, Go)], r) && Alone(s, r, t, {}) && r.txs == s.txs && r.gClock == s.gClock
    ensures r.threads[t] == s.threads[t].(pc := CommitFaa, marks := r.threads[t].marks)
  {
    hide InvRunning, Run, After;
    Steps(s, t, Go);
    r := DoFlush(s, t);
  }

  function CommitActs(t: nat): seq<Action> { [Step(t, Go)] + [Step(t, Go)] + [Step(t, Go)] }

  lemma {:induction false} Commits(s: State, t: nat) returns (r: State)
    requires InvRunning(s) && t < |s.threads| && s.threads[t].pc.CommitFaa?
    ensures Gets(s, CommitActs(t), r) && Alone(s, r, t, {}) && r.gClock == s.gClock + 1
    ensures var rec := s.threads[t].rec;
      rec < |s.txs| && r.txs == s.txs[rec := s.txs[rec].(st := Durable(s.gClock + 1))]
  {
    hide InvRunning, Run, After;
    Steps(s, t, Go);
    var m := DoCommitFaa(s, t);
    Steps(m, t, Go);
    var n := DoPutNext(m, t, CommitSync);
    GetsConcat(s, [Step(t, Go)], m, [Step(t, Go)], n);
    Steps(n, t, Go);
    r := DoCommitSync(n, t);
    GetsConcat(s, [Step(t, Go)] + [Step(t, Go)], n, [Step(t, Go)], r);
  }

  // ---------- the run ----------

  /** Thread 0 reads cell 1, stores to cell 0 and passes validation. */
  function FirstActs(): seq<Action> {
    BeginActs(0) + LoadActs(0, 1) + StoreActs(0, 0, 1) + [Step(0, End)] + [Step(0, Go)] + [Step(0, Go)]
  }

  /** Thread 1 stores to cell 1 and commits. */
  function SecondActs(): seq<Action> { BeginActs(1) + StoreActs(1, 1, 5) + [Step(1, End)] + [Step(1, Go)] + CommitActs(1) }

  lemma {:induction false} FirstValidates(s: State) returns (r: State)
    requires InvRunning(s) && |s.threads| == 2 && |s.cells| == 2 && s.threads[0].pc.Idle? && s.txs == []
    requires Free(s, 0, s.gClock) && Free(s, 1, s.gClock)
    ensures Gets(s, FirstActs(), r) && Alone(s, r, 0, {0}) && r.gClock == s.gClock
    ensures r.threads[0].pc.CommitFaa? && r.threads[0].rec == 0
    ensures r.txs == [Tx(0, s.gClock, map[1 := Cur(s.cells[1]).main], map[0 := 1], Pending)]
  {
    hide InvRunning, Run, After;
    var s1 := Begins(s, 0);
    var s2 := Loads(s1, 0, 1);
    GetsConcat(s, BeginActs(0), s1, LoadActs(0, 1), s2);
    var s3 := Stores(s2, 0, 0, 1);
    GetsConcat(s, BeginActs(0) + LoadActs(0, 1), s2, StoreActs(0, 0, 1), s3);
    var s4 := Ends(s3, 0);
    GetsConcat(s, BeginActs(0) + LoadActs(0, 1) + StoreActs(0, 0, 1), s3, [Step(0, End)], s4);
    var s5 := Passes(s4, 0);
    GetsConcat(s, BeginActs(0) + LoadActs(0, 1) + StoreActs(0, 0, 1) + [Step(0, End)], s4, [Step(0, Go)], s5);
    r := Flushes(s5, 0);
    GetsConcat(s, BeginActs(0) + LoadActs(0, 1) + StoreActs(0, 0, 1) + [Step(0, End)] + [Step(0, Go)], s5, [Step(0, Go)], r);
  }

  lemma {:induction false} SecondCommits(s: State) returns (r: State)
    requires InvRunning(s) && |s.threads| == 2 && |s.cells| == 2 && s.threads[1].pc.Idle? && |s.txs| == 1
    requires Free(s, 1, s.gClock)
    ensures Gets(s, SecondActs(), r) && Alone(s, r, 1, {1}) && r.gClock == s.gClock + 1
    ensures r.txs == [s.txs[0], Tx(1, s.gClock, map[], map[1 := 5], Durable(s.gClock + 1))]
  {
    hide InvRunning, Run, After;
    var s1 := Begins(s, 1);
    var s2 := Stores(s1, 1, 1, 5);
    GetsConcat(s, BeginActs(1), s1, StoreActs(1, 1, 5), s2);
    var s3 := Ends(s2, 1);
    GetsConcat(s, BeginActs(1) + StoreActs(1, 1, 5), s2, [Step(1, End)], s3);
    var s4 := Flushes(s3, 1);
    GetsConcat(s, BeginActs(1) + StoreActs(1, 1, 5) + [Step(1, End)], s3, [Step(1, Go)], s4);
    r := Commits(s4, 1);
    GetsConcat(s, BeginActs(1) + StoreActs(1, 1, 5) + [Step(1, End)] + [Step(1, Go)], s4, CommitActs(1), r);
  }

  /** Both, and then thread 0 commits. */
  lemma {:induction false} BothCommit(s: State) returns (r: State)
    requires InvRunning(s) && |s.threads| == 2 && |s.cells| == 2 && s.txs == []
    requires s.threads[0].pc.Idle? && s.threads[1].pc.Idle? && Free(s, 0, s.gClock) && Free(s, 1, s.gClock)
    ensures Gets(s, FirstActs() + SecondActs() + CommitActs(0), r)
    ensures Inverted(r, 0, 1, 1)
  {
    hide InvRunning, Run, After, FirstActs, SecondActs, CommitActs;
    var s1 := FirstValidates(s);
    var s2 := SecondCommits(s1);
    GetsConcat(s, FirstActs(), s1, SecondActs(), s2);
    r := Commits(s2, 0);
    GetsConcat(s, FirstActs() + SecondActs(), s2, CommitActs(0), r);
  }

  /**
    Two cells, two threads.  Thread 0 loads cell 1, stores to cell 0 and passes validation;
    thread 1 stores to cell 1 and commits with clock 2; thread 0 commits with clock 3.  Record 0
    read cell 1 before record 1 wrote it, and has the larger clock.
  */
  lemma {:induction false} ClockOrderFails() returns (acts: seq<Action>)
    ensures Run(Init(2, 2), acts) && Inverted(After(Init(2, 2), acts), 0, 1, 1)
    ensures Reachable(After(Init(2, 2), acts))
  {
    hide InvRunning, Run, After, FirstActs, SecondActs, CommitActs, Inverted;
    Tl2Crash.InitKeeps(2, 2);
    var r := BothCommit(Init(2, 2));
    acts := FirstActs() + SecondActs() + CommitActs(0);
  }
}
