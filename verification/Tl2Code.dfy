/**
  The code of TrinityTL2's transactions, run by one thread while the others take any steps
  between its accesses to shared memory.
*/
module Tl2Code {
  import opened Tl2Model
  import opened Tl2Inv
  import opened Tl2Steps
  import opened Tl2Theorems
  import opened Tl2Moves
  import opened Tl2Aborts

  datatype Loaded = Value(v: Val) | AbortedTx

  /** A load or a store within n cells. */
  predicate Touching(op: Op, n: nat) { (op.Load? && op.a < n) || (op.Store? && op.sta < n) }

  function Touched(op: Op): Addr {
    if op.Load? then op.a else if op.Store? then op.sta else 0
  }

  /** Records of thread t: none but t changes them or adds to them. */
  ghost predicate SameRecords(s: State, s': State, t: nat) {
    && |s.txs| <= |s'.txs|
    && (forall k | 0 <= k < |s.txs| :: s'.txs[k].tid == s.txs[k].tid && (s.txs[k].tid == t ==> s'.txs[k] == s.txs[k]))
    && (forall k | |s.txs| <= k < |s'.txs| :: s'.txs[k].tid != t)
  }

  /** What a thread can rely on while others run. */
  ghost predicate Rely(s: State, s': State, t: nat) {
    && InvRunning(s')
    && t < |s.threads| == |s'.threads| && |s'.cells| == |s.cells|
    && s'.threads[t] == s.threads[t] && s.gClock <= s'.gClock
    && (!s.threads[t].pc.Idle? ==> Steady(s, s', t))
    && Since(s, s', t)
  }

  lemma OtherStep(s: State, t: nat, u: nat, op: Op)
    requires InvRunning(s) && t < |s.threads| && t != u && CanStep(s, u, op)
    ensures Rely(s, DoStep(s, u, op), t)
  {
    hide InvRunning, DoStep, CanStep, Steady;
    StepKeeps(s, u, op);
    ActionKeepsDurable(s, Step(u, op));
    AnyStep(s, u, op);
    if !s.threads[t].pc.Idle? { StepSteady(s, t, u, op); }
  }

  lemma RelySelf(s: State, t: nat)
    requires InvRunning(s) && t < |s.threads|
    ensures Rely(s, s, t)
  {
    CellsLive(s);
    hide InvRunning, LoadStable;
  }

  lemma RelyHolds(s: State, s': State, t: nat)
    requires Rely(s, s', t)
    ensures InvRunning(s') && t < |s'.threads|
  {
  }

  lemma RelyIs(s: State, s': State, t: nat)
    requires Rely(s, s', t) && !s.threads[t].pc.Idle?
    ensures InvRunning(s') && |s'.threads| == |s.threads| && |s'.cells| == |s.cells| && s'.threads[t] == s.threads[t]
    ensures Steady(s, s', t) && Since(s, s', t)
  {
  }

  /** What taking the lock changes of the thread. */
  lemma CasStep(s: State, t: nat)
    requires CanStep(s, t, Go) && s.threads[t].pc.StoreSeq?
    ensures var s', th := DoStoreCas(s, t), s.threads[t];
      && |s'.threads| == |s.threads| && |s'.cells| == |s.cells| && Since(s, s', t)
      && (s'.threads[t] == th.(pc := Rollback(0))
          || s'.threads[t] == th.(pc := StoreMain(th.pc.sa, th.pc.sv), log := s'.threads[t].log, marks := s'.threads[t].marks))
  {
    hide Shape, FenceCell, Ok;
  }

  lemma MainStep(s: State, t: nat)
    requires CanStep(s, t, Go) && s.threads[t].pc.StoreMain?
    ensures var s', th := DoStoreMain(s, t), s.threads[t];
      && |s'.threads| == |s.threads| && |s'.cells| == |s.cells| && Since(s, s', t)
      && s'.threads[t] == th.(pc := Active, wr := th.wr[th.pc.wa := th.pc.wv])
  {
    hide Shape;
  }

  lemma StillAllowed(s: State, s': State, t: nat, op: Op)
    requires Rely(s, s', t) && Allowed(s, t, op)
    ensures t < |s'.threads| && Allowed(s', t, op)
  {
    hide InvRunning, Steady, Since;
  }

  lemma RelyTrans(s: State, m: State, r: State, t: nat)
    requires Rely(s, m, t) && Rely(m, r, t)
    ensures Rely(s, r, t)
  {
    hide InvRunning, Steady, Since;
    SinceTrans(s, m, r, t);
    if !s.threads[t].pc.Idle? { SteadyTrans(s, m, r, t); }
  }

  /** What the code of thread t may ask for next. */
  predicate Allowed(s: State, t: nat, op: Op)
    requires t < |s.threads|
  {
    var pc := s.threads[t].pc;
    if pc.Idle? then op.Begin?
    else if pc.Active? then
      op.End? || (op.Load? && op.a < |s.cells|) || (op.Store? && op.sta < |s.cells| && s.threads[t].update)
    else op.Go?
  }

  lemma AllowedCan(s: State, t: nat, op: Op)
    requires InvRunning(s) && t < |s.threads| && Allowed(s, t, op)
    ensures CanStep(s, t, op)
  {
    ThreadFactsFromInv(s, t);
  }

  lemma LogNonempty(s: State, t: nat)
    requires InvRunning(s) && t < |s.threads| && s.threads[t].pc.StoreMain?
    ensures s.threads[t].log != []
  {
    ThreadFactsFromInv(s, t);
  }

  /** From s to s', t has not changed any record. */
  ghost predicate Since(s: State, s': State, t: nat) { KeepsDurable(s, s') && SameRecords(s, s', t) }

  lemma SinceTrans(s: State, m: State, r: State, t: nat)
    requires Since(s, m, t) && Since(m, r, t)
    ensures Since(s, r, t)
  {
  }

  /** From s to s', t has added the record at rec and changed no other. */
  ghost predicate Own(s: State, s': State, t: nat, rec: nat) {
    && |s.txs| <= rec < |s'.txs|
    && KeepsDurable(s, s')
    && s'.txs[rec].tid == t
    && (forall k | 0 <= k < |s.txs| && s.txs[k].tid == t :: s'.txs[k] == s.txs[k])
    && (forall k | |s.txs| <= k < |s'.txs| && k != rec :: s'.txs[k].tid != t)
  }

  lemma OwnSince(s: State, m: State, r: State, t: nat, rec: nat)
    requires Own(s, m, t, rec) && Since(m, r, t)
    ensures Own(s, r, t, rec) && r.txs[rec] == m.txs[rec]
  {
  }

  /** The own step of a transaction that has its record. */
  lemma OwnStep(s: State, m: State, r: State, t: nat, rec: nat)
    requires Own(s, m, t, rec) && Rely(m, r, t) && m.threads[t].rec == rec
    requires CanStep(r, t, Go) && !r.threads[t].pc.Idle? && !r.threads[t].pc.Active?
    ensures Own(s, DoStep(r, t, Go), t, rec)
    ensures r.txs[rec] == m.txs[rec]
    ensures DoStep(r, t, Go).txs[rec] == r.txs[rec].(st := DoStep(r, t, Go).txs[rec].st)
  {
    hide InvRunning, DoStep, CanStep, KeepsDurable;
    ActionKeepsDurable(r, Step(t, Go));
    OwnSince(s, m, r, t, rec);
    AnyStep(r, t, Go);
    DurableTrans(s, r, DoStep(r, t, Go));
  }

  /** In state at, t has turned to the rollback over a cell it had read in s. */
  ghost predicate FoundStale(s: State, at: State, t: nat) {
    && InvRunning(at) && KeepsDurable(s, at) && t < |s.threads| == |at.threads|
    && at.threads[t] == s.threads[t].(pc := Rollback(0), rec := at.threads[t].rec)
    && exists a: Addr :: a in s.threads[t].rd && Conflict(at, t, a)
  }

  lemma OwnDurable(s: State, s': State, t: nat, rec: nat)
    requires Own(s, s', t, rec)
    ensures KeepsDurable(s, s') && rec < |s'.txs|
  {
  }

  lemma RelyThread(s: State, s': State, t: nat)
    requires Rely(s, s', t)
    ensures t < |s.threads| == |s'.threads| && |s'.cells| == |s.cells| && s'.threads[t] == s.threads[t]
  {
  }

  lemma EndSince(s: State, m: State, t: nat)
    requires Rely(s, m, t) && CanStep(m, t, End) && m.threads[t].pc.Active? && m.threads[t].log == []
    ensures Since(s, DoEnd(m, t), t) && t < |DoEnd(m, t).threads| == |s.threads| && |DoEnd(m, t).cells| == |s.cells|
  {
    hide InvRunning, Steady;
  }

  /** endTx starts validating with a new record. */
  lemma EndOwn(s: State, m: State, t: nat)
    requires Rely(s, m, t) && CanStep(m, t, End) && m.threads[t].pc.Active? && m.threads[t].log != []
    ensures var r := DoEnd(m, t);
      && |r.threads| == |s.threads| && |r.cells| == |s.cells| && r.threads[t] == s.threads[t].(pc := Validate(0), rec := |m.txs|)
      && Own(s, r, t, |m.txs|) && r.txs[|m.txs|] == Tx(t, s.threads[t].rClock, s.threads[t].rd, s.threads[t].wr, Pending)
  {
    hide InvRunning, Steady;
  }

  lemma DurableTrans(s: State, m: State, r: State)
    requires KeepsDurable(s, m) && KeepsDurable(m, r)
    ensures KeepsDurable(s, r)
  {
  }

  class Trinity {
    var st: State
    /** What the other threads attempt before each of our next accesses. */
    var schedule: seq<seq<(nat, Op)>>

    constructor (cells: nat, threads: nat, schedule: seq<seq<(nat, Op)>>)
      ensures InvRunning(st) && st == Init(cells, threads)
    {
      st := Init(cells, threads);
      this.schedule := schedule;
      new;
      Tl2Crash.InitKeeps(cells, threads);
    }

    /** The other threads run. */
    method Others(t: nat)
      requires InvRunning(st) && t < |st.threads|
      modifies this
      ensures Rely(old(st), st, t)
      ensures old(schedule) == [] ==> st == old(st) && schedule == []
    {
      hide InvRunning, Rely;
      RelySelf(st, t);
      if schedule == [] {
        return;
      }
      var todo := schedule[0];
      schedule := schedule[1..];
      for i := 0 to |todo|
        invariant Rely(old(st), st, t)
      {
        var (u, op) := todo[i];
        if u != t && CanStep(st, u, op) {
          RelyHolds(old(st), st, t);
          OtherStep(st, t, u, op);
          RelyTrans(old(st), st, DoStep(st, u, op), t);
          st := DoStep(st, u, op);
        }
      }
    }

    /** The others run, then thread t makes its next access, in state s. */
    method Access(t: nat, op: Op) returns (ghost s: State)
      requires InvRunning(st) && t < |st.threads| && Allowed(st, t, op)
      modifies this
      ensures Rely(old(st), s, t) && CanStep(s, t, op)
      ensures InvRunning(st) && st == DoStep(s, t, op)
      ensures old(schedule) == [] ==> s == old(st) && schedule == []
    {
      hide InvRunning, Rely, DoStep;
      Others(t);
      s := st;
      RelyHolds(old(st), s, t);
      StillAllowed(old(st), s, t, op);
      AllowedCan(st, t, op);
      StepKeeps(st, t, op);
      st := DoStep(st, t, op);
    }

    method BeginTx(t: nat, update: bool)
      requires InvRunning(st) && t < |st.threads| && st.threads[t].pc.Idle?
      modifies this
      ensures InvRunning(st) && |st.threads| == old(|st.threads|) && |st.cells| == old(|st.cells|)
      ensures var th := st.threads[t];
        && th.pc.Active? && th.update == update && th.log == [] && th.rd == map[] && th.wr == map[]
        && th.pos >= old(|st.txs|)
      ensures Since(old(st), st, t)
      ensures NoneNewer(old(st), st.threads[t].rClock)
      ensures old(schedule) == [] ==> schedule == [] && forall a: Addr :: Conflict(st, t, a) <==> Taken(old(st), t, a)
    {
      hide InvRunning, Steady, Conflict, Taken, NoneNewer;
      ghost var s := Access(t, Begin(update));
      VersionsBelow(old(st), s.gClock);
      if update {
        ghost var m := st;
        s := Access(t, Go);
        SinceTrans(old(st), m, s, t);
      }
      if old(schedule) == [] { BegunConflicts(old(st), st, t); }
    }

    /** persist::pload: the value read, or the exception. */
    method Pload(t: nat, a: Addr) returns (r: Loaded)
      requires InvRunning(st) && t < |st.threads| && st.threads[t].pc.Active? && a < |st.cells|
      modifies this
      ensures InvRunning(st) && |st.threads| == old(|st.threads|) && |st.cells| == old(|st.cells|)
      ensures Since(old(st), st, t)
      ensures var th, th0 := st.threads[t], old(st.threads[t]);
        && th == th0.(pc := th.pc, readSet := th.readSet, rd := th.rd)
        && (r.AbortedTx? ==> th.pc == Rollback(0))
        && (r.Value? ==>
             && th.pc.Active? && th.pos <= |st.txs| && (th.rd == th0.rd || th.rd == th0.rd[a := r.v])
             && r.v == if a in th.wr then th.wr[a] else Replay(st.txs, th.pos, a))
      ensures r.AbortedTx? <==> Conflict(st, t, a)
      ensures old(schedule) == [] ==> schedule == [] && SameConflicts(old(st), st, t)
    {
      hide InvRunning, Steady, Conflict;
      ghost var s := Access(t, Load(a));
      ghost var m := st;
      var lval := st.threads[t].pc.lval;
      s := Access(t, Go);
      SinceTrans(old(st), m, s, t);
      LoadCause(s, t);
      SameCellsConflicts(s, st, t);
      if old(schedule) == [] { SameCellsConflicts(old(st), st, t); }
      if st.threads[t].pc.Active? {
        AcceptedResult(s, t);
        r := Value(lval);
      } else {
        r := AbortedTx;
      }
    }

    /** Takes the lock, unless t has it, and writes main. */
    method LockAndStore(t: nat) returns (ok: bool)
      requires InvRunning(st) && t < |st.threads| && st.threads[t].pc.StoreSeq? && SeenStill(st, t)
      modifies this
      ensures InvRunning(st) && |st.threads| == old(|st.threads|) && |st.cells| == old(|st.cells|)
      ensures Since(old(st), st, t)
      ensures var th, th0 := st.threads[t], old(st.threads[t]);
        && (!ok ==> th == th0.(pc := Rollback(0)))
        && (ok ==> th == th0.(pc := Active, wr := th0.wr[th0.pc.sa := th0.pc.sv], log := th.log, marks := th.marks)
                   && th.log != [])
      ensures !ok <==> Conflict(st, t, old(st.threads[t].pc.sa))
      ensures old(schedule) == [] ==>
        && schedule == [] && (!ok ==> SameConflicts(old(st), st, t))
        && forall a: Addr | a != old(st.threads[t].pc.sa) :: Conflict(st, t, a) <==> Conflict(old(st), t, a)
    {
      hide Shape, InvRunning, Steady, Conflict, SeenStill, CanStep, Since;
      ghost var s := Access(t, Go);
      RelyIs(old(st), s, t);
      SeenAfter(old(st), s, t);
      CasStep(s, t);
      SinceTrans(old(st), s, st, t);
      if st.threads[t].pc.Rollback? {
        CasCause(s, t);
        SameCellsConflicts(s, st, t);
        return false;
      }
      CasConflicts(s, t);
      ghost var m := st;
      s := Access(t, Go);
      RelyIs(m, s, t);
      SinceTrans(old(st), m, s, t);
      LogNonempty(s, t);
      MainStep(s, t);
      SinceTrans(old(st), s, st, t);
      MainConflicts(s, t);
      ok := true;
    }

    /** persist::pstore: false stands for the exception. */
    method Pstore(t: nat, a: Addr, v: Val) returns (ok: bool)
      requires InvRunning(st) && t < |st.threads| && st.threads[t].pc.Active? && st.threads[t].update && a < |st.cells|
      modifies this
      ensures InvRunning(st) && |st.threads| == old(|st.threads|) && |st.cells| == old(|st.cells|)
      ensures Since(old(st), st, t)
      ensures var th, th0 := st.threads[t], old(st.threads[t]);
        && (!ok ==> th.pc == Rollback(0))
        && (ok ==> th == th0.(wr := th0.wr[a := v], log := th.log, marks := th.marks) && th.log != [])
      ensures !ok <==> Conflict(st, t, a)
      ensures old(schedule) == [] ==> schedule == [] && SameConflicts(old(st), st, t)
    {
      hide Shape, InvRunning, Steady, Conflict, SeenStill;
      ghost var s := Access(t, Store(a, v));
      StoreCause(s, t, a, v);
      JustSeen(s, t, a, v);
      SameCellsConflicts(s, st, t);
      if st.threads[t].pc.Rollback? {
        return false;
      }
      ghost var m := st;
      ok := LockAndStore(t);
      SinceTrans(old(st), m, st, t);
      if old(schedule) == [] { SameCellsConflicts(old(st), m, t); }
    }

    /** v_log.unlock(); then the thread is done. */
    method UnlockAll(t: nat)
      requires InvRunning(st) && t < |st.threads| && st.threads[t].pc.Unlock? && st.threads[t].pc.ui == 0
      modifies this
      ensures InvRunning(st) && |st.threads| == old(|st.threads|) && |st.cells| == old(|st.cells|)
      ensures st.threads[t].pc.Idle? && Since(old(st), st, t)
      ensures old(schedule) == [] ==> schedule == []
    {
      hide LogOk, LaterClocks, Done, LoadsOk, Doubt, Shape, AbortPost, FenceCell, Pre, InvRunning;
      var log, commit := st.threads[t].log, st.threads[t].pc.commit;
      for i := 0 to |log|
        invariant InvRunning(st) && |st.threads| == old(|st.threads|) && |st.cells| == old(|st.cells|)
        invariant old(schedule) == [] ==> schedule == []
        invariant st.threads[t].pc == Unlock(i, commit) && st.threads[t].log == log && Since(old(st), st, t)
      {
        ghost var m := st;
        ghost var s := Access(t, Go);
        SinceTrans(old(st), m, s, t);
      }
      ghost var m := st;
      ghost var s := Access(t, Go);
      SinceTrans(old(st), m, s, t);
    }

    /** v_log.applyOnBack() */
    method ApplyAll(t: nat)
      requires InvRunning(st) && t < |st.threads| && st.threads[t].pc == ApplyBack(0)
      modifies this
      ensures InvRunning(st) && |st.threads| == old(|st.threads|) && |st.cells| == old(|st.cells|)
      ensures st.threads[t].pc == Unlock(0, true) && Since(old(st), st, t)
      ensures old(schedule) == [] ==> schedule == []
    {
      hide InvRunning;
      var log := st.threads[t].log;
      for i := 0 to |log|
        invariant InvRunning(st) && |st.threads| == old(|st.threads|) && |st.cells| == old(|st.cells|)
        invariant old(schedule) == [] ==> schedule == []
        invariant st.threads[t].pc == ApplyBack(i) && st.threads[t].log == log && Since(old(st), st, t)
      {
        ghost var m := st;
        ghost var s := Access(t, Go);
        SinceTrans(old(st), m, s, t);
      }
      ghost var m := st;
      ghost var s := Access(t, Go);
      SinceTrans(old(st), m, s, t);
    }

    /** v_log.rollbackMain() and flushPWB() */
    method RollbackAll(t: nat)
      requires InvRunning(st) && t < |st.threads| && st.threads[t].pc == Rollback(0)
      modifies this
      ensures InvRunning(st) && |st.threads| == old(|st.threads|) && |st.cells| == old(|st.cells|)
      ensures st.threads[t].pc.AbortFaa? && Since(old(st), st, t)
      ensures old(schedule) == [] ==> schedule == []
    {
      hide InvRunning;
      var log := st.threads[t].log;
      for i := 0 to |log|
        invariant InvRunning(st) && |st.threads| == old(|st.threads|) && |st.cells| == old(|st.cells|)
        invariant old(schedule) == [] ==> schedule == []
        invariant st.threads[t].pc == Rollback(i) && st.threads[t].log == log && Since(old(st), st, t)
      {
        ghost var m := st;
        ghost var s := Access(t, Go);
        SinceTrans(old(st), m, s, t);
      }
      ghost var m := st;
      ghost var s := Access(t, Go);
      SinceTrans(old(st), m, s, t);
    }

    method AbortTx(t: nat)
      requires InvRunning(st) && t < |st.threads| && st.threads[t].pc == Rollback(0)
      modifies this
      ensures InvRunning(st) && |st.threads| == old(|st.threads|) && |st.cells| == old(|st.cells|)
      ensures st.threads[t].pc.Idle? && Since(old(st), st, t)
      ensures old(schedule) == [] ==> schedule == []
    {
      hide Shape, CanStep, LogOk, Snapshots, Replay, Rolling, NoDup, AbortPost, Doubt, Done, AtMost, ClocksBounded,
        Below, Recs, InvRunning;
      RollbackAll(t);
      ghost var m := st;
      ghost var s := Access(t, Go);       // gClock.fetch_add
      SinceTrans(old(st), m, s, t);
      m := st;
      s := Access(t, Go);                 // p_seq and its PWB
      SinceTrans(old(st), m, s, t);
      m := st;
      s := Access(t, Go);                 // PFENCE
      SinceTrans(old(st), m, s, t);
      m := st;
      UnlockAll(t);
      SinceTrans(old(st), m, st, t);
    }

    /** v_log.validate(): the loop over the read-set. */
    method ValidateAll(t: nat, ghost s0: State, ghost rec: nat, ghost x: Tx) returns (ok: bool)
      requires InvRunning(st) && t < |st.threads| && st.threads[t].pc == Validate(0) && st.threads[t].rec == rec
      requires Own(s0, st, t, rec) && st.txs[rec] == x
      modifies this
      ensures InvRunning(st) && |st.threads| == old(|st.threads|) && |st.cells| == old(|st.cells|)
      ensures Own(s0, st, t, rec)
      ensures st.threads[t] == old(st.threads[t]).(pc := if ok then Validate(|st.threads[t].readSet|) else Rollback(0))
      ensures st.txs[rec] == if ok then x else x.(st := Aborted)
      ensures !ok ==> exists a <- st.threads[t].readSet :: Conflict(st, t, a)
      ensures old(schedule) == [] ==>
        schedule == [] && SameConflicts(old(st), st, t) && (ok <==> forall a <- st.threads[t].readSet :: !Conflict(st, t, a))
    {
      hide InvRunning, Steady, Own, Conflict;
      OwnDurable(s0, st, t, rec);
      var readSet := st.threads[t].readSet;
      for i := 0 to |readSet|
        invariant InvRunning(st) && |st.threads| == old(|st.threads|) && |st.cells| == old(|st.cells|)
        invariant st.threads[t] == old(st.threads[t]).(pc := Validate(i)) && st.threads[t].rec == rec
        invariant Own(s0, st, t, rec) && rec < |st.txs| && st.txs[rec] == x
        invariant old(schedule) == [] ==>
          schedule == [] && st.cells == old(st.cells) && forall j | 0 <= j < i :: !Conflict(st, t, readSet[j])
      {
        ghost var b := st;
        ghost var s := Access(t, Go);
        OwnStep(s0, b, s, t, rec);
        RelyThread(b, s, t);
        ValidateCause(s, t);
        SameCellsConflicts(s, st, t);
        if old(schedule) == [] { SameCellsConflicts(b, st, t); SameCellsConflicts(old(st), st, t); }
        if st.threads[t].pc.Rollback? {
          assert readSet[i] in readSet && Conflict(st, t, readSet[i]);
          return false;
        }
      }
      if old(schedule) == [] { SameCellsConflicts(old(st), st, t); }
      ok := true;
    }

    /**
      Commits or aborts.  A transaction with stores leaves exactly one record, durable if endTx
      returns true and aborted if it returns false.
    */
    method EndTx(t: nat) returns (ok: bool, ghost rec: nat, ghost at: State)
      requires InvRunning(st) && t < |st.threads| && st.threads[t].pc.Active?
      modifies this
      ensures InvRunning(st) && |st.threads| == old(|st.threads|) && |st.cells| == old(|st.cells|)
      ensures st.threads[t].pc.Idle?
      ensures old(st.threads[t].log) == [] ==> ok && Since(old(st), st, t)
      ensures old(st.threads[t].log) != [] ==>
        && Own(old(st), st, t, rec)
        && st.txs[rec].rd == old(st.threads[t].rd) && st.txs[rec].writes == old(st.threads[t].wr)
        && (if ok then st.txs[rec].st.Durable? else st.txs[rec].st.Aborted?)
      ensures !ok ==> FoundStale(old(st), at, t) && Since(at, st, t)
      ensures old(schedule) == [] ==> schedule == []
      ensures old(schedule) == [] && old(st.threads[t].log) != [] ==>
        (ok <==> forall a <- old(st.threads[t].rd) :: !Conflict(old(st), t, a))
    {
      hide InvRunning, Steady, Own, Conflict, Since;
      rec, at := 0, st;
      if |st.threads[t].log| == 0 {
        ghost var s := Access(t, End);
        EndSince(old(st), s, t);
        return true, 0, st;
      }
      ghost var s := Access(t, End);
      rec := st.threads[t].rec;
      EndOwn(old(st), s, t);
      EntryRead(st, t);
      if old(schedule) == [] { SameCellsConflicts(old(st), st, t); }
      ghost var m, x := st, st.txs[rec];
      ok := ValidateAll(t, old(st), rec, x);
      if !ok {
        at := st;
        OwnDurable(old(st), at, t, rec);
        AbortTx(t);
        OwnSince(old(st), at, st, t, rec);
        return false, rec, at;
      }
      Commit(t, old(st), rec, x);
    }

    /** endTx from a successful validation on. */
    method Commit(t: nat, ghost s0: State, ghost rec: nat, ghost x: Tx)
      requires InvRunning(st) && t < |st.threads| && st.threads[t].rec == rec
      requires st.threads[t].pc == Validate(|st.threads[t].readSet|)
      requires Own(s0, st, t, rec) && st.txs[rec] == x
      modifies this
      ensures InvRunning(st) && |st.threads| == old(|st.threads|) && |st.cells| == old(|st.cells|)
      ensures st.threads[t].pc.Idle? && Own(s0, st, t, rec)
      ensures st.txs[rec].st.Durable? && st.txs[rec] == x.(st := st.txs[rec].st)
      ensures old(schedule) == [] ==> schedule == []
    {
      hide FenceCells, SameRecords, DoAbortFaa, Versions, CanStep, InvRunning, Steady;
      ghost var b := st;
      ghost var s := Access(t, Go);       // flushPWB
      OwnStep(s0, b, s, t, rec);
      b := st;
      s := Access(t, Go);                 // gClock.fetch_add
      OwnStep(s0, b, s, t, rec);
      b := st;
      s := Access(t, Go);                 // p_seq and its PWB
      OwnStep(s0, b, s, t, rec);
      b := st;
      s := Access(t, Go);                 // PSYNC
      OwnStep(s0, b, s, t, rec);
      b := st;
      ApplyAll(t);
      OwnSince(s0, b, st, t, rec);
      b := st;
      UnlockAll(t);
      OwnSince(s0, b, st, t, rec);
    }

    /**
      A transaction of loads and stores during which no other thread takes a step commits if and
      only if it touches no cell that another thread had locked when it began.
    */
    method RunAlone(t: nat, calls: seq<Op>) returns (ok: bool)
      requires InvRunning(st) && t < |st.threads| && st.threads[t].pc.Idle? && schedule == []
      requires forall i | 0 <= i < |calls| :: Touching(calls[i], |st.cells|)
      modifies this
      ensures InvRunning(st) && t < |st.threads| && st.threads[t].pc.Idle?
      ensures ok <==> forall i | 0 <= i < |calls| :: !Taken(old(st), t, Touched(calls[i]))
    {
      hide InvRunning, Conflict, Taken, Since, Own;
      ghost var s0 := st;
      BeginTx(t, true);
      for i := 0 to |calls|
        invariant InvRunning(st) && t < |st.threads| && |st.cells| == |s0.cells| && schedule == []
        invariant st.threads[t].pc.Active? && st.threads[t].update
        invariant forall a: Addr :: Conflict(st, t, a) <==> Taken(s0, t, a)
        invariant forall j | 0 <= j < i :: !Taken(s0, t, Touched(calls[j]))
        invariant forall a <- st.threads[t].rd :: !Taken(s0, t, a)
      {
        var a := Touched(calls[i]);
        if calls[i].Load? {
          var r := Pload(t, a);
          ok := r.Value?;
        } else {
          ok := Pstore(t, a, calls[i].stv);
        }
        if !ok {
          AbortTx(t);
          return;
        }
      }
      ghost var rec, at;
      ok, rec, at := EndTx(t);
    }
  }
}
