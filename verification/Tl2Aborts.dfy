/**
  Why a transaction of TrinityTL2 aborts: only because of a cell it has touched that another thread
  has locked, or has written since the transaction began.
*/
module Tl2Aborts {
  import opened Tl2Model
  import opened Tl2Inv
  import opened Tl2Theorems
  import opened Tl2Moves
  import Tl2Crash
  import Tl2Steps

  /** Another thread has cell a locked, or has put a version in it that is newer than t's begin. */
  ghost predicate Conflict(s: State, t: nat, a: Addr) {
    && t < |s.threads| && a < |s.cells| && |s.cells[a].hist| > 0
    && var l := Cur(s.cells[a]).lseq;
    l.tid != t && (l.locked || l.sq > s.threads[t].rClock)
  }

  /** A thread's own versions are no newer than its rClock. */
  lemma {:induction false} NewerIsForeign(s: State, t: nat, a: Addr)
    requires InvRunning(s) && t < |s.threads| && Pre(s.threads[t].pc) && a < |s.cells|
    requires !Cur(s.cells[a]).lseq.locked && Cur(s.cells[a]).lseq.sq > s.threads[t].rClock
    ensures Conflict(s, t, a)
  {
    var h := s.cells[a].hist;
    assert CellPersist(s, a);
    assert VersionOk(s, h[|h| - 1], h[|h| - 1], true, Replay(s.txs, |s.txs|, a));
    assert SeqOk(s.threads[t], s.pseq[t]);
  }

  // ---------- what other threads do to a lock word ----------

  /** How a step of thread u may change the lock word of a. */
  ghost predicate LseqMove(s: State, s': State, u: nat, a: Addr) {
    && u < |s.threads| == |s'.threads| && a < |s.cells| == |s'.cells| && |s.cells[a].hist| > 0 && |s'.cells[a].hist| > 0
    && var l, l', th := Cur(s.cells[a]).lseq, Cur(s'.cells[a]).lseq, s.threads[u];
    || l' == l
    || (!l.locked && l'.locked && l'.tid == u && s'.threads[u].pc.StoreMain?)
    || (th.pc.Unlock? && l.locked && l.tid == u && l' == Lseq(false, u, th.nextClock))
  }

  /** A clock taken in this step is newer than all before. */
  predicate ClockMove(s: State, s': State, u: nat) {
    && u < |s.threads| == |s'.threads|
    && var th, th' := s.threads[u], s'.threads[u];
    PostFaa(th'.pc) ==> (PostFaa(th.pc) && th'.nextClock == th.nextClock) || th'.nextClock > s.gClock
  }

  predicate Quick(pc: PC) { pc.Idle? || pc.BeginSeq? || pc.Active? || pc.Loaded? || pc.Validate? }

  lemma {:induction false} QuickMove(s: State, u: nat, op: Op, a: Addr)
    requires CanStep(s, u, op) && Quick(s.threads[u].pc) && a < |s.cells|
    requires !s.threads[u].pc.Active? && !s.threads[u].pc.Validate?
    ensures LseqMove(s, DoStep(s, u, op), u, a) && ClockMove(s, DoStep(s, u, op), u)
  {
    hide Cur, PutCell;
    assert CellShape(s.cells[a]);
    hide Shape, Addressed, FenceCells, FlushMarks, Ok, ValidateFails, LoadAborts;
  }

  lemma {:induction false} ActiveMove(s: State, u: nat, op: Op, a: Addr)
    requires CanStep(s, u, op) && (s.threads[u].pc.Active? || s.threads[u].pc.Validate?) && a < |s.cells|
    ensures LseqMove(s, DoStep(s, u, op), u, a) && ClockMove(s, DoStep(s, u, op), u)
  {
    hide Cur, PutCell;
    assert CellShape(s.cells[a]);
    hide Shape, Addressed, FenceCells, FlushMarks, Ok, ValidateFails, LoadAborts;
  }

  lemma {:induction false} StoreMove(s: State, u: nat, a: Addr)
    requires CanStep(s, u, Go) && (s.threads[u].pc.StoreSeq? || s.threads[u].pc.StoreMain?) && a < |s.cells|
    requires s.threads[u].pc.StoreSeq? ==>
      Ok(s.threads[u].rClock, 0, s.threads[u].pc.sl) || s.threads[u].pc.sl.locked
    ensures LseqMove(s, DoStep(s, u, Go), u, a) && ClockMove(s, DoStep(s, u, Go), u)
  {
    assert CellShape(s.cells[a]);
    hide Addressed, FlushMarks;
  }

  predicate Fencing(pc: PC) { pc.CommitFaa? || pc.CommitSeq? || pc.CommitSync? || pc.AbortFaa? || pc.AbortSeq? || pc.AbortSync? }

  lemma {:induction false} FenceMove(s: State, u: nat, a: Addr)
    requires CanStep(s, u, Go) && Fencing(s.threads[u].pc) && a < |s.cells|
    ensures LseqMove(s, DoStep(s, u, Go), u, a) && ClockMove(s, DoStep(s, u, Go), u)
  {
    assert CellShape(s.cells[a]);
    hide Addressed, FlushMarks;
  }

  lemma {:induction false} LoopMove(s: State, u: nat, a: Addr)
    requires CanStep(s, u, Go) && a < |s.cells|
    requires s.threads[u].pc.ApplyBack? || s.threads[u].pc.Rollback? || s.threads[u].pc.Unlock?
    requires s.threads[u].pc.Unlock? && s.threads[u].pc.ui < |s.threads[u].log| ==>
      LockedBy(s, u, s.threads[u].log[s.threads[u].pc.ui])
    ensures LseqMove(s, DoStep(s, u, Go), u, a) && ClockMove(s, DoStep(s, u, Go), u)
  {
    assert CellShape(s.cells[a]);
    hide FlushMarks;
  }

  lemma {:induction false} StoreSeqKnown(s: State, u: nat)
    requires InvRunning(s) && u < |s.threads| && s.threads[u].pc.StoreSeq?
    ensures Ok(s.threads[u].rClock, 0, s.threads[u].pc.sl) || s.threads[u].pc.sl.locked
  {
    Tl2Steps.ThreadFactsFromInv(s, u);
  }

  lemma {:induction false} AnyMove(s: State, u: nat, op: Op, a: Addr)
    requires InvRunning(s) && CanStep(s, u, op) && a < |s.cells|
    ensures LseqMove(s, DoStep(s, u, op), u, a) && ClockMove(s, DoStep(s, u, op), u)
  {
    hide InvRunning, DoStep, LseqMove, ClockMove;
    var th := s.threads[u];
    if th.pc.Active? || th.pc.Validate? {
      ActiveMove(s, u, op, a);
    } else if Quick(th.pc) {
      QuickMove(s, u, op, a);
    } else if th.pc.StoreSeq? || th.pc.StoreMain? {
      if th.pc.StoreSeq? { StoreSeqKnown(s, u); }
      StoreMove(s, u, a);
    } else if Fencing(th.pc) {
      FenceMove(s, u, a);
    } else {
      if th.pc.Unlock? && th.pc.ui < |th.log| { HeldLocked(s, u, th.pc.ui); }
      LoopMove(s, u, a);
    }
  }

  // ---------- what a thread can rely on ----------

  /**
    What is unacceptable to t stays so, and an unlocked cell that is still acceptable has not
    been touched.
  */
  ghost predicate CellSteady(s: State, s': State, t: nat, a: Addr)
    requires t < |s.threads| == |s'.threads| && a < |s.cells| == |s'.cells|
  {
    && |s.cells[a].hist| > 0 && |s'.cells[a].hist| > 0
    && (LoadStable(s', t, a) ==>
         LoadStable(s, t, a) && (!Cur(s.cells[a]).lseq.locked ==> Cur(s'.cells[a]).lseq == Cur(s.cells[a]).lseq))
  }

  ghost predicate Steady(s: State, s': State, t: nat) {
    && t < |s.threads| == |s'.threads| && |s'.cells| == |s.cells|
    && forall a: nat | a < |s.cells| :: CellSteady(s, s', t, a)
  }

  lemma {:induction false} SteadyTrans(s: State, m: State, r: State, t: nat)
    requires Steady(s, m, t) && Steady(m, r, t)
    ensures Steady(s, r, t)
  {
    hide LoadStable;
    forall a: nat | a < |s.cells| ensures CellSteady(s, r, t, a) {
      assert CellSteady(s, m, t, a) && CellSteady(m, r, t, a);
    }
  }

  lemma {:induction false} MoveSteady(s: State, s': State, t: nat, u: nat, a: Addr)
    requires LseqMove(s, s', u, a) && ClockMove(s, s', u) && t < |s.threads| && t != u
    requires s.threads[t].rClock <= s.gClock
    requires forall v | 0 <= v < |s.threads| && v != u :: s'.threads[v] == s.threads[v]
    ensures CellSteady(s, s', t, a)
  {
  }

  lemma {:induction false} NotAhead(s: State, t: nat)
    requires InvRunning(s) && t < |s.threads| && !s.threads[t].pc.Idle?
    ensures s.threads[t].rClock <= s.gClock
  {
    Tl2Steps.ThreadFactsFromInv(s, t);
  }

  lemma {:induction false} CellsLive(s: State)
    requires InvRunning(s)
    ensures forall a: nat | a < |s.cells| :: |s.cells[a].hist| > 0
  {
  }

  // ---------- why a step aborts ----------

  /** Not acceptable even after those on their way to unlock have done so. */
  lemma {:induction false} UnstableConflicts(s: State, t: nat, a: Addr)
    requires InvRunning(s) && t < |s.threads| && Pre(s.threads[t].pc) && a < |s.cells| && |s.cells[a].hist| > 0
    requires !LoadStable(s, t, a)
    ensures Conflict(s, t, a)
  {
    if !Cur(s.cells[a]).lseq.locked {
      NewerIsForeign(s, t, a);
    }
  }

  /** pload aborts exactly on a conflict. */
  lemma {:induction false} LoadCause(s: State, t: nat)
    requires InvRunning(s) && CanStep(s, t, Go) && s.threads[t].pc.Loaded?
    ensures DoLoadSeq(s, t).threads[t].pc.Rollback? <==> Conflict(s, t, s.threads[t].pc.la)
    ensures DoLoadSeq(s, t).cells == s.cells && DoLoadSeq(s, t).threads[t].rClock == s.threads[t].rClock
  {
    var a := s.threads[t].pc.la;
    CellsLive(s);
    if !Cur(s.cells[a]).lseq.locked && Cur(s.cells[a]).lseq.sq > s.threads[t].rClock {
      NewerIsForeign(s, t, a);
    }
    hide InvRunning, Shape;
  }

  /** pstore's first access does, too. */
  lemma {:induction false} StoreCause(s: State, t: nat, a: Addr, v: Val)
    requires InvRunning(s) && CanStep(s, t, Store(a, v)) && s.threads[t].pc.Active?
    ensures DoStore(s, t, a, v).threads[t].pc.Rollback? <==> Conflict(s, t, a)
    ensures DoStore(s, t, a, v).cells == s.cells && DoStore(s, t, a, v).threads[t].rClock == s.threads[t].rClock
  {
    CellsLive(s);
    if !Cur(s.cells[a]).lseq.locked && Cur(s.cells[a]).lseq.sq > s.threads[t].rClock {
      NewerIsForeign(s, t, a);
    }
    hide InvRunning, Shape;
  }

  /** What pstore has seen of the lock word, while it is about to take the lock. */
  ghost predicate SeenStill(s: State, t: nat)
    requires t < |s.threads|
  {
    s.threads[t].pc.StoreSeq? && !s.threads[t].pc.sl.locked ==>
      var a := s.threads[t].pc.sa;
      a < |s.cells| && |s.cells[a].hist| > 0 && (LoadStable(s, t, a) ==> Cur(s.cells[a]).lseq == s.threads[t].pc.sl)
  }

  lemma {:induction false} CasCause(s: State, t: nat)
    requires InvRunning(s) && CanStep(s, t, Go) && s.threads[t].pc.StoreSeq? && SeenStill(s, t)
    requires DoStoreCas(s, t).threads[t].pc.Rollback?
    ensures Conflict(s, t, s.threads[t].pc.sa)
    ensures DoStoreCas(s, t).cells == s.cells && DoStoreCas(s, t).threads[t].rClock == s.threads[t].rClock
  {
    CellsLive(s);
    UnstableConflicts(s, t, s.threads[t].pc.sa);
    hide InvRunning, Shape;
  }

  lemma {:induction false} ValidateCause(s: State, t: nat)
    requires InvRunning(s) && CanStep(s, t, Go) && s.threads[t].pc.Validate?
    ensures DoStep(s, t, Go).threads[t].pc.Rollback? <==>
      s.threads[t].pc.vi < |s.threads[t].readSet| && Conflict(s, t, s.threads[t].readSet[s.threads[t].pc.vi])
    ensures DoStep(s, t, Go).cells == s.cells && DoStep(s, t, Go).threads[t].rClock == s.threads[t].rClock
  {
    CellsLive(s);
    var i := s.threads[t].pc.vi;
    if i < |s.threads[t].readSet| {
      var a := s.threads[t].readSet[i];
      if !Cur(s.cells[a]).lseq.locked && Cur(s.cells[a]).lseq.sq > s.threads[t].rClock {
        NewerIsForeign(s, t, a);
      }
    }
    hide InvRunning, Shape;
  }

  // ---------- a transaction on its own ----------

  /** Another thread has cell a locked. */
  ghost predicate Taken(s: State, t: nat, a: Addr) {
    a < |s.cells| && |s.cells[a].hist| > 0 && Cur(s.cells[a]).lseq.locked && Cur(s.cells[a]).lseq.tid != t
  }

  /** No unlocked cell has a version after clock. */
  ghost predicate NoneNewer(s: State, clock: nat) {
    forall a: nat | a < |s.cells| && |s.cells[a].hist| > 0 && !Cur(s.cells[a]).lseq.locked ::
      Cur(s.cells[a]).lseq.sq <= clock
  }

  ghost predicate SameConflicts(s: State, s': State, t: nat) {
    forall a: Addr :: Conflict(s', t, a) <==> Conflict(s, t, a)
  }

  lemma {:induction false} VersionsBelow(s: State, clock: nat)
    requires InvRunning(s) && s.gClock <= clock
    ensures NoneNewer(s, clock)
  {
    assert Versions(s);
  }

  /** A transaction that has just begun is in conflict over the cells others have locked, and no other. */
  lemma {:induction false} BegunConflicts(s: State, s': State, t: nat)
    requires t < |s'.threads| && s'.cells == s.cells && NoneNewer(s, s'.threads[t].rClock)
    ensures forall a: Addr :: Conflict(s', t, a) <==> Taken(s, t, a)
  {
  }

  lemma {:induction false} SameCellsConflicts(s: State, s': State, t: nat)
    requires t < |s.threads| == |s'.threads| && s'.cells == s.cells && s'.threads[t].rClock == s.threads[t].rClock
    ensures SameConflicts(s, s', t)
  {
  }

  /** Taking the lock changes nothing about the other cells. */
  lemma {:induction false} CasConflicts(s: State, t: nat)
    requires InvRunning(s) && CanStep(s, t, Go) && s.threads[t].pc.StoreSeq?
    ensures forall a: Addr | a != s.threads[t].pc.sa :: Conflict(DoStoreCas(s, t), t, a) <==> Conflict(s, t, a)
  {
    CellsLive(s);
    hide InvRunning, Shape;
  }

  /** And writing main, none at all; the cell is t's own. */
  lemma {:induction false} MainConflicts(s: State, t: nat)
    requires InvRunning(s) && CanStep(s, t, Go) && s.threads[t].pc.StoreMain?
    ensures forall a: Addr :: Conflict(DoStoreMain(s, t), t, a) <==> Conflict(s, t, a)
    ensures !Conflict(DoStoreMain(s, t), t, s.threads[t].pc.wa)
  {
    CellsLive(s);
    TargetLocked(s, t);
    hide InvRunning, Shape;
  }

  // ---------- in every reachable state ----------

  ghost predicate AllSeen(s: State) { forall t: nat | t < |s.threads| :: SeenStill(s, t) }

  lemma {:induction false} StepSteady(s: State, t: nat, u: nat, op: Op)
    requires InvRunning(s) && CanStep(s, u, op) && t < |s.threads| && t != u && !s.threads[t].pc.Idle?
    ensures Steady(s, DoStep(s, u, op), t)
  {
    hide InvRunning, DoStep, RecordStep, LseqMove, ClockMove, CellSteady;
    NotAhead(s, t);
    AnyStep(s, u, op);
    forall a: nat | a < |s.cells| ensures CellSteady(s, DoStep(s, u, op), t, a) {
      AnyMove(s, u, op, a);
      MoveSteady(s, DoStep(s, u, op), t, u, a);
    }
  }

  lemma {:induction false} SeenAfter(s: State, s': State, t: nat)
    requires Steady(s, s', t) && s'.threads[t] == s.threads[t] && SeenStill(s, t)
    ensures SeenStill(s', t)
  {
    if s.threads[t].pc.StoreSeq? && s.threads[t].pc.sa < |s.cells| {
      assert CellSteady(s, s', t, s.threads[t].pc.sa);
    }
  }

  /** pstore's first access has just seen the lock word. */
  lemma {:induction false} JustSeen(s: State, t: nat, a: Addr, v: Val)
    requires CanStep(s, t, Store(a, v)) && s.threads[t].pc.Active?
    ensures SeenStill(DoStore(s, t, a, v), t)
  {
    assert CellShape(s.cells[a]);
    hide Ok, LoadStable;
  }

  predicate Storing(pc: PC, op: Op) { pc.Active? && op.Store? }

  lemma {:induction false} FrontUnseen(s: State, t: nat, op: Op)
    requires CanStep(s, t, op) && !Storing(s.threads[t].pc, op)
    requires Quick(s.threads[t].pc) || s.threads[t].pc.StoreSeq? || s.threads[t].pc.StoreMain?
    ensures t < |DoStep(s, t, op).threads| && !DoStep(s, t, op).threads[t].pc.StoreSeq?
  {
    hide Shape, Addressed, FenceCells, FlushMarks, Ok, Cur, ValidateFails, LoadAborts, CasFails;
  }

  lemma {:induction false} BackUnseen(s: State, t: nat, op: Op)
    requires CanStep(s, t, op) && !Quick(s.threads[t].pc) && !s.threads[t].pc.StoreSeq? && !s.threads[t].pc.StoreMain?
    ensures t < |DoStep(s, t, op).threads| && !DoStep(s, t, op).threads[t].pc.StoreSeq?
  {
    hide Shape, Addressed, FenceCells, FlushMarks, Ok, Cur;
  }

  lemma {:induction false} StepSeen(s: State, u: nat, op: Op)
    requires InvRunning(s) && AllSeen(s) && CanStep(s, u, op)
    ensures AllSeen(DoStep(s, u, op))
  {
    var s' := DoStep(s, u, op);
    hide InvRunning, DoStep, RecordStep, Steady, SeenStill;
    AnyStep(s, u, op);
    forall t: nat | t < |s'.threads| ensures SeenStill(s', t) {
      if t != u && !s.threads[t].pc.Idle? {
        StepSteady(s, t, u, op);
        SeenAfter(s, s', t);
      } else if t != u {
        IdleSeen(s', t);
      } else {
        OwnSeen(s, t, op);
      }
    }
  }

  lemma {:induction false} IdleSeen(s: State, t: nat)
    requires t < |s.threads| && !s.threads[t].pc.StoreSeq?
    ensures SeenStill(s, t)
  {
  }

  lemma {:induction false} OwnSeen(s: State, t: nat, op: Op)
    requires CanStep(s, t, op)
    ensures t < |DoStep(s, t, op).threads| && SeenStill(DoStep(s, t, op), t)
  {
    hide Shape, DoStep, SeenStill;
    var pc := s.threads[t].pc;
    if Storing(pc, op) {
      assert DoStep(s, t, op) == DoStore(s, t, op.sta, op.stv) by { StoreIs(s, t, op); }
      JustSeen(s, t, op.sta, op.stv);
    } else if Quick(pc) || pc.StoreSeq? || pc.StoreMain? {
      FrontUnseen(s, t, op);
      IdleSeen(DoStep(s, t, op), t);
    } else {
      BackUnseen(s, t, op);
      IdleSeen(DoStep(s, t, op), t);
    }
  }

  lemma {:induction false} StoreIs(s: State, t: nat, op: Op)
    requires CanStep(s, t, op) && Storing(s.threads[t].pc, op)
    ensures CellShape(s.cells[op.sta]) && DoStep(s, t, op) == DoStore(s, t, op.sta, op.stv)
  {
  }

  lemma {:induction false} ActionSeen(s: State, act: Action)
    requires Inv(s) && AllSeen(s) && Enabled(s, act)
    ensures AllSeen(Apply(s, act))
  {
    match act
    case Step(u, op) => StepSeen(s, u, op);
    case Crash(_, _) =>
    case Recover =>
  }

  lemma {:induction false} RunSeen(s: State, acts: seq<Action>)
    requires Inv(s) && AllSeen(s) && Run(s, acts)
    ensures AllSeen(After(s, acts))
    decreases |acts|
  {
    hide Inv, AllSeen, Enabled, Apply;
    if acts != [] {
      ActionKeeps(s, acts[0]);
      ActionSeen(s, acts[0]);
      RunSeen(Apply(s, acts[0]), acts[1..]);
    }
  }

  lemma {:induction false} ReachableSeen(s: State)
    requires Reachable(s)
    ensures Inv(s) && AllSeen(s)
  {
    var n: nat, m: nat, acts: seq<Action> :| Run(Init(n, m), acts) && After(Init(n, m), acts) == s;
    Tl2Crash.InitKeeps(n, m);
    assert AllSeen(Init(n, m));
    RunKeeps(Init(n, m), acts);
    RunSeen(Init(n, m), acts);
  }

  /** The cell a step of pload, pstore or the validation looks at. */
  predicate LooksAt(th: Thread, op: Op, a: Addr) {
    match th.pc
    case Active => op.Store? && a == op.sta
    case Loaded(la, _) => a == la
    case StoreSeq(sa, _, _) => a == sa
    case Validate(_) => a in th.rd
    case _ => false
  }

  /**
    No abort without a cause: a step turns to the rollback only if the cell it looks at, one the
    transaction has read in the case of validation, is locked by another thread or has a newer
    version of another thread.
  */
  lemma {:induction false} AbortHasCause(s: State, t: nat, op: Op)
    requires Reachable(s) && CanStep(s, t, op) && !s.threads[t].pc.Rollback?
    requires DoStep(s, t, op).threads[t].pc.Rollback?
    ensures exists a: Addr :: LooksAt(s.threads[t], op, a) && Conflict(s, t, a)
  {
    ReachableSeen(s);
    AbortCause(s, t, op);
  }

  lemma {:induction false} AbortCause(s: State, t: nat, op: Op)
    requires CanStep(s, t, op) && InvRunning(s) && SeenStill(s, t) && !s.threads[t].pc.Rollback?
    requires DoStep(s, t, op).threads[t].pc.Rollback?
    ensures exists a: Addr :: LooksAt(s.threads[t], op, a) && Conflict(s, t, a)
  {
    hide InvRunning, SeenStill, Conflict;
    var th := s.threads[t];
    if Storing(th.pc, op) {
      StoreIs(s, t, op);
      StoreCause(s, t, op.sta, op.stv);
      assert LooksAt(th, op, op.sta);
    } else if th.pc.Loaded? {
      LoadCause(s, t);
      assert LooksAt(th, op, th.pc.la);
    } else if th.pc.StoreSeq? {
      CasCause(s, t);
      assert LooksAt(th, op, th.pc.sa);
    } else if th.pc.Validate? {
      ValidateCause(s, t);
      EntryRead(s, t);
      assert LooksAt(th, op, th.readSet[th.pc.vi]);
    } else {
      NoOtherAborts(s, t, op);
    }
  }

  lemma {:induction false} EntryRead(s: State, t: nat)
    requires InvRunning(s) && t < |s.threads| && s.threads[t].pc.Validate?
    ensures forall a: Addr :: a in s.threads[t].rd <==> a in s.threads[t].readSet
  {
    Tl2Steps.ThreadFactsFromInv(s, t);
    hide InvRunning;
  }

  lemma {:induction false} NoOtherAborts(s: State, t: nat, op: Op)
    requires CanStep(s, t, op) && !Storing(s.threads[t].pc, op)
    requires var pc := s.threads[t].pc; !pc.Loaded? && !pc.StoreSeq? && !pc.Validate? && !pc.Rollback?
    ensures !DoStep(s, t, op).threads[t].pc.Rollback?
  {
    hide Shape, Addressed, FenceCells, FlushMarks, Ok, Cur;
  }
}
