/**
  The code of OneFile's transactions, run by one thread while the others take any steps
  between its accesses.  The loops have no bound of their own: they end because each retry
  uses up a step of somebody else.
*/
module OneFileCode {
  import opened OneFileModel
  import opened OneFileInv
  import opened OneFileProof

  /** What a thread can rely on while others run. */
  ghost predicate Rely(s: State, s': State, t: nat) {
    && Inv(s') && t < |s.threads| == |s'.threads| == |s.ws| == |s'.ws|
    && s'.threads[t] == s.threads[t] && s'.ws[t] == s.ws[t]
    && Alone(s, s', t)
  }

  /** From s to s', t has committed nothing. */
  ghost predicate Alone(s: State, s': State, t: nat) {
    Grows(s, s') && forall k | |s.hist| <= k < |s'.hist| :: s'.hist[k].idx != t
  }

  /** From s to s', t has committed transaction q and no other. */
  ghost predicate Only(s: State, s': State, t: nat, q: nat) {
    && Grows(s, s') && |s.hist| <= q < |s'.hist|
    && forall k | |s.hist| <= k < |s'.hist| :: s'.hist[k].idx == t <==> k == q
  }

  ghost predicate Grows(s: State, s': State) {
    && |s'.cells| == |s.cells| && |s'.threads| == |s.threads| && |s'.ws| == |s.ws| > 0
    && |s'.ws[0].log| == |s.ws[0].log|
    && |s.hist| <= |s'.hist| && s'.hist[..|s.hist|] == s.hist
  }

  lemma GrowsTrans(s: State, m: State, r: State)
    requires Grows(s, m) && Grows(m, r)
    ensures Grows(s, r)
  {
    assert forall q | 0 <= q < |s.hist| :: r.hist[..|m.hist|][q] == m.hist[..|s.hist|][q];
  }

  lemma AloneTrans(s: State, m: State, r: State, t: nat)
    requires Alone(s, m, t) && Alone(m, r, t)
    ensures Alone(s, r, t)
  {
    GrowsTrans(s, m, r);
    assert forall q | |s.hist| <= q < |m.hist| :: r.hist[q] == r.hist[..|m.hist|][q];
  }

  /** What t commits after it has committed nothing is all it has committed. */
  lemma OnlyAfter(s: State, m: State, r: State, t: nat, q: nat)
    requires Alone(s, m, t) && Only(m, r, t, q)
    ensures Only(s, r, t, q)
  {
    GrowsTrans(s, m, r);
    assert forall k | |s.hist| <= k < |m.hist| :: r.hist[k] == r.hist[..|m.hist|][k];
  }

  /** A successful CAS of curTx, with nothing else committed before and after. */
  lemma OnlyCas(s: State, b: State, m: State, r: State, t: nat)
    requires Alone(s, b, t) && Grows(b, m) && |m.hist| == |b.hist| + 1 && m.hist[|b.hist|].idx == t && Alone(m, r, t)
    ensures Only(s, r, t, |b.hist|)
  {
    GrowsTrans(b, m, r);
    GrowsTrans(s, b, r);
    assert forall k | |s.hist| <= k < |b.hist| :: r.hist[k] == r.hist[..|b.hist|][k];
    assert r.hist[|b.hist|] == r.hist[..|m.hist|][|b.hist|];
  }

  /** Only a successful CAS commits. */
  lemma StepAlone(s: State, u: nat, op: Op, t: nat)
    requires Inv(s) && CanStep(s, u, op) && (u != t || !s.threads[u].pc.CCas?)
    ensures Alone(s, DoStep(s, u, op), t)
  {
    StepGrows(s, u, op);
    hide Inv;
  }

  lemma StepGrows(s: State, t: nat, op: Op)
    requires Inv(s) && CanStep(s, t, op)
    ensures Grows(s, DoStep(s, t, op))
  {
  }

  lemma OtherStep(s: State, t: nat, u: nat, op: Op)
    requires Inv(s) && t < |s.threads| && t != u && CanStep(s, u, op)
    ensures Rely(s, DoStep(s, u, op), t)
  {
    hide Inv;
    StepKeeps(s, u, op);
    StepAlone(s, u, op, t);
  }

  /** What the code of thread t may ask for next. */
  predicate Allowed(s: State, t: nat, op: Op)
    requires t < |s.threads| == |s.ws| && s.ws[t].num <= |s.ws[t].log|
  {
    var pc := s.threads[t].pc;
    if pc.Idle? then op.Begin?
    else if pc.Active? then
      op.End? || (op.Load? && op.a < |s.cells|)
      || (op.Store? && op.sa < |s.cells| && CanAdd(s.ws[t], op.sa))
    else op.Go?
  }

  lemma AllowedCan(s: State, t: nat, op: Op)
    requires Inv(s) && Shape(s) && t < |s.threads| && Allowed(s, t, op)
    ensures CanStep(s, t, op)
  {
    hide Inv;
    ThreadFromInv(s, t);
    Shaped(s);
    if Helping(s.threads[t].pc) { KnownIdx(s, t); }
    match s.threads[t].pc
    case HApply(i) => if i < s.ws[t].num { EntryInLog(s, t, i); }
    case HVal(i, _) => EntryInLog(s, t, i);
    case HDcas(i, _, _) => EntryInLog(s, t, i);
    case Loaded(_, _) => LoadedInRange(s, t);
    case _ =>
  }

  lemma LoadedInRange(s: State, t: nat)
    requires Inv(s) && t < |s.threads| && s.threads[t].pc.Loaded?
    ensures s.threads[t].pc.la < |s.cells|
  {
    ThreadFromInv(s, t);
  }

  lemma KnownIdx(s: State, t: nat)
    requires Inv(s) && t < |s.threads| && Helping(s.threads[t].pc)
    ensures s.threads[t].hl.idx < |s.threads|
  {
    ThreadFromInv(s, t);
    assert RecOk(s, s.hist[s.threads[t].hl.sq]);
  }

  lemma Shaped(s: State)
    requires Inv(s)
    ensures Shape(s) && s.curTx.sq == |s.hist| - 1
  {
  }

  // ---------- transactions as functions ----------

  datatype Call = Read(a: Addr) | Write(wa: Addr, wv: Val) | Return

  /** A transaction's function: its next call may depend on every value it has seen so far. */
  type Code = seq<Val> -> Call

  /** The own last store to a, or else the value after transaction q. */
  function Seen(hist: seq<Rec>, q: nat, u: seq<Entry>, a: Addr): Val
    requires q < |hist|
  {
    if HasAddr(u, a) then u[IndexOf(u, a)].val else StateAt(hist, q, a)
  }

  /** Runs at most n calls of the function alone on the state after transaction q. */
  function Eval(code: Code, n: nat, hist: seq<Rec>, q: nat, u: seq<Entry>, out: seq<Val>): (seq<Entry>, seq<Val>)
    requires q < |hist|
  {
    if n == 0 then (u, out)
    else
      match code(out)
      case Return => (u, out)
      case Read(a) => Eval(code, n - 1, hist, q, u, out + [Seen(hist, q, u, a)])
      case Write(a, v) => Eval(code, n - 1, hist, q, AddTo(u, a, v), out + [v])
  }

  /** The function keeps to the memory and to the size of the write-set, whatever it loads. */
  ghost predicate Fits(code: Code, n: nat, u: seq<Entry>, out: seq<Val>, cells: nat, slots: nat) {
    n == 0 ||
    match code(out)
    case Return => true
    case Read(a) => a < cells && forall v: Val :: Fits(code, n - 1, u, out + [v], cells, slots)
    case Write(a, v) =>
      && a < cells && |u| < slots && (HasAddr(u, a) || |u| + 1 < slots)
      && Fits(code, n - 1, AddTo(u, a, v), out + [v], cells, slots)
  }

  lemma AddIsAddTo(w: WriteSet, a: Addr, v: Val)
    requires w.num < |w.log|
    ensures Used(Add(w, a, v)) == AddTo(Used(w), a, v)
  {
  }

  lemma {:induction false} StateGrows(hist: seq<Rec>, hist': seq<Rec>, q: nat, a: Addr)
    requires q < |hist| <= |hist'| && hist'[..|hist|] == hist
    ensures StateAt(hist', q, a) == StateAt(hist, q, a)
  {
    assert hist'[q] == hist'[..|hist|][q];
    if q > 0 {
      StateGrows(hist, hist', q - 1, a);
    }
  }

  lemma {:induction false} EvalGrows(code: Code, n: nat, hist: seq<Rec>, hist': seq<Rec>, q: nat, u: seq<Entry>,
                                     out: seq<Val>)
    requires q < |hist| <= |hist'| && hist'[..|hist|] == hist
    ensures Eval(code, n, hist', q, u, out) == Eval(code, n, hist, q, u, out)
  {
    if n > 0 {
      match code(out)
      case Return =>
      case Read(a) =>
        StateGrows(hist, hist', q, a);
        EvalGrows(code, n - 1, hist, hist', q, u, out + [Seen(hist, q, u, a)]);
      case Write(a, v) => EvalGrows(code, n - 1, hist, hist', q, AddTo(u, a, v), out + [v]);
    }
  }

  lemma SelfAlone(s: State, t: nat)
    requires Shape(s) && |s.ws| > 0
    ensures Alone(s, s, t)
  {
  }

  /** Transaction q is thread t's, has these stores, and is in memory. */
  ghost predicate Committed(s: State, t: nat, q: nat, log: seq<Entry>) {
    q < |s.hist| && s.hist[q].idx == t && s.hist[q].log == log && Applied(s, q)
  }

  /** Either an entry of the schedule is used up or curTx has not moved. */
  predicate Spent(n: nat, n': nat, c: Trans, c': Trans) {
    n' < n || (n' == n && c' == c)
  }

  /** However helpApply returns, its transaction is in memory. */
  lemma HelpReturns(s: State, t: nat)
    requires Inv(s) && CanStep(s, t, Go) && Helping(s.threads[t].pc) && !Helping(DoStep(s, t, Go).threads[t].pc)
    ensures Known(DoStep(s, t, Go), s.threads[t].hl) && Applied(DoStep(s, t, Go), s.threads[t].hl.sq)
  {
    hide OwnerOk, StateAt, DoLoad, CanAdd, ApplyOk, EntryAt;
    ThreadFromInv(s, t);
    var q := s.threads[t].hl.sq;
    if s.threads[t].pc.HClose? {
      PassedAll(s, t);
    }
    assert Applied(s, q);
    assert forall a: Addr | a < |s.cells| && HasAddr(s.hist[q].log, a) :: s.cells[a].sq >= q;
  }

  class OneFile {
    var st: State
    /** What the other threads attempt before each of our next accesses. */
    var schedule: seq<seq<(nat, Op)>>

    constructor (cells: nat, threads: nat, stores: nat, schedule: seq<seq<(nat, Op)>>)
      requires threads > 0
      ensures Inv(st) && st == Init(cells, threads, stores)
    {
      st := Init(cells, threads, stores);
      this.schedule := schedule;
      new;
      InitKeeps(cells, threads, stores);
    }

    method Others(t: nat)
      requires Inv(st) && t < |st.threads|
      modifies this
      ensures Rely(old(st), st, t)
      ensures |schedule| < old(|schedule|) || (schedule == [] && st == old(st))
    {
      hide Inv;
      Shaped(st);
      if schedule == [] {
        return;
      }
      var todo := schedule[0];
      schedule := schedule[1..];
      for i := 0 to |todo|
        invariant Rely(old(st), st, t) && |schedule| < old(|schedule|)
      {
        var (u, op) := todo[i];
        if u != t && CanStep(st, u, op) {
          OtherStep(st, t, u, op);
          AloneTrans(old(st), st, DoStep(st, u, op), t);
          st := DoStep(st, u, op);
        }
      }
    }

    /** The others run, then thread t makes its next access, in state s. */
    method Access(t: nat, op: Op, ghost base: State) returns (ghost s: State)
      requires Inv(st) && Shape(st) && t < |st.threads| && Allowed(st, t, op) && Alone(base, st, t)
      modifies this
      ensures Rely(old(st), s, t) && CanStep(s, t, op) && Inv(st) && st == DoStep(s, t, op)
      ensures Shape(st) && Grows(s, st) && Alone(base, s, t) && s.curTx.sq == |s.hist| - 1
      ensures !old(st.threads[t]).pc.CCas? ==> Alone(base, st, t)
      ensures |schedule| < old(|schedule|) || (schedule == [] && s == old(st))
    {
      Others(t);
      hide Inv;
      s := st;
      AllowedCan(st, t, op);
      StepKeeps(st, t, op);
      StepGrows(st, t, op);
      AloneTrans(base, old(st), s, t);
      if !s.threads[t].pc.CCas? {
        StepAlone(s, t, op, t);
        AloneTrans(base, s, DoStep(s, t, op), t);
      }
      st := DoStep(st, t, op);
      Shaped(s);
      Shaped(st);
    }

    /** Copies another thread's write-set; leaves when the transaction turns out closed. */
    method CopyWriteSet(t: nat, ghost base: State)
      requires Inv(st) && Shape(st) && t < |st.threads| && Alone(base, st, t)
      requires st.threads[t].pc.HCopyNum? && !st.threads[t].commit
      modifies this
      ensures Inv(st) && Shape(st) && Alone(base, st, t)
      ensures st.threads[t] == old(st.threads[t]).(pc := st.threads[t].pc)
      ensures st.threads[t].pc.BeginReset? || st.threads[t].pc == HApply(0)
      ensures st.threads[t].pc.BeginReset? ==> Applied(st, st.threads[t].hl.sq)
      ensures Spent(old(|schedule|), |schedule|, old(st.curTx), st.curTx)
    {
      hide Known, CanStep, DoLoaded, DoApply, Shape, CanAdd, DoLoad, EntryAt, IndexOf, Applied, DoRequest,
        DoBeginCheck, DoStore, Inv;
      ghost var s := Access(t, Go, base);
      var n := st.ws[t].num;
      for i := 0 to n
        invariant Inv(st) && Shape(st) && Alone(base, st, t)
        invariant st.threads[t] == old(st.threads[t]).(pc := HCopy(i)) && st.ws[t].num == n
        invariant Spent(old(|schedule|), |schedule|, old(st.curTx), st.curTx)
      {
        s := Access(t, Go, base);
      }
      s := Access(t, Go, base);
      s := Access(t, Go, base);           // curTx
      if st.threads[t].pc.HRequest2? {
        s := Access(t, Go, base);         // request
      }
      if st.threads[t].pc.BeginReset? {
        HelpReturns(s, t);
      }
    }

    /** One entry of the write-set: two loads and, if the cell is older, a DCAS. */
    method ApplyEntry(t: nat, i: nat, ghost base: State)
      requires Inv(st) && Shape(st) && t < |st.threads| && Alone(base, st, t)
      requires st.threads[t].pc == HApply(i) && i < st.ws[t].num
      modifies this
      ensures Inv(st) && Shape(st) && Alone(base, st, t)
      ensures st.threads[t] == old(st.threads[t]).(pc := HApply(i + 1)) && st.ws[t] == old(st.ws[t])
      ensures Spent(old(|schedule|), |schedule|, old(st.curTx), st.curTx)
    {
      hide Grows, CanStep, EntryAt, Inv;
      ghost var s := Access(t, Go, base); // val
      s := Access(t, Go, base);           // seq
      if st.threads[t].pc.HDcas? {
        s := Access(t, Go, base);         // DCAS
      }
    }

    /** WriteSet::apply and the close of the request. */
    method ApplyWriteSet(t: nat, ghost base: State)
      requires Inv(st) && Shape(st) && t < |st.threads| && Alone(base, st, t) && st.threads[t].pc == HApply(0)
      modifies this
      ensures Inv(st) && Shape(st) && Alone(base, st, t)
      ensures st.threads[t] == old(st.threads[t]).(pc := st.threads[t].pc)
      ensures st.threads[t].pc == if st.threads[t].commit then Idle else BeginReset
      ensures Applied(st, st.threads[t].hl.sq)
      ensures Spent(old(|schedule|), |schedule|, old(st.curTx), st.curTx)
    {
      hide IndexOf, DoReset, DoLoad, DoCas, Inv;
      hide Applied;
      var n := st.ws[t].num;
      for i := 0 to n
        invariant Inv(st) && Shape(st) && t < |st.threads| && Alone(base, st, t)
        invariant st.threads[t] == old(st.threads[t]).(pc := HApply(i)) && st.ws[t].num == n
        invariant Spent(old(|schedule|), |schedule|, old(st.curTx), st.curTx)
      {
        ApplyEntry(t, i, base);
      }
      ghost var s := Access(t, Go, base);
      s := Access(t, Go, base);           // CAS of the request
      HelpReturns(s, t);
    }

    /** helpApply, called by beginTx or by commitTx. */
    method HelpApply(t: nat, ghost base: State)
      requires Inv(st) && Shape(st) && t < |st.threads| && Alone(base, st, t) && st.threads[t].pc.HRequest?
      modifies this
      ensures Inv(st) && Shape(st) && Alone(base, st, t)
      ensures st.threads[t] == old(st.threads[t]).(pc := st.threads[t].pc)
      ensures st.threads[t].pc == if st.threads[t].commit then Idle else BeginReset
      ensures Applied(st, st.threads[t].hl.sq)
      ensures Spent(old(|schedule|), |schedule|, old(st.curTx), st.curTx)
    {
      hide Inv;
      ghost var s := Access(t, Go, base);
      if !Helping(st.threads[t].pc) {
        HelpReturns(s, t);
      }
      if st.threads[t].pc.HCopyNum? {
        NotOwn(st, t);
        CopyWriteSet(t, base);
      }
      if st.threads[t].pc.HApply? {
        ApplyWriteSet(t, base);
      }
    }

    /** Ends because another thread must have committed for each time around. */
    method BeginTx(t: nat, ghost base: State)
      requires Inv(st) && Shape(st) && t < |st.threads| && Alone(base, st, t) && st.threads[t].pc.BeginLoad?
      modifies this
      ensures Inv(st) && Shape(st) && Alone(base, st, t)
      ensures st.threads[t].pc.Active? && st.ws[t].num == 0 && st.threads[t].rd == map[]
      ensures st.threads[t].my == st.curTx && AppliedUpTo(st, st.curTx.sq)
      ensures |schedule| <= old(|schedule|)
    {
      hide Inv;
      ghost var s;
      while true
        invariant Inv(st) && Shape(st) && t < |st.threads| && Alone(base, st, t)
        invariant st.threads[t].pc.BeginLoad? && |schedule| <= old(|schedule|)
        decreases |schedule|
      {
        s := Access(t, Go, base);         // curTx
        HelpApply(t, base);
        s := Access(t, Go, base);         // numStores := 0
        s := Access(t, Go, base);         // curTx again
        if st.threads[t].pc.Active? {
          Begun(s, st, t);
          return;
        }
      }
    }

    /** tmtype::pload: the value, or AbortedTx when a newer transaction wrote the cell. */
    method Pload(t: nat, a: Addr, ghost base: State) returns (v: Val, ok: bool)
      requires Inv(st) && Shape(st) && t < |st.threads| && Alone(base, st, t)
      requires st.threads[t].pc.Active? && a < |st.cells|
      modifies this
      ensures Inv(st) && Shape(st) && Alone(base, st, t)
      ensures st.ws[t] == old(st.ws[t]) && st.threads[t].my == old(st.threads[t].my)
      ensures ok ==> st.threads[t].pc.Active? && st.threads[t].my.sq < |st.hist|
      ensures ok ==> v == Seen(st.hist, st.threads[t].my.sq, Used(st.ws[t]), a)
      ensures !ok ==> st.threads[t].pc.BeginLoad? && st.curTx.sq > st.threads[t].my.sq
      ensures Spent(old(|schedule|), |schedule|, old(st.curTx), st.curTx)
    {
      hide Inv;
      ghost var s := Access(t, Load(a), base);
      var lval := st.threads[t].pc.lv;
      s := Access(t, Go, base);
      ok := st.threads[t].pc.Active?;
      if !ok {
        Retried(s, t);
        return lval, false;
      }
      LoadedValue(s, t);
      var u := Used(st.ws[t]);
      if HasAddr(u, a) {                  // lookupAddr
        v := u[IndexOf(u, a)].val;
      } else {
        v := lval;
      }
    }

    method Pstore(t: nat, a: Addr, v: Val, ghost base: State)
      requires Inv(st) && Shape(st) && t < |st.threads| && Alone(base, st, t)
      requires st.threads[t].pc.Active? && a < |st.cells| && CanAdd(st.ws[t], a)
      modifies this
      ensures Inv(st) && Shape(st) && Alone(base, st, t) && st.threads[t] == old(st.threads[t])
      ensures Used(st.ws[t]) == AddTo(Used(old(st.ws[t])), a, v)
      ensures Spent(old(|schedule|), |schedule|, old(st.curTx), st.curTx)
    {
      hide Inv;
      ghost var s := Access(t, Store(a, v), base);
      AddIsAddTo(s.ws[t], a, v);
    }

    /** The CAS of curTx, and after it helpApply. */
    method CasAndApply(t: nat, ghost base: State) returns (ok: bool)
      requires Inv(st) && Shape(st) && t < |st.threads| && Alone(base, st, t) && st.threads[t].pc.CCas?
      modifies this
      ensures Inv(st) && Shape(st) && Grows(base, st)
      ensures st.threads[t].my == old(st.threads[t].my)
      ensures ok ==> st.threads[t].pc.Idle? && Committed(st, t, old(st.threads[t].my.sq) + 1, Used(old(st.ws[t])))
      ensures ok ==> Only(base, st, t, old(st.threads[t].my.sq) + 1)
      ensures !ok ==> Alone(base, st, t) && st.threads[t].pc.BeginLoad? && st.curTx.sq > st.threads[t].my.sq
      ensures !ok ==> Spent(old(|schedule|), |schedule|, old(st.curTx), st.curTx)
    {
      hide RecOk, Copying, Applied, DoApply, DoLoaded, DoHRequest, Inv;
      ghost var s := Access(t, Go, base);
      if st.threads[t].pc.BeginLoad? {
        Retried(s, t);
        return false;
      }
      NextRec(s, t);
      ghost var mid := st;
      SelfAlone(mid, t);
      HelpApply(t, mid);
      OnlyCas(base, s, mid, st, t);
      ok := true;
    }

    /** commitTx: true once the write-set is the next transaction and is in memory. */
    method CommitTx(t: nat, ghost base: State) returns (ok: bool)
      requires Inv(st) && Shape(st) && t < |st.threads| && Alone(base, st, t) && st.threads[t].pc.Active?
      modifies this
      ensures Inv(st) && Shape(st) && Grows(base, st)
      ensures st.threads[t].my == old(st.threads[t].my)
      ensures ok ==> st.threads[t].pc.Idle?
      ensures ok && old(st.ws[t].num) > 0 ==>
        Committed(st, t, old(st.threads[t].my.sq) + 1, Used(old(st.ws[t])))
        && Only(base, st, t, old(st.threads[t].my.sq) + 1)
      ensures !ok || old(st.ws[t].num) == 0 ==> Alone(base, st, t)
      ensures !ok ==> st.threads[t].pc.BeginLoad? && st.curTx.sq > st.threads[t].my.sq
      ensures !ok ==> Spent(old(|schedule|), |schedule|, old(st.curTx), st.curTx)
    {
      hide Grows, RecOk, Copying, Applied, DoApply, DoLoaded, DoHRequest, Inv;
      ghost var s := Access(t, End, base);
      if st.threads[t].pc.Idle? {
        return true;
      }
      s := Access(t, Go, base);           // curTx
      if st.threads[t].pc.BeginLoad? {
        Retried(s, t);
        return false;
      }
      s := Access(t, Go, base);           // request := OPEN
      ok := CasAndApply(t, base);
    }

    /** One call the transaction's function makes. */
    method RunCall(t: nat, code: Code, n: nat, out: seq<Val>, ghost base: State) returns (v: Val, ok: bool)
      requires Inv(st) && Shape(st) && t < |st.threads| && Alone(base, st, t)
      requires st.threads[t].pc.Active? && st.threads[t].my.sq < |st.hist|
      requires n > 0 && !code(out).Return? && Fits(code, n, Used(st.ws[t]), out, |st.cells|, |st.ws[t].log|)
      modifies this
      ensures Inv(st) && Shape(st) && Alone(base, st, t) && Alone(old(st), st, t)
      ensures st.threads[t].my == old(st.threads[t].my)
      ensures ok ==>
        && st.threads[t].pc.Active? && Fits(code, n - 1, Used(st.ws[t]), out + [v], |st.cells|, |st.ws[t].log|)
        && Eval(code, n - 1, st.hist, st.threads[t].my.sq, Used(st.ws[t]), out + [v])
           == Eval(code, n, st.hist, st.threads[t].my.sq, Used(old(st.ws[t])), out)
      ensures !ok ==> st.threads[t].pc.BeginLoad? && st.curTx.sq > st.threads[t].my.sq
      ensures Spent(old(|schedule|), |schedule|, old(st.curTx), st.curTx)
    {
      hide Inv;
      ghost var was := st;
      SelfAlone(was, t);
      match code(out)
      case Read(a) => v, ok := Pload(t, a, was);
      case Write(a, w) => Pstore(t, a, w, was); v, ok := w, true;
      AloneTrans(base, was, st, t);
      if ok {
        EvalOne(code, n, st.hist, st.threads[t].my.sq, Used(was.ws[t]), out, v, Used(st.ws[t]));
      }
    }

    /** The transaction's function: it ran as if alone on the state after transaction my.sq. */
    method RunBody(t: nat, code: Code, calls: nat, ghost base: State) returns (out: seq<Val>, ok: bool)
      requires Inv(st) && Shape(st) && t < |st.threads| && Alone(base, st, t)
      requires st.threads[t].pc.Active? && st.ws[t].num == 0 && st.threads[t].my.sq < |st.hist|
      requires Fits(code, calls, [], [], |st.cells|, |st.ws[t].log|)
      modifies this
      ensures Inv(st) && Shape(st) && Alone(base, st, t) && st.threads[t].my == old(st.threads[t].my)
      ensures ok ==>
        && st.threads[t].pc.Active? && st.threads[t].my.sq < |st.hist|
        && Eval(code, calls, st.hist, st.threads[t].my.sq, [], []) == (Used(st.ws[t]), out)
      ensures !ok ==> st.threads[t].pc.BeginLoad? && st.curTx.sq > st.threads[t].my.sq
      ensures Spent(old(|schedule|), |schedule|, old(st.curTx), st.curTx)
    {
      hide Eval, Inv;
      hide Fits;
      var n := calls;
      out := [];
      ghost var q := st.threads[t].my.sq;
      while n > 0 && !code(out).Return?
        invariant Inv(st) && Shape(st) && t < |st.threads| && Alone(base, st, t)
        invariant st.threads[t].pc.Active? && st.threads[t].my == old(st.threads[t].my) && q < |st.hist|
        invariant Fits(code, n, Used(st.ws[t]), out, |st.cells|, |st.ws[t].log|)
        invariant Ran(code, calls, n, st.hist, q, Used(st.ws[t]), out)
        invariant Spent(old(|schedule|), |schedule|, old(st.curTx), st.curTx)
      {
        ghost var was := st;
        var v;
        v, ok := RunCall(t, code, n, out, base);
        if !ok {
          return;
        }
        RanOn(code, calls, n, was, st, q, Used(was.ws[t]), out, Used(st.ws[t]), v);
        n, out := n - 1, out + [v];
      }
      RanAll(code, calls, n, st.hist, q, Used(st.ws[t]), out);
      ok := true;
    }

    /**
      transaction: retries until the function has run and its stores are committed.  The result is
      that of the function run alone on the state after some transaction, and its stores, if any,
      are the very next transaction.
    */
    method Transaction(t: nat, code: Code, calls: nat) returns (out: seq<Val>, ghost q: nat)
      requires Inv(st) && Shape(st) && t < |st.threads| && st.threads[t].pc.Idle?
      requires Fits(code, calls, [], [], |st.cells|, |st.ws[t].log|)
      modifies this
      ensures Inv(st) && Shape(st) && Grows(old(st), st) && st.threads[t].pc.Idle?
      ensures |old(st).hist| - 1 <= q < |st.hist|
      ensures var r := Eval(code, calls, st.hist, q, [], []);
        && out == r.1
        && if r.0 == [] then Alone(old(st), st, t) else Committed(st, t, q + 1, r.0) && Only(old(st), st, t, q + 1)
    {
      hide Fits, Applying, TxOk, Distinct, Copying, InTx, DoBeginCheck, DoCopy, Helping, AppliedUpTo, CellsOk, Eval,
        Inv;
      ghost var base := st;
      SelfAlone(base, t);
      ghost var s := Access(t, Begin, base);
      while true
        invariant Inv(st) && Shape(st) && t < |st.threads| && Alone(base, st, t) && st.threads[t].pc.BeginLoad?
        decreases |schedule|
      {
        BeginTx(t, base);
        LastKnown(st);
        q := st.threads[t].my.sq;
        var ok;
        out, ok := RunBody(t, code, calls, base);
        if ok {
          ghost var was := st;
          SelfAlone(was, t);
          ok := CommitTx(t, was);
          if ok && was.ws[t].num > 0 {
            OnlyAfter(base, was, st, t, q + 1);
          } else {
            AloneTrans(base, was, st, t);
          }
          if ok {
            EvalGrows(code, calls, was.hist, st.hist, q, [], []);
            return;
          }
        }
      }
    }
  }

  lemma LastKnown(s: State)
    requires Inv(s)
    ensures s.curTx.sq == |s.hist| - 1
  {
  }

  /** What one call returns, and the stores after it. */
  predicate CallOf(c: Call, hist: seq<Rec>, q: nat, u: seq<Entry>, v: Val, u': seq<Entry>)
    requires q < |hist|
  {
    match c
    case Return => false
    case Read(a) => v == Seen(hist, q, u, a) && u' == u
    case Write(a, w) => v == w && u' == AddTo(u, a, w)
  }

  lemma EvalOne(code: Code, n: nat, hist: seq<Rec>, q: nat, u: seq<Entry>, out: seq<Val>, v: Val, u': seq<Entry>)
    requires q < |hist| && n > 0 && CallOf(code(out), hist, q, u, v, u')
    ensures Eval(code, n, hist, q, u, out) == Eval(code, n - 1, hist, q, u', out + [v])
  {
  }

  /** With n of the calls to go, the function has so far run as if alone. */
  predicate Ran(code: Code, calls: nat, n: nat, hist: seq<Rec>, q: nat, u: seq<Entry>, out: seq<Val>)
    requires q < |hist|
  {
    Eval(code, calls, hist, q, [], []) == Eval(code, n, hist, q, u, out)
  }

  lemma RanOn(code: Code, calls: nat, n: nat, s: State, s': State, q: nat, u: seq<Entry>, out: seq<Val>,
              u': seq<Entry>, v: Val)
    requires Grows(s, s') && q < |s.hist| && n > 0 && Ran(code, calls, n, s.hist, q, u, out)
    requires Eval(code, n - 1, s'.hist, q, u', out + [v]) == Eval(code, n, s'.hist, q, u, out)
    ensures Ran(code, calls, n - 1, s'.hist, q, u', out + [v])
  {
    EvalGrows(code, calls, s.hist, s'.hist, q, [], []);
    EvalGrows(code, n, s.hist, s'.hist, q, u, out);
  }

  lemma RanAll(code: Code, calls: nat, n: nat, hist: seq<Rec>, q: nat, u: seq<Entry>, out: seq<Val>)
    requires q < |hist| && Ran(code, calls, n, hist, q, u, out) && (n == 0 || code(out).Return?)
    ensures Eval(code, calls, hist, q, [], []) == (u, out)
  {
  }

  lemma NotOwn(s: State, t: nat)
    requires Inv(s) && t < |s.threads| && s.threads[t].pc.HCopyNum?
    ensures !s.threads[t].commit
  {
    ThreadFromInv(s, t);
  }

  lemma Begun(s: State, s': State, t: nat)
    requires Inv(s) && Inv(s') && CanStep(s, t, Go) && s.threads[t].pc.BeginCheck?
    requires s' == DoBeginCheck(s, t) && s'.threads[t].pc.Active?
    ensures s'.ws[t].num == 0 && s'.threads[t].my == s'.curTx && AppliedUpTo(s', s'.curTx.sq)
  {
    ThreadFromInv(s, t);
    ThreadFromInv(s', t);
  }

  /** A transaction starts over only when another one has been committed since it began. */
  lemma Retried(s: State, t: nat)
    requires Inv(s) && CanStep(s, t, Go) && InTx(s.threads[t].pc) && DoStep(s, t, Go).threads[t].pc.BeginLoad?
    ensures DoStep(s, t, Go).curTx.sq > s.threads[t].my.sq
  {
    ThreadFromInv(s, t);
  }

  lemma NextRec(s: State, t: nat)
    requires Inv(s) && CanStep(s, t, Go) && s.threads[t].pc.CCas? && s.curTx == s.threads[t].my
    ensures var s', q := DoCas(s, t), s.threads[t].my.sq + 1;
      |s'.hist| == q + 1 && s'.hist[q] == Rec(t, Used(s.ws[t]), s.threads[t].rd) && s'.threads[t].hl.sq == q
  {
    ThreadFromInv(s, t);
  }
}
