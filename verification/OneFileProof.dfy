/** Every step of OneFile keeps the invariant. */
module OneFileProof {
  import opened OneFileModel
  import opened OneFileInv

  /** A step that changes nothing shared but t's own write-set. */
  ghost predicate Own(s: State, s': State, t: nat) {
    && t < |s.threads| == |s'.threads| == |s.ws| == |s'.ws|
    && s' == s.(threads := s'.threads, ws := s'.ws)
    && (forall u | 0 <= u < |s.threads| && u != t :: s'.threads[u] == s.threads[u] && s'.ws[u] == s.ws[u])
    && s'.ws[t].num <= |s'.ws[t].log| == |s.ws[t].log|
  }

  lemma OwnHist(s: State, s': State, t: nat)
    requires Own(s, s', t) && HistOk(s)
    ensures HistOk(s')
  {
    forall q | 0 <= q < |s'.hist| ensures RecOk(s', s'.hist[q]) && OpenAt(s', q) == OpenAt(s, q) {
      assert RecOk(s, s.hist[q]);
    }
  }

  lemma OwnCells(s: State, s': State, t: nat)
    requires Own(s, s', t) && CellsOk(s)
    ensures CellsOk(s')
  {
    forall q: nat | q < |s'.hist| ensures OpenAt(s', q) == OpenAt(s, q) && Applied(s', q) == Applied(s, q) {
    }
  }

  lemma OwnOthers(s: State, s': State, t: nat, u: nat)
    requires Own(s, s', t) && u < |s.threads| && u != t && HistOk(s) && s.ws[u].num <= |s.ws[u].log| && ThreadOk(s, u)
    ensures ThreadOk(s', u)
  {
    hide HistOk, Distinct;
    forall q: nat ensures OpenAt(s', q) == OpenAt(s, q) && Applied(s', q) == Applied(s, q) {
    }
  }

  lemma OwnOwner(s: State, s': State, t: nat)
    requires Own(s, s', t) && OwnerOk(s) && s.curTx == Trans(|s.hist| - 1, s.hist[|s.hist| - 1].idx)
    requires OpenAt(s, |s.hist| - 1) && s.curTx.idx == t ==>
      && Used(s'.ws[t]) == Used(s.ws[t])
      && s'.threads[t].commit && s'.threads[t].hl == s.threads[t].hl
      && (s'.threads[t].pc.HRequest? || Applying(s'.threads[t].pc))
    ensures OwnerOk(s')
  {
  }

  lemma OwnKeeps(s: State, s': State, t: nat)
    requires Inv(s) && Own(s, s', t) && ThreadOk(s', t)
    requires OpenAt(s, |s.hist| - 1) && s.curTx.idx == t ==>
      && Used(s'.ws[t]) == Used(s.ws[t])
      && s'.threads[t].commit && s'.threads[t].hl == s.threads[t].hl
      && (s'.threads[t].pc.HRequest? || Applying(s'.threads[t].pc))
    ensures Inv(s')
  {
    assert s.curTx == Trans(|s.hist| - 1, s.hist[|s.hist| - 1].idx);
    hide HistOk, CellsOk, OwnerOk, ThreadOk, CommitsOk;
    OwnHist(s, s', t);
    OwnCells(s, s', t);
    OwnOwner(s, s', t);
    forall u: nat | u < |s'.threads| ensures ThreadOk(s', u) {
      if u != t {
        OwnOthers(s, s', t, u);
      }
    }
  }

  /** The thread whose transaction asks for help is busy applying it. */
  lemma OwnerBusy(s: State, t: nat)
    requires Inv(s) && t < |s.threads|
    requires !s.threads[t].commit || !(s.threads[t].pc.HRequest? || Applying(s.threads[t].pc))
    ensures OpenAt(s, |s.hist| - 1) ==> s.curTx.idx != t
  {
  }

  lemma OpenIsLast(s: State, q: nat)
    requires Inv(s) && OpenAt(s, q)
    ensures q == |s.hist| - 1
  {
  }

  // ---------- helping ----------

  lemma ThreadFromInv(s: State, t: nat)
    requires Inv(s) && t < |s.threads|
    ensures ThreadOk(s, t)
    ensures OpenAt(s, |s.hist| - 1) && s.curTx.idx == t ==> s.threads[t].commit
  {
  }

  /** Only the owner of an open transaction finds its own request unchanged. */
  lemma OwnRequest(s: State, t: nat)
    requires Inv(s) && CanStep(s, t, Go) && s.threads[t].pc.HRequest?
    requires s.request[s.threads[t].hl.idx] == s.threads[t].hl && s.threads[t].hl.idx == t
    ensures s.threads[t].commit
  {
    assert ThreadOk(s, t);
    assert OpenAt(s, s.threads[t].hl.sq);
    OpenIsLast(s, s.threads[t].hl.sq);
  }

  lemma HRequestThread(s: State, t: nat)
    requires CanStep(s, t, Go) && s.threads[t].pc.HRequest? && ThreadOk(s, t)
    requires forall i | 0 <= i < |s.request| :: s.request[i].sq != 1
    requires s.request[s.threads[t].hl.idx] == s.threads[t].hl && s.threads[t].hl.idx == t ==> s.threads[t].commit
    ensures ThreadOk(DoHRequest(s, t), t)
  {
  }

  lemma HRequestKeeps(s: State, t: nat)
    requires Inv(s) && CanStep(s, t, Go) && s.threads[t].pc.HRequest?
    ensures Inv(DoHRequest(s, t))
  {
    var s' := DoHRequest(s, t);
    var th := s.threads[t];
    ThreadFromInv(s, t);
    if s.request[th.hl.idx] == th.hl && th.hl.idx == t {
      OwnRequest(s, t);
    }
    HRequestThread(s, t);
    HRequestOwner(s, t);
    OwnKeeps(s, s', t);
  }

  lemma HRequestOwner(s: State, t: nat)
    requires Inv(s) && CanStep(s, t, Go) && s.threads[t].pc.HRequest?
    ensures OpenAt(s, |s.hist| - 1) && s.curTx.idx == t ==> s.threads[t].commit && DoHRequest(s, t).threads[t].pc.HApply?
  {
  }

  lemma CopyNumKeeps(s: State, t: nat)
    requires Inv(s) && CanStep(s, t, Go) && s.threads[t].pc.HCopyNum?
    ensures Inv(DoCopyNum(s, t))
  {
    var s' := DoCopyNum(s, t);
    assert ThreadOk(s, t);
    OwnerBusy(s, t);
    assert OpenAt(s', s.threads[t].hl.sq) == OpenAt(s, s.threads[t].hl.sq);
    assert ThreadOk(s', t);
    OwnKeeps(s, s', t);
  }

  lemma CopyKeeps(s: State, t: nat)
    requires Inv(s) && CanStep(s, t, Go) && s.threads[t].pc.HCopy?
    ensures Inv(DoCopy(s, t))
  {
    hide RecOk, HistOk, Applied;
    var s' := DoCopy(s, t);
    var c := s.hist[|s.hist| - 1];
    assert ThreadOk(s, t);
    OwnerBusy(s, t);
    assert OpenAt(s', s.threads[t].hl.sq) == OpenAt(s, s.threads[t].hl.sq);
    if OpenAt(s, s.threads[t].hl.sq) {
      OpenIsLast(s, s.threads[t].hl.sq);
      assert forall i | 0 <= i < |c.log| :: Used(s.ws[c.idx])[i] == s.ws[c.idx].log[i];
    }
    assert ThreadOk(s', t);
    OwnKeeps(s, s', t);
  }

  lemma HCurTxKeeps(s: State, t: nat)
    requires Inv(s) && CanStep(s, t, Go) && s.threads[t].pc.HCurTx?
    ensures Inv(DoHCurTx(s, t))
  {
    var s' := DoHCurTx(s, t);
    assert ThreadOk(s, t);
    OwnerBusy(s, t);
    assert OpenAt(s', s.threads[t].hl.sq) == OpenAt(s, s.threads[t].hl.sq);
    assert ThreadOk(s', t);
    OwnKeeps(s, s', t);
  }

  lemma HRequest2Keeps(s: State, t: nat)
    requires Inv(s) && CanStep(s, t, Go) && s.threads[t].pc.HRequest2?
    ensures Inv(DoHRequest2(s, t))
  {
    var s' := DoHRequest2(s, t);
    var th := s.threads[t];
    assert ThreadOk(s, t);
    OwnerBusy(s, t);
    assert OpenAt(s', th.hl.sq) == OpenAt(s, th.hl.sq);
    if OpenAt(s, th.hl.sq) {
      assert Used(s.ws[t]) == s.hist[th.hl.sq].log;
    }
    assert ThreadOk(s', t);
    OwnKeeps(s, s', t);
  }

  /** The entry a helper is at belongs to the transaction it helps. */
  lemma EntryInLog(s: State, t: nat, i: nat)
    requires Inv(s) && t < |s.threads| && Applying(s.threads[t].pc) && i < s.ws[t].num
    ensures s.threads[t].hl.sq < |s.hist|
    ensures var e := EntryAt(s.ws[t], t, i); var log := s.hist[s.threads[t].hl.sq].log;
      && e.addr < |s.cells| && HasAddr(log, e.addr) && log[IndexOf(log, e.addr)] == e
  {
    assert ThreadOk(s, t);
    var log := s.hist[s.threads[t].hl.sq].log;
    var j := (t * 8 + i) % s.ws[t].num;
    assert RecOk(s, s.hist[s.threads[t].hl.sq]);
    assert Used(s.ws[t])[j] == s.ws[t].log[j];
    assert log[j] == EntryAt(s.ws[t], t, i);
  }

  lemma ApplyThread(s: State, t: nat)
    requires CanStep(s, t, Go) && s.threads[t].pc.HApply? && ThreadOk(s, t)
    ensures ThreadOk(DoApply(s, t), t)
  {
  }

  lemma ApplyKeeps(s: State, t: nat)
    requires Inv(s) && CanStep(s, t, Go) && s.threads[t].pc.HApply?
    ensures Inv(DoApply(s, t))
  {
    hide Inv, ThreadOk;
    ThreadFromInv(s, t);
    ApplyThread(s, t);
    OwnKeeps(s, DoApply(s, t), t);
  }

  lemma HValThread(s: State, t: nat)
    requires CanStep(s, t, Go) && s.threads[t].pc.HVal? && ThreadOk(s, t)
    ensures ThreadOk(DoHVal(s, t), t)
  {
  }

  lemma HValKeeps(s: State, t: nat)
    requires Inv(s) && CanStep(s, t, Go) && s.threads[t].pc.HVal?
    ensures Inv(DoHVal(s, t))
  {
    hide Inv, ThreadOk;
    ThreadFromInv(s, t);
    HValThread(s, t);
    OwnKeeps(s, DoHVal(s, t), t);
  }

  // ---------- transactions ----------

  lemma BeginLoadKeeps(s: State, t: nat)
    requires Inv(s) && CanStep(s, t, Go) && s.threads[t].pc.BeginLoad?
    ensures Inv(DoBeginLoad(s, t))
  {
    OwnerBusy(s, t);
    OwnKeeps(s, DoBeginLoad(s, t), t);
  }

  lemma ResetKeeps(s: State, t: nat)
    requires Inv(s) && CanStep(s, t, Go) && s.threads[t].pc.BeginReset?
    ensures Inv(DoReset(s, t))
  {
    var s' := DoReset(s, t);
    assert ThreadOk(s, t);
    OwnerBusy(s, t);
    assert OpenAt(s', s.threads[t].my.sq) == OpenAt(s, s.threads[t].my.sq);
    OwnKeeps(s, s', t);
  }

  lemma BeginCheckThread(s: State, t: nat)
    requires Inv(s) && CanStep(s, t, Go) && s.threads[t].pc.BeginCheck?
    ensures Own(s, DoBeginCheck(s, t), t) && ThreadOk(DoBeginCheck(s, t), t)
  {
    hide ApplyOk, HasAddr;
    var s' := DoBeginCheck(s, t);
    assert ThreadOk(s, t);
    assert forall p: nat :: Applied(s, p) ==> Applied(s', p);
    assert OpenAt(s', s.threads[t].my.sq) == OpenAt(s, s.threads[t].my.sq);
  }

  lemma BeginCheckKeeps(s: State, t: nat)
    requires Inv(s) && CanStep(s, t, Go) && s.threads[t].pc.BeginCheck?
    ensures Inv(DoBeginCheck(s, t))
  {
    OwnerBusy(s, t);
    BeginCheckThread(s, t);
    hide Inv, ThreadOk, Own;
    OwnKeeps(s, DoBeginCheck(s, t), t);
  }

  lemma {:induction false} StateSkip(hist: seq<Rec>, lo: nat, hi: nat, a: Addr)
    requires lo <= hi < |hist|
    requires forall p | lo < p <= hi :: !HasAddr(hist[p].log, a)
    ensures StateAt(hist, hi, a) == StateAt(hist, lo, a)
  {
    if lo < hi {
      StateSkip(hist, lo, hi - 1, a);
    }
  }

  /** A pload that does not abort took the value after transaction my.sq. */
  lemma LoadedValue(s: State, t: nat)
    requires Inv(s) && CanStep(s, t, Go) && s.threads[t].pc.Loaded? && !LoadAborts(s, t)
    ensures s.threads[t].my.sq < |s.hist|
    ensures s.threads[t].pc.lv == StateAt(s.hist, s.threads[t].my.sq, s.threads[t].pc.la)
  {
    var th := s.threads[t];
    var a := th.pc.la;
    assert ThreadOk(s, t);
    forall p | s.cells[a].sq < p <= th.my.sq ensures !HasAddr(s.hist[p].log, a) {
      assert Applied(s, p);
    }
    StateSkip(s.hist, s.cells[a].sq, th.my.sq, a);
  }

  lemma LoadedKeeps(s: State, t: nat)
    requires Inv(s) && CanStep(s, t, Go) && s.threads[t].pc.Loaded?
    ensures Inv(DoLoaded(s, t))
  {
    hide CellsOk, HistOk, StateAt;
    var s' := DoLoaded(s, t);
    assert ThreadOk(s, t);
    OwnerBusy(s, t);
    assert forall p: nat :: Applied(s, p) ==> Applied(s', p);
    assert OpenAt(s', s.threads[t].my.sq) == OpenAt(s, s.threads[t].my.sq);
    if !LoadAborts(s, t) {
      LoadedValue(s, t);
    }
    OwnKeeps(s, s', t);
  }

  lemma AddOk(s: State, w: WriteSet, a: Addr, v: Val)
    requires w.num < |w.log| && LogOk(s, Used(w)) && a < |s.cells|
    ensures LogOk(s, Used(Add(w, a, v)))
  {
    var u, u' := Used(w), Used(Add(w, a, v));
    if HasAddr(u, a) {
      assert forall j | 0 <= j < |u| :: u'[j].addr == u[j].addr;
    } else {
      assert u' == u + [Entry(a, v)];
    }
  }

  lemma ActiveKeeps(s: State, t: nat, op: Op)
    requires Inv(s) && CanStep(s, t, op) && s.threads[t].pc.Active?
    ensures Inv(DoStep(s, t, op))
  {
    hide CellsOk, StateAt, HistOk, OwnerOk, HasAddr;
    var s' := DoStep(s, t, op);
    assert ThreadOk(s, t);
    OwnerBusy(s, t);
    assert forall p: nat :: Applied(s, p) ==> Applied(s', p);
    assert OpenAt(s', s.threads[t].my.sq) == OpenAt(s, s.threads[t].my.sq);
    if op.Store? {
      AddOk(s, s.ws[t], op.sa, op.sv);
    }
    OwnKeeps(s, s', t);
  }

  lemma CheckKeeps(s: State, t: nat)
    requires Inv(s) && CanStep(s, t, Go) && s.threads[t].pc.CCheck?
    ensures Inv(DoCheck(s, t))
  {
    var s' := DoCheck(s, t);
    assert ThreadOk(s, t);
    OwnerBusy(s, t);
    assert forall p: nat :: Applied(s, p) ==> Applied(s', p);
    assert OpenAt(s', s.threads[t].my.sq) == OpenAt(s, s.threads[t].my.sq);
    OwnKeeps(s, s', t);
  }

  // ---------- requests ----------

  /** A request moves, closing nobody else's and opening none. */
  ghost predicate Moves(s: State, s': State, t: nat, i: nat) {
    && t < |s.threads| == |s'.threads| == |s.request| == |s'.request| && i < |s.request|
    && s' == s.(threads := s'.threads, request := s'.request)
    && (forall u | 0 <= u < |s.threads| && u != t :: s'.threads[u] == s.threads[u])
    && (forall u | 0 <= u < |s.request| && u != i :: s'.request[u] == s.request[u])
    && s'.request[i].sq >= 2
    && (forall q | 0 <= q < |s.hist| :: OpenAt(s', q) ==> OpenAt(s, q))
    && (i != t && s.threads[i].pc.CCas? ==> s'.request[i] == s.request[i])
  }

  lemma MovesKeeps(s: State, s': State, t: nat, i: nat)
    requires Inv(s) && Moves(s, s', t, i) && ThreadOk(s', t)
    requires OpenAt(s, |s.hist| - 1) && !OpenAt(s', |s.hist| - 1) ==> Applied(s, |s.hist| - 1)
    requires OpenAt(s', |s.hist| - 1) ==> s.curTx.idx != t
    ensures Inv(s')
  {
    assert forall p: nat :: Applied(s, p) ==> Applied(s', p);
    forall u: nat | u < |s'.threads| ensures ThreadOk(s', u) {
      if u != t {
        assert ThreadOk(s, u);
        MovesThread(s, s', t, i, u);
      }
    }
    assert HistOk(s') by {
      forall q | 0 <= q < |s'.hist| ensures RecOk(s', s'.hist[q]) {
        assert RecOk(s, s.hist[q]);
      }
    }
  }

  lemma MovesThread(s: State, s': State, t: nat, i: nat, u: nat)
    requires Shape(s) && Moves(s, s', t, i) && u < |s.threads| && u != t && ThreadOk(s, u)
    ensures ThreadOk(s', u)
  {
    assert forall p: nat :: Applied(s, p) ==> Applied(s', p);
  }

  lemma RequestKeeps(s: State, t: nat)
    requires Inv(s) && CanStep(s, t, Go) && s.threads[t].pc.CRequest?
    ensures Inv(DoRequest(s, t))
  {
    var s' := DoRequest(s, t);
    assert ThreadOk(s, t);
    OwnerBusy(s, t);
    assert forall p: nat :: Applied(s, p) ==> Applied(s', p);
    assert Moves(s, s', t, t);
    assert ThreadOk(s', t);
    MovesKeeps(s, s', t, t);
  }

  // ---------- closing ----------

  /** Every index is reached by the rotated loop. */
  lemma Rotation(off: nat, n: nat, k: nat) returns (i: nat)
    requires k < n
    ensures i < n && (off + i) % n == k
  {
    i := (k - off) % n;
    var d := (k - off) / n;
    assert k - off == n * d + i;
    assert off + i == k + n * (-d);
    ModShift(k, n, -d);
  }

  lemma ModShift(k: int, n: int, d: int)
    requires 0 <= k < n
    ensures (k + n * d) % n == k
  {
    var x := k + n * d;
    var q, r := x / n, x % n;
    assert x == n * q + r;
    assert n * (d - q) == r - k;
    assert d - q >= 1 ==> n * (d - q) >= n;
    assert d - q <= -1 ==> n * (d - q) <= -n;
  }

  /** A helper that has passed every entry leaves the whole transaction applied. */
  lemma PassedAll(s: State, t: nat)
    requires Shape(s) && t < |s.threads| && s.threads[t].pc.HClose? && ApplyOk(s, t)
    ensures Applied(s, s.threads[t].hl.sq)
  {
    var w := s.ws[t];
    var log := s.hist[s.threads[t].hl.sq].log;
    forall a: Addr | a < |s.cells| && HasAddr(log, a) ensures s.cells[a].sq >= s.threads[t].hl.sq {
      var k := IndexOf(log, a);
      assert w.log[k] == Used(w)[k] == log[k];
      var i := Rotation(t * 8, w.num, k);
      assert Passed(HClose, w.num, i);
      assert EntryAt(w, t, i).addr == a;
    }
  }

  lemma CloseThread(s: State, t: nat)
    requires CanStep(s, t, Go) && s.threads[t].pc.HClose? && ThreadOk(s, t)
    ensures ThreadOk(DoHClose(s, t), t)
  {
  }

  lemma CloseMoves(s: State, t: nat)
    requires Inv(s) && CanStep(s, t, Go) && s.threads[t].pc.HClose?
    requires s.request[s.threads[t].hl.idx] == s.threads[t].hl
    ensures Moves(s, DoHClose(s, t), t, s.threads[t].hl.idx)
    ensures s.threads[t].hl.sq == |s.hist| - 1 && !OpenAt(DoHClose(s, t), |s.hist| - 1)
  {
    var hl := s.threads[t].hl;
    ThreadFromInv(s, t);
    assert OpenAt(s, hl.sq);
    OpenIsLast(s, hl.sq);
    ThreadFromInv(s, hl.idx);
  }

  lemma CloseKeeps(s: State, t: nat)
    requires Inv(s) && CanStep(s, t, Go) && s.threads[t].pc.HClose?
    ensures Inv(DoHClose(s, t))
  {
    var s' := DoHClose(s, t);
    ThreadFromInv(s, t);
    PassedAll(s, t);
    CloseThread(s, t);
    if s.request[s.threads[t].hl.idx] == s.threads[t].hl {
      CloseMoves(s, t);
      MovesKeeps(s, s', t, s.threads[t].hl.idx);
    } else {
      assert !OpenAt(s, s.threads[t].hl.sq);
      OwnKeeps(s, s', t);
    }
  }

  // ---------- the double-word CAS ----------

  /** It succeeds only for the last transaction, and writes that transaction's value. */
  lemma DcasLast(s: State, t: nat)
    requires Inv(s) && CanStep(s, t, Go) && s.threads[t].pc.HDcas?
    requires s.cells[EntryAt(s.ws[t], t, s.threads[t].pc.di).addr] == Cell(s.threads[t].pc.dv, s.threads[t].pc.dq)
    ensures s.threads[t].hl.sq == |s.hist| - 1
    ensures var e := EntryAt(s.ws[t], t, s.threads[t].pc.di);
      e.addr < |s.cells| && StateAt(s.hist, |s.hist| - 1, e.addr) == e.val
      && HasAddr(s.hist[|s.hist| - 1].log, e.addr) && s.cells[e.addr].sq < |s.hist| - 1
  {
    ThreadFromInv(s, t);
    EntryInLog(s, t, s.threads[t].pc.di);
    assert s.threads[t].hl.sq < |s.hist| - 1 ==> Applied(s, s.threads[t].hl.sq);
  }

  ghost predicate Writes(s: State, s': State, t: nat, a: Addr) {
    && Shape(s) && t < |s.threads| == |s'.threads| && a < |s.cells| == |s'.cells| && |s.hist| >= 2
    && s' == s.(threads := s'.threads, cells := s.cells[a := s'.cells[a]])
    && (forall u | 0 <= u < |s.threads| && u != t :: s'.threads[u] == s.threads[u])
    && s'.threads[t].hl == s.threads[t].hl && s'.threads[t].commit == s.threads[t].commit
    && Applying(s.threads[t].pc) && Applying(s'.threads[t].pc)
    && s'.cells[a].sq == |s.hist| - 1 && s'.cells[a].val == StateAt(s.hist, |s.hist| - 1, a)
    && s.cells[a].sq < |s.hist| - 1 && HasAddr(s.hist[|s.hist| - 1].log, a)
  }

  /** Other threads: a cell they have looked at is still as they saw it, or up to date. */
  lemma WritesThread(s: State, s': State, t: nat, a: Addr, u: nat)
    requires Writes(s, s', t, a) && u < |s.threads| && u != t && ThreadOk(s, u)
    ensures ThreadOk(s', u)
  {
    assert forall p: nat :: Applied(s, p) ==> Applied(s', p);
    if InTx(s.threads[u].pc) {
      assert Applied(s, s.threads[u].my.sq);
    }
  }

  lemma WritesKeeps(s: State, s': State, t: nat, a: Addr)
    requires Inv(s) && Writes(s, s', t, a) && ThreadOk(s', t)
    ensures Inv(s')
  {
    hide ThreadOk;
    assert forall p: nat :: Applied(s, p) ==> Applied(s', p);
    forall u: nat | u < |s'.threads| ensures ThreadOk(s', u) {
      if u != t {
        ThreadFromInv(s, u);
        WritesThread(s, s', t, a, u);
      }
    }
    assert HistOk(s') by {
      forall q | 0 <= q < |s'.hist| ensures RecOk(s', s'.hist[q]) && OpenAt(s', q) == OpenAt(s, q) {
        assert RecOk(s, s.hist[q]);
      }
    }
  }

  lemma DcasThread(s: State, t: nat)
    requires CanStep(s, t, Go) && s.threads[t].pc.HDcas? && ThreadOk(s, t)
    ensures ThreadOk(DoHDcas(s, t), t)
  {
    hide CopyOk;
    assert forall p: nat :: Applied(s, p) ==> Applied(DoHDcas(s, t), p);
  }

  lemma DcasKeeps(s: State, t: nat)
    requires Inv(s) && CanStep(s, t, Go) && s.threads[t].pc.HDcas?
    ensures Inv(DoHDcas(s, t))
  {
    hide Inv, ThreadOk;
    var e := EntryAt(s.ws[t], t, s.threads[t].pc.di);
    ThreadFromInv(s, t);
    DcasThread(s, t);
    if s.cells[e.addr] == Cell(s.threads[t].pc.dv, s.threads[t].pc.dq) {
      DcasLast(s, t);
      HistLength(s);
      WritesKeeps(s, DoHDcas(s, t), t, e.addr);
    } else {
      OwnKeeps(s, DoHDcas(s, t), t);
    }
  }

  lemma HistLength(s: State)
    requires Inv(s)
    ensures |s.hist| >= 2 && Shape(s)
  {
  }

  // ---------- commit ----------

  lemma {:induction false} StatePrefix(hist: seq<Rec>, r: Rec, q: nat, a: Addr)
    requires q < |hist|
    ensures StateAt(hist + [r], q, a) == StateAt(hist, q, a)
  {
    if q > 0 && !HasAddr(hist[q].log, a) {
      StatePrefix(hist, r, q - 1, a);
    }
  }

  ghost predicate Commits(s: State, s': State, t: nat) {
    && Shape(s) && CanStep(s, t, Go) && s.threads[t].pc.CCas? && s.curTx == s.threads[t].my && s' == DoCas(s, t)
    && ThreadOk(s, t)
    && |s.hist| >= 2 && s.curTx.sq == |s.hist| - 1
  }

  lemma CommitsOther(s: State, s': State, t: nat, u: nat)
    requires Commits(s, s', t) && u < |s.threads| && u != t && ThreadOk(s, u)
    ensures ThreadOk(s', u)
  {
    assert forall p: nat | p < |s.hist| :: Applied(s', p) == Applied(s, p) && OpenAt(s', p) == OpenAt(s, p);
    forall p: nat, a: Addr | p < |s.hist| ensures StateAt(s'.hist, p, a) == StateAt(s.hist, p, a) {
      StatePrefix(s.hist, s'.hist[|s.hist|], p, a);
    }
  }

  lemma CommitsHist(s: State, s': State, t: nat)
    requires Commits(s, s', t) && HistOk(s)
    ensures HistOk(s') && OpenAt(s', |s'.hist| - 1)
  {
    assert forall p: nat | p < |s.hist| :: OpenAt(s', p) == OpenAt(s, p);
    forall q | 0 <= q < |s'.hist| ensures RecOk(s', s'.hist[q]) {
      if q < |s.hist| {
        assert RecOk(s, s.hist[q]);
      }
    }
  }

  lemma CommitsCells(s: State, s': State, t: nat)
    requires Commits(s, s', t) && CellsOk(s) && CommitsOk(s.hist)
    ensures CellsOk(s') && CommitsOk(s'.hist)
  {
    forall p: nat, a: Addr | p < |s.hist| ensures StateAt(s'.hist, p, a) == StateAt(s.hist, p, a) {
      StatePrefix(s.hist, s'.hist[|s.hist|], p, a);
    }
    assert forall p: nat | p < |s.hist| :: Applied(s, p) ==> Applied(s', p);
  }

  lemma CommitFails(s: State, t: nat)
    requires Inv(s) && CanStep(s, t, Go) && s.threads[t].pc.CCas? && s.curTx != s.threads[t].my
    ensures Inv(DoCas(s, t))
  {
    hide OpenAt, Applied, TxOk, CopyOk, ApplyOk;
    ThreadFromInv(s, t);
    OwnerBusy(s, t);
    OwnKeeps(s, DoCas(s, t), t);
  }

  lemma CommitSucceeds(s: State, t: nat)
    requires Inv(s) && CanStep(s, t, Go) && s.threads[t].pc.CCas? && s.curTx == s.threads[t].my
    ensures Inv(DoCas(s, t))
  {
    hide OpenAt, Applied, TxOk, CopyOk, ApplyOk;
    var s' := DoCas(s, t);
    ThreadFromInv(s, t);
    OwnerBusy(s, t);
    CommitsHist(s, s', t);
    CommitsCells(s, s', t);
    forall u: nat | u < |s'.threads| ensures ThreadOk(s', u) {
      if u != t {
        ThreadFromInv(s, u);
        CommitsOther(s, s', t, u);
      }
    }
  }

  lemma CommitKeeps(s: State, t: nat)
    requires Inv(s) && CanStep(s, t, Go) && s.threads[t].pc.CCas?
    ensures Inv(DoCas(s, t))
  {
    hide Inv, DoCas;
    if s.curTx == s.threads[t].my {
      CommitSucceeds(s, t);
    } else {
      CommitFails(s, t);
    }
  }

  // ---------- runs ----------

  lemma StepKeeps(s: State, t: nat, op: Op)
    requires Inv(s) && CanStep(s, t, op)
    ensures Inv(DoStep(s, t, op))
  {
    match s.threads[t].pc
    case Idle => OwnerBusy(s, t); OwnKeeps(s, SetPc(s, t, BeginLoad), t);
    case BeginLoad => BeginLoadKeeps(s, t);
    case HRequest => HRequestKeeps(s, t);
    case HCopyNum => CopyNumKeeps(s, t);
    case HCopy(_) => CopyKeeps(s, t);
    case HCurTx => HCurTxKeeps(s, t);
    case HRequest2 => HRequest2Keeps(s, t);
    case HApply(_) => ApplyKeeps(s, t);
    case HVal(_, _) => HValKeeps(s, t);
    case HDcas(_, _, _) => DcasKeeps(s, t);
    case HClose => CloseKeeps(s, t);
    case BeginReset => ResetKeeps(s, t);
    case BeginCheck => BeginCheckKeeps(s, t);
    case Active => ActiveKeeps(s, t, op);
    case Loaded(_, _) => LoadedKeeps(s, t);
    case CCheck => CheckKeeps(s, t);
    case CRequest => RequestKeeps(s, t);
    case CCas => CommitKeeps(s, t);
  }

  lemma InitKeeps(cells: nat, threads: nat, stores: nat)
    requires threads > 0
    ensures Inv(Init(cells, threads, stores))
  {
  }

  lemma {:induction false} RunKeeps(s: State, acts: seq<Action>)
    requires Inv(s) && Run(s, acts)
    ensures Inv(After(s, acts))
    decreases |acts|
  {
    if acts != [] {
      StepKeeps(s, acts[0].t, acts[0].op);
      RunKeeps(DoStep(s, acts[0].t, acts[0].op), acts[1..]);
    }
  }
}
