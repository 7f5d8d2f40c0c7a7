/** The invariant of the OneFile machine. */
module OneFileInv {
  import opened OneFileModel

  /** hl stands for a committed transaction. */
  predicate Known(s: State, l: Trans) {
    l.sq < |s.hist| && l == Trans(l.sq, s.hist[l.sq].idx)
  }

  /** Transaction q still asks for help. */
  predicate OpenAt(s: State, q: nat) {
    1 <= q < |s.hist| && s.hist[q].idx < |s.request| && s.request[s.hist[q].idx] == Trans(q, s.hist[q].idx)
  }

  /** All writes of transaction q have reached their cells. */
  ghost predicate Applied(s: State, q: nat) {
    q < |s.hist| && forall a: Addr | a < |s.cells| && HasAddr(s.hist[q].log, a) :: s.cells[a].sq >= q
  }

  ghost predicate AppliedUpTo(s: State, q: nat) { forall p: nat | p <= q :: Applied(s, p) }

  ghost predicate HistOk(s: State) {
    && Shape(s)
    && |s.hist| >= 2 && s.curTx == Trans(|s.hist| - 1, s.hist[|s.hist| - 1].idx)
    && s.hist[0].log == [] && s.hist[1].log == []
    && (forall q | 0 <= q < |s.hist| :: RecOk(s, s.hist[q]))
    && (forall i | 0 <= i < |s.request| :: s.request[i].sq != 1)
    && (forall q | 0 <= q < |s.hist| && OpenAt(s, q) :: q == |s.hist| - 1)
  }

  ghost predicate RecOk(s: State, r: Rec) {
    r.idx < |s.threads| && LogOk(s, r.log)
  }

  ghost predicate LogOk(s: State, log: seq<Entry>) {
    && Distinct(log)
    && forall j | 0 <= j < |log| :: log[j].addr < |s.cells|
  }

  /** Cells lag at most one transaction behind, and only while it asks for help. */
  ghost predicate CellsOk(s: State) {
    && |s.hist| >= 2
    && (forall a: Addr | a < |s.cells| ::
         s.cells[a].sq < |s.hist| && s.cells[a].val == StateAt(s.hist, s.cells[a].sq, a))
    && AppliedUpTo(s, |s.hist| - 2)
    && (OpenAt(s, |s.hist| - 1) || Applied(s, |s.hist| - 1))
  }

  /** While the last transaction asks for help, its thread is applying it from its own write-set. */
  ghost predicate OwnerOk(s: State) {
    |s.hist| >= 2 && (OpenAt(s, |s.hist| - 1) ==>
      var c := s.hist[|s.hist| - 1];
      && c.idx < |s.threads| == |s.ws|
      && s.ws[c.idx].num <= |s.ws[c.idx].log| && Used(s.ws[c.idx]) == c.log
      && var th := s.threads[c.idx];
         th.commit && th.hl == s.curTx && (th.pc.HRequest? || Applying(th.pc)))
  }

  predicate InTx(pc: PC) { pc.Active? || pc.Loaded? || pc.CCheck? || pc.CRequest? || pc.CCas? }

  /** Entries a helper has passed. */
  predicate Passed(pc: PC, n: nat, i: nat) {
    match pc
    case HApply(k) => i < k
    case HVal(k, _) => i < k
    case HDcas(k, _, _) => i < k
    case HClose => i < n
    case _ => false
  }

  ghost predicate ApplyOk(s: State, t: nat)
    requires t < |s.threads| == |s.ws| && s.ws[t].num <= |s.ws[t].log|
  {
    var th, w := s.threads[t], s.ws[t];
    && Known(s, th.hl) && Used(w) == s.hist[th.hl.sq].log
    && (forall i | 0 <= i < w.num && Passed(th.pc, w.num, i) ::
         EntryAt(w, t, i).addr < |s.cells| && s.cells[EntryAt(w, t, i).addr].sq >= th.hl.sq)
    && (th.pc.HApply? ==> th.pc.ai <= w.num)
    && (th.pc.HVal? ==>
         && th.pc.vi < w.num
         && var e := EntryAt(w, t, th.pc.vi);
            e.addr < |s.cells| && (s.cells[e.addr].sq >= th.hl.sq || s.cells[e.addr].val == th.pc.hv))
    && (th.pc.HDcas? ==>
         && th.pc.di < w.num && th.pc.dq < th.hl.sq
         && var e := EntryAt(w, t, th.pc.di);
            e.addr < |s.cells| && (s.cells[e.addr].sq >= th.hl.sq || s.cells[e.addr] == Cell(th.pc.dv, th.pc.dq)))
  }

  ghost predicate CopyOk(s: State, t: nat)
    requires t < |s.threads| == |s.ws| && s.ws[t].num <= |s.ws[t].log|
  {
    var th, w := s.threads[t], s.ws[t];
    && !th.commit && Known(s, th.hl) && th.hl.idx != t && th.hl.sq >= 2
    && (th.pc.HCopy? ==> th.pc.ci <= w.num)
    && (OpenAt(s, th.hl.sq) && !th.pc.HCopyNum? ==>
         && w.num == |s.hist[th.hl.sq].log|
         && (forall i | 0 <= i < (if th.pc.HCopy? then th.pc.ci else w.num) :: w.log[i] == s.hist[th.hl.sq].log[i]))
  }

  ghost predicate TxOk(s: State, t: nat)
    requires t < |s.threads| == |s.ws| && s.ws[t].num <= |s.ws[t].log| && t < |s.request|
  {
    var th, w := s.threads[t], s.ws[t];
    && Known(s, th.my) && th.my.sq >= 1 && !OpenAt(s, th.my.sq) && AppliedUpTo(s, th.my.sq)
    && LogOk(s, Used(w))
    && (forall a <- th.rd :: th.rd[a] == StateAt(s.hist, th.my.sq, a))
    && (th.pc.Loaded? ==>
         && th.pc.la < |s.cells|
         && (s.cells[th.pc.la].sq > th.my.sq || s.cells[th.pc.la].val == th.pc.lv))
    && (th.pc.CCas? ==> s.request[t] == Trans(th.my.sq + 1, t))
  }

  ghost predicate ThreadOk(s: State, t: nat)
    requires t < |s.threads| == |s.ws| == |s.request| && s.ws[t].num <= |s.ws[t].log|
  {
    var th := s.threads[t];
    && (Helping(th.pc) ==> Known(s, th.hl) && th.hl.sq >= 1 && (th.commit ==> th.hl.idx == t) && (!th.commit ==> th.my == th.hl))
    && (Helping(th.pc) && th.commit ==>
          && !Copying(th.pc) && th.hl.sq >= 2
          && (th.pc.HRequest? ==> Used(s.ws[t]) == s.hist[th.hl.sq].log))
    && (Applying(th.pc) ==> ApplyOk(s, t))
    && (Copying(th.pc) ==> CopyOk(s, t))
    && (th.pc.BeginReset? || th.pc.BeginCheck? ==> Known(s, th.my) && th.my.sq >= 1 && (!OpenAt(s, th.my.sq) || s.curTx != th.my))
    && (th.pc.BeginCheck? ==> s.ws[t].num == 0)
    && (InTx(th.pc) ==> TxOk(s, t))
    // the thread's own commits are not after what it last read from curTx
    && ((Helping(th.pc) && !th.commit) || th.pc.BeginReset? || th.pc.BeginCheck? || InTx(th.pc) ==>
          forall q | 0 <= q < |s.hist| && s.hist[q].idx == t :: q <= th.my.sq || q <= 1)
  }

  ghost predicate Inv(s: State) {
    && HistOk(s) && CellsOk(s) && OwnerOk(s)
    && (forall t: nat | t < |s.threads| :: ThreadOk(s, t))
    && CommitsOk(s.hist)
  }

  /** Transaction q+1 is exactly what its function does on the state after transaction q. */
  ghost predicate CommitsOk(hist: seq<Rec>) {
    forall q, a | 1 <= q < |hist| && a in hist[q].rd :: hist[q].rd[a] == StateAt(hist, q - 1, a)
  }
}
