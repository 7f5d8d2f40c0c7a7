/** What holds of every run of OneFile, with any number of helpers interleaving. */
module OneFileTheorems {
  import opened OneFileModel
  import opened OneFileInv
  import opened OneFileProof

  ghost predicate Reachable(s: State) {
    exists c: nat, n: nat, m: nat, acts: seq<Action> :: n > 0 && Run(Init(c, n, m), acts) && After(Init(c, n, m), acts) == s
  }

  lemma ReachableInv(s: State)
    requires Reachable(s)
    ensures Inv(s)
  {
    var c: nat, n: nat, m: nat, acts: seq<Action> :|
      n > 0 && Run(Init(c, n, m), acts) && After(Init(c, n, m), acts) == s;
    InitKeeps(c, n, m);
    RunKeeps(Init(c, n, m), acts);
  }

  /**
    Committed transactions form one sequence: each one read the state its predecessor left, and
    memory holds a state of that sequence, at most the last transaction being still unapplied
    in some cells.
  */
  lemma OneSequence(s: State)
    requires Reachable(s)
    ensures forall q, a | 1 <= q < |s.hist| && a in s.hist[q].rd :: s.hist[q].rd[a] == StateAt(s.hist, q - 1, a)
    ensures forall a: nat | a < |s.cells| ::
      s.cells[a].sq < |s.hist| && s.cells[a].val == StateAt(s.hist, s.cells[a].sq, a)
    ensures forall q: nat, a: nat | q < |s.hist| - 1 && a < |s.cells| && HasAddr(s.hist[q].log, a) :: s.cells[a].sq >= q
  {
    ReachableInv(s);
    forall q: nat, a: nat | q < |s.hist| - 1 && a < |s.cells| && HasAddr(s.hist[q].log, a) ensures s.cells[a].sq >= q {
      assert Applied(s, q);
    }
  }

  /** When beginTx has returned with curTx = (q, _), everything up to q is in memory. */
  lemma BegunOnApplied(s: State, t: nat, a: Addr, q: nat)
    requires Reachable(s) && t < |s.threads| && InTx(s.threads[t].pc)
    requires q <= s.threads[t].my.sq && a < |s.cells|
    ensures q < |s.hist| && (HasAddr(s.hist[q].log, a) ==> s.cells[a].sq >= q)
  {
    ReachableInv(s);
    ThreadFromInv(s, t);
    assert Applied(s, q);
  }

  /** A pload that does not abort returns the own last store, or the state after transaction my.sq. */
  lemma PloadResult(s: State, t: nat)
    requires Reachable(s) && CanStep(s, t, Go) && s.threads[t].pc.Loaded? && !LoadAborts(s, t)
    ensures var th, u := s.threads[t], Used(s.ws[t]);
      && th.my.sq < |s.hist|
      && LoadResult(s, t) ==
         if HasAddr(u, th.pc.la) then u[IndexOf(u, th.pc.la)].val else StateAt(s.hist, th.my.sq, th.pc.la)
  {
    ReachableInv(s);
    LoadedValue(s, t);
  }

  /** A successful CAS commits next after the transaction whose state was read throughout. */
  lemma CommitIsNext(s: State, t: nat)
    requires Reachable(s) && CanStep(s, t, Go) && s.threads[t].pc.CCas? && s.curTx == s.threads[t].my
    ensures var s' := DoCas(s, t);
      && |s'.hist| == |s.hist| + 1 && s'.hist[..|s.hist|] == s.hist
      && s'.hist[|s.hist|].log == Used(s.ws[t]) && s'.curTx == Trans(|s.hist|, t)
      && (forall a <- s.threads[t].rd :: s.threads[t].rd[a] == StateAt(s.hist, |s.hist| - 1, a))
  {
    ReachableInv(s);
    ThreadFromInv(s, t);
  }

  /** No step takes a cell back to an older transaction. */
  lemma CellsNeverGoBack(s: State, t: nat, op: Op)
    requires Reachable(s) && CanStep(s, t, op)
    ensures |DoStep(s, t, op).cells| == |s.cells|
    ensures forall a: nat | a < |s.cells| :: DoStep(s, t, op).cells[a].sq >= s.cells[a].sq
  {
    hide Helping, Inv, After;
    ReachableInv(s);
    ThreadFromInv(s, t);
  }

  /** Stale helpers are harmless: a helper of an older transaction changes no cell. */
  lemma StaleHelperHarmless(s: State, t: nat)
    requires Reachable(s) && CanStep(s, t, Go) && Applying(s.threads[t].pc) && s.threads[t].hl != s.curTx
    ensures DoStep(s, t, Go).cells == s.cells
  {
    hide Init;
    ReachableInv(s);
    ThreadFromInv(s, t);
    if s.threads[t].pc.HDcas? {
      var e := EntryAt(s.ws[t], t, s.threads[t].pc.di);
      if s.cells[e.addr] == Cell(s.threads[t].pc.dv, s.threads[t].pc.dq) {
        DcasLast(s, t);
      }
    }
  }

  /** One helper that finishes leaves every entry of the write-set applied. */
  lemma HelperFinishes(s: State, t: nat, a: Addr)
    requires Reachable(s) && t < |s.threads| && s.threads[t].pc.HClose? && a < |s.cells|
    ensures s.threads[t].hl.sq < |s.hist|
    ensures HasAddr(s.hist[s.threads[t].hl.sq].log, a) ==> s.cells[a].sq >= s.threads[t].hl.sq
  {
    ReachableInv(s);
    ThreadFromInv(s, t);
    PassedAll(s, t);
  }

  /** Lock freedom: an attempt that has to start over has seen another transaction commit. */
  lemma RetryMeansProgress(s: State, t: nat)
    requires Reachable(s) && CanStep(s, t, Go)
    requires InTx(s.threads[t].pc) || s.threads[t].pc.BeginCheck?
    requires DoStep(s, t, Go).threads[t].pc.BeginLoad?
    ensures s.threads[t].my.sq < |s.hist| - 1
  {
    hide Init;
    ReachableInv(s);
    ThreadFromInv(s, t);
  }

  /** addOrReplace keeps one entry per address; a lookup finds the last value added. */
  lemma AddLookup(w: WriteSet, a: Addr, v: Val, b: Addr)
    requires w.num < |w.log| && Distinct(Used(w))
    ensures var u, u' := Used(w), Used(Add(w, a, v));
      && Distinct(u')
      && (HasAddr(u', b) <==> b == a || HasAddr(u, b))
      && (HasAddr(u', b) ==> u'[IndexOf(u', b)].val == if b == a then v else u[IndexOf(u, b)].val)
  {
    var u, u' := Used(w), Used(Add(w, a, v));
    if HasAddr(u, a) {
      assert forall j | 0 <= j < |u| :: u'[j].addr == u[j].addr;
      assert HasAddr(u, b) ==> u'[IndexOf(u, b)].addr == b;
      assert HasAddr(u', b) ==> u[IndexOf(u', b)].addr == b;
    } else {
      assert u' == u + [Entry(a, v)];
      assert HasAddr(u, b) ==> u'[IndexOf(u, b)].addr == b;
      assert HasAddr(u', b) && b != a ==> u[IndexOf(u', b)].addr == b;
      assert u'[|u|].addr == a;
    }
  }
}
