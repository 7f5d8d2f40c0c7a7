/** What Quadra's single steps keep: the log, the counts, the flush, the rollback. */
module QuadraSteps {
  import opened Persistence
  import opened Quadra
  import opened TxRuns

  /** Two cells of 32 bytes share a cache line. */
  function CacheLine(a: Addr): nat { a / 2 }

  predicate Logged(log: seq<Addr>, a: Addr) { exists i :: 0 <= i < |log| && log[i] == a }

  /** The log lists each cell of the transaction once. */
  ghost predicate LogOk(m: Memory, n: nat, log: seq<Addr>)
    requires MemOk(m)
  {
    && (forall i | 0 <= i < |log| :: log[i] < |m|)
    && (forall i, j | 0 <= i < j < |log| :: log[i] != log[j])
    && (forall a: nat | a < |m| :: Cur(m[a]).sq == n <==> Logged(log, a))
  }

  function SetOf(log: seq<Addr>): set<nat> { set i | 0 <= i < |log| :: log[i] }

  lemma {:induction false} SetOfSize(log: seq<Addr>)
    requires forall i, j | 0 <= i < j < |log| :: log[i] != log[j]
    ensures |SetOf(log)| == |log|
  {
    if log != [] {
      var n := |log| - 1;
      SetOfSize(log[..n]);
      assert SetOf(log) == SetOf(log[..n]) + {log[n]};
    }
  }

  /** A flush changes what the next fence makes durable, not what a crash can leave now. */
  predicate SameBut(m: Memory, m': Memory) {
    && |m'| == |m|
    && forall a | 0 <= a < |m| ::
         LineOk(m'[a]) && m'[a].hist == m[a].hist && m'[a].lo == m[a].lo && m'[a].mark >= m[a].mark
  }

  lemma {:induction false} SameRuns(m: Memory, m': Memory, start: Image, n: nat, k: nat, f: seq<Val>, log: set<nat>)
    requires Runs(m, start, n, k, f, log) && SameBut(m, m')
    ensures Runs(m', start, n, k, f, log)
  {
    forall a | 0 <= a < |m'| ensures LineRuns(m'[a], start[a], n, k, f[a]) {
      assert LineRuns(m[a], start[a], n, k, f[a]);
    }
  }

  /** pstore logs the cell it wrote first. */
  lemma {:induction false} LogStays(m: Memory, m': Memory, n: nat, log: seq<Addr>, log': seq<Addr>, a: Addr)
    requires MemOk(m) && MemOk(m') && LogOk(m, n, log) && a < |m| && |m'| == |m|
    requires Cur(m'[a]).sq == n && forall b | 0 <= b < |m| && b != a :: m'[b] == m[b]
    requires log' == if Cur(m[a]).sq == n then log else log + [a]
    ensures LogOk(m', n, log')
  {
    forall b: nat | b < |m'| ensures Cur(m'[b]).sq == n <==> Logged(log', b) {
      if Logged(log, b) {
        var i :| 0 <= i < |log| && log[i] == b;
        assert log'[i] == b;
      }
      if b == a {
        assert Logged(log, a) || log'[|log|] == a;
      }
    }
  }

  lemma {:induction false} InSetOf(log: seq<Addr>, a: Addr)
    ensures a in SetOf(log) <==> Logged(log, a)
  {
  }

  lemma {:induction false} TrailGrows(trail: seq<Memory>, steps: seq<Memory>, start: Image, n: nat, f: seq<Val>,
                                      log: set<nat>)
    requires forall i | 0 <= i < |steps| :: Runs(steps[i], start, n, 0, f, log)
    requires Guard(start, n) && forall k | 0 <= k < |trail| :: RecoversTo(trail[k], Mains(start), Mains(start))
    ensures forall k | 0 <= k < |trail + steps| :: RecoversTo((trail + steps)[k], Mains(start), Mains(start))
  {
    forall i | 0 <= i < |steps| ensures RecoversTo(steps[i], Mains(start), Mains(start)) {
      RunsSafe(steps[i], start, n, 0, f, log);
    }
  }

  /** Before the counts are set: every cell of the log has its final value. */
  lemma {:induction false} CountRuns(m: Memory, start: Image, n: nat, log: seq<Addr>)
    requires MemOk(m) && LogOk(m, n, log) && Runs(m, start, n, 0, Mains(start), SetOf(log))
    ensures Runs(m, start, n, |log|, Mains(Curs(m)), SetOf(log))
  {
    SetOfSize(log);
    forall a | 0 <= a < |m| ensures LineRuns(m[a], start[a], n, |log|, Mains(Curs(m))[a]) {
      assert LineRuns(m[a], start[a], n, 0, Mains(start)[a]);
    }
  }

  /** A cell of the log, as it is now. */
  lemma {:induction false} LogCell(m: Memory, start: Image, n: nat, k: nat, f: seq<Val>, log: set<nat>, a: Addr)
    requires MemOk(m) && Runs(m, start, n, k, f, log) && a < |m| && Cur(m[a]).sq == n && Cur(m[a]).main == f[a]
    ensures Late(WithCount(Cur(m[a]), n, k), start[a], n, k, f[a])
  {
    assert LineRuns(m[a], start[a], n, k, f[a]);
  }

  /** All counts set and durable: the boundary after transaction n. */
  lemma {:induction false} CommittedWhole(m: Memory, n: nat, log: seq<Addr>)
    requires MemOk(m) && LogOk(m, n, log) && log != [] && n > 0
    requires forall a | 0 <= a < |m| :: Cur(m[a]).sq <= n
    requires forall i | 0 <= i < |log| :: log[i] < |m| && Count(Cur(m[log[i]]), n) == |log|
    ensures Boundary(Curs(m), n + 1) && Highest(Curs(m)) == n
  {
    var c := Curs(m);
    assert c[log[0]].sq == n by {
      assert Logged(log, log[0]);
    }
    HighestIs(c, n);
    forall a: nat ensures a in Holders(c, n) <==> a in SetOf(log) {
      InSetOf(log, a);
    }
    assert Holders(c, n) == SetOf(log);
    SetOfSize(log);
    forall a: nat | a < |c| && c[a].sq == n ensures Count(c[a], n) == |log| {
      assert Logged(log, a);
    }
  }

  predicate AllFlushed(m: Memory, log: seq<Addr>) { forall i | 0 <= i < |log| :: log[i] < |m| && Flushed(m[log[i]]) }

  predicate Counted(m: Memory, n: nat, log: seq<Addr>) {
    forall i | 0 <= i < |log| :: log[i] < |m| && LineOk(m[log[i]]) && Count(Cur(m[log[i]]), n) == |log|
  }

  /** What endTx leaves in a cell. */
  function CountedCell(c: Cell, n: nat, k: nat): Cell { if c.sq == n then WithCount(c, n, k) else c }

  function CountedCells(c: Image, n: nat, k: nat): Image {
    seq(|c|, a requires 0 <= a < |c| => CountedCell(c[a], n, k))
  }

  lemma {:induction false} CountStep(m: Memory, start: Image, n: nat, f: seq<Val>, log: seq<Addr>, i: nat)
    requires MemOk(m) && LogOk(m, n, log) && Runs(m, start, n, |log|, f, SetOf(log)) && Mains(Curs(m)) == f
    requires i < |log|
    ensures log[i] < |m| && Cur(m[log[i]]).sq == n
    ensures var m' := PutCell(m, log[i], WithCount(Cur(m[log[i]]), n, |log|));
      MemOk(m') && LogOk(m', n, log) && Runs(m', start, n, |log|, f, SetOf(log)) && Mains(Curs(m')) == f
  {
    var a := log[i];
    assert Logged(log, a);
    InSetOf(log, a);
    var c := WithCount(Cur(m[a]), n, |log|);
    var m' := PutCell(m, a, c);
    LogCell(m, start, n, |log|, f, SetOf(log), a) by {
      assert Mains(Curs(m))[a] == f[a];
    }
    PutRuns(m, start, n, |log|, f, SetOf(log), a, c);
    LogStays(m, m', n, log, log, a);
    assert forall b | 0 <= b < |m| :: Mains(Curs(m'))[b] == Mains(Curs(m))[b];
  }

  lemma {:induction false} LoggedNow(m: Memory, n: nat, log: seq<Addr>, a: Addr)
    requires MemOk(m) && LogOk(m, n, log) && a < |m| && Cur(m[a]).sq == n
    ensures log != []
  {
    assert Logged(log, a);
  }

  lemma {:induction false} AllCounted(m: Memory, c: Image, n: nat, log: seq<Addr>)
    requires MemOk(m) && |c| == |m| && LogOk(m, n, log)
    requires forall a | 0 <= a < |c| :: Cur(m[a]) == c[a] || Cur(m[a]) == CountedCell(c[a], n, |log|)
    requires forall j | 0 <= j < |log| :: Cur(m[log[j]]) == CountedCell(c[log[j]], n, |log|)
    ensures Counted(m, n, log)
    ensures Curs(m) == CountedCells(c, n, |log|)
  {
    forall j | 0 <= j < |log| ensures Cur(m[log[j]]).sq == n {
      assert Logged(log, log[j]);
    }
    forall a: nat | a < |m| ensures Cur(m[a]) == CountedCell(c[a], n, |log|) {
      assert Cur(m[a]).sq == n <==> Logged(log, a);
    }
  }

  /** The fence after the flush leaves the boundary after transaction n. */
  lemma {:induction false} FenceEnds(m: Memory, m': Memory, start: Image, n: nat, f: seq<Val>, log: seq<Addr>)
    requires MemOk(m) && LogOk(m, n, log) && Runs(m, start, n, |log|, f, SetOf(log))
    requires AllFlushed(m, log) && Counted(m, n, log)
    requires |m'| == |m| && forall a | 0 <= a < |m| :: m'[a] == Fenced(m[a])
    ensures MemOk(m') && Curs(m') == Curs(m) && Boundary(Curs(m'), n + 1)
    ensures forall a | 0 <= a < |m'| :: Settled(m'[a])
    ensures if log == [] then Curs(m') == start else Guard(Curs(m'), n + 1)
  {
    forall a: nat | a < |m| ensures Settled(m'[a]) && Cur(m'[a]) == Cur(m[a]) && Cur(m[a]).sq <= n {
      assert LineRuns(m[a], start[a], n, |log|, f[a]);
      InSetOf(log, a);
      if Logged(log, a) {
        assert Flushed(m[a]);
      }
    }
    assert Curs(m') == Curs(m);
    if log == [] {
      assert Curs(m') == start;
    } else {
      CommittedWhole(m', n, log);
    }
  }

  // ---------- recovery ----------

  /** Recovery's rollback at work: cells of the last transaction go back one by one. */
  predicate LineUndoes(l: Line<Cell>, c: Cell, h: nat) {
    && LineOk(l)
    && forall j | l.lo <= j < |l.hist| :: l.hist[j] == c || (c.sq == h && l.hist[j] == c.(main := c.back))
  }

  ghost predicate Undoing(m: Memory, img: Image) {
    |m| == |img| && forall a | 0 <= a < |m| :: LineUndoes(m[a], img[a], Highest(img))
  }

  lemma {:induction false} UndoSafe(m: Memory, img: Image)
    requires Undoing(m, img) && !Whole(img)
    ensures RecoversTo(m, Recovered(img), Recovered(img))
  {
    var h := Highest(img);
    forall x: Image | CrashImage(m, x) ensures Recovered(x) == Recovered(img) {
      forall a | 0 <= a < |x| ensures x[a] == img[a] || (img[a].sq == h && x[a] == img[a].(main := img[a].back)) {
        assert Survives(m[a], x[a]) && LineUndoes(m[a], img[a], h);
      }
      SameSeqs(x, img, h);
      assert Whole(x) == Whole(img);
    }
  }

  lemma {:induction false} BootSafe(img: Image)
    ensures MemOk(Boot(img)) && Curs(Boot(img)) == img && RecoversTo(Boot(img), Recovered(img), Recovered(img))
  {
    forall x: Image | CrashImage(Boot(img), x) ensures x == img {
      assert forall a | 0 <= a < |x| :: Survives(Boot(img)[a], x[a]);
    }
    assert Curs(Boot(img)) == img;
  }

  lemma {:induction false} HoldersNext(img: Image, a: nat, h: nat)
    requires a < |img|
    ensures |Holders(img[..a + 1], h)| == |Holders(img[..a], h)| + if img[a].sq == h then 1 else 0
  {
    var s, s' := Holders(img[..a], h), Holders(img[..a + 1], h);
    if img[a].sq == h {
      assert s' == s + {a};
    } else {
      assert s' == s;
    }
  }

  /** What the first scan finds. */
  predicate FirstCount(img: Image, k: nat) {
    if Highest(img) == 0 then k == 0
    else exists b :: 0 <= b < |img| && img[b].sq == Highest(img) && Count(img[b], Highest(img)) == k
  }

  lemma {:induction false} HighestNext(img: Image, a: nat, k: nat)
    requires a < |img| && FirstCount(img[..a], k)
    ensures var h := Highest(img[..a]);
      && Highest(img[..a + 1]) == (if img[a].sq > h then img[a].sq else h)
      && FirstCount(img[..a + 1], if img[a].sq > h then Count(img[a], img[a].sq) else k)
  {
    var h := Highest(img[..a]);
    assert forall b | 0 <= b < a :: img[..a + 1][b] == img[..a][b];
    assert img[..a + 1][a] == img[a];
    HighestIs(img[..a + 1], if img[a].sq > h then img[a].sq else h);
  }

  lemma {:induction false} WrongCounts(img: Image, k: nat)
    requires FirstCount(img, k) && (!CountsAre(img, Highest(img), k) || |Holders(img, Highest(img))| != k)
    ensures !Whole(img)
  {
  }

  lemma {:induction false} RightCounts(img: Image, k: nat)
    requires FirstCount(img, k) && CountsAre(img, Highest(img), k) && |Holders(img, Highest(img))| == k
    ensures Boundary(img, Highest(img) + 1) && Recovered(img) == Mains(img)
  {
    assert Highest(img) == 0 && |img| > 0 ==> 0 in Holders(img, Highest(img));
    BoundaryRecovers(img, Highest(img) + 1);
  }

  function Undone(c: Cell, h: nat): Cell { if c.sq == h then c.(main := c.back) else c }

  lemma {:induction false} BootUndoes(img: Image)
    ensures Undoing(Boot(img), img)
  {
  }

  lemma {:induction false} PwbUndoes(m: Memory, m': Memory, img: Image)
    requires Undoing(m, img) && SameBut(m, m')
    ensures Undoing(m', img)
  {
    assert forall a | 0 <= a < |m| :: LineUndoes(m[a], img[a], Highest(img)) ==> LineUndoes(m'[a], img[a], Highest(img));
  }

  lemma {:induction false} FenceUndoes(m: Memory, m': Memory, img: Image)
    requires Undoing(m, img) && |m'| == |m| && forall a | 0 <= a < |m| :: m'[a] == Fenced(m[a])
    ensures Undoing(m', img)
  {
    assert forall a | 0 <= a < |m| :: LineUndoes(m[a], img[a], Highest(img)) ==> LineUndoes(m'[a], img[a], Highest(img));
  }

  lemma {:induction false} PutUndoes(m: Memory, img: Image, a: nat)
    requires Undoing(m, img) && a < |m| && img[a].sq == Highest(img)
    ensures Undoing(PutCell(m, a, img[a].(main := img[a].back)), img)
  {
    var l := PutCell(m, a, img[a].(main := img[a].back))[a];
    assert LineUndoes(m[a], img[a], Highest(img));
    assert forall j | l.lo <= j < |l.hist| - 1 :: l.hist[j] == m[a].hist[j];
  }

  lemma {:induction false} UndoneIs(c: Image, img: Image)
    requires |c| == |img| && !Whole(img) && forall a | 0 <= a < |img| :: c[a] == Undone(img[a], Highest(img))
    ensures Boundary(c, Highest(img) + 1) && Highest(c) == Highest(img) && Mains(c) == Recovered(img)
  {
    SameSeqs(c, img, 0);
  }

  /** Everything on cache line l is on its way to memory. */
  predicate LineFlushed(m: Memory, l: nat) {
    forall b | 0 <= b < |m| && CacheLine(b) == l :: Flushed(m[b])
  }

  lemma {:induction false} WiderTrail(trail: seq<Memory>, v: seq<Val>, w: seq<Val>)
    requires forall k | 0 <= k < |trail| :: RecoversTo(trail[k], v, v)
    ensures forall k | 0 <= k < |trail| :: RecoversTo(trail[k], v, w)
  {
  }

  lemma {:induction false} EndingSafe(m: Memory, start: Image, n: nat, f: seq<Val>, log: set<nat>)
    requires Runs(m, start, n, |log|, f, log) && Guard(start, n)
    ensures RecoversTo(m, Mains(start), f)
  {
    RunsSafe(m, start, n, |log|, f, log);
    if |log| == 0 {
      assert log == {};
      assert Mains(start) == f;
    }
  }

  lemma {:induction false} QuietRuns(m: Memory, n: nat)
    requires MemOk(m) && (forall a | 0 <= a < |m| :: Settled(m[a])) && Boundary(Curs(m), n)
    ensures Runs(m, Curs(m), n, 0, Mains(Curs(m)), SetOf([])) && LogOk(m, n, [])
  {
  }

  lemma {:induction false} SetOfMore(log: seq<Addr>, a: Addr)
    ensures SetOf(log + [a]) == SetOf(log) + {a}
    ensures Logged(log, a) ==> SetOf(log) + {a} == SetOf(log)
  {
    assert forall i | 0 <= i < |log| :: (log + [a])[i] == log[i];
    assert (log + [a])[|log|] == a;
    InSetOf(log, a);
  }

  lemma {:induction false} Recovers(m: Memory, v: seq<Val>, w: seq<Val>, img: Image)
    requires RecoversTo(m, v, w) && CrashImage(m, img)
    ensures Recovered(img) == v || Recovered(img) == w
  {
  }

  lemma {:induction false} SameLog(m: Memory, m': Memory, n: nat, log: seq<Addr>)
    requires MemOk(m) && LogOk(m, n, log) && SameBut(m, m')
    ensures MemOk(m') && LogOk(m', n, log) && Curs(m') == Curs(m)
    ensures Counted(m, n, log) ==> Counted(m', n, log)
  {
    assert forall a | 0 <= a < |m| :: Cur(m'[a]) == Cur(m[a]);
  }

  lemma {:induction false} WiderMemory(m: Memory, v: seq<Val>, w: seq<Val>)
    requires RecoversTo(m, w, w)
    ensures RecoversTo(m, v, w)
  {
  }

  lemma {:induction false} LogInRange(m: Memory, n: nat, log: seq<Addr>)
    requires MemOk(m) && LogOk(m, n, log)
    ensures forall i | 0 <= i < |log| :: log[i] < |m|
    ensures |SetOf(log)| == |log|
  {
    SetOfSize(log);
  }
}
