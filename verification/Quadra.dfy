/**
  Quadra's single-fence commit: every cell also carries, per parity of the sequence, how many
  cells its transaction wrote.  Recovery keeps the highest sequence found only if all its
  cells say how many there are, and that many are found.
*/
module Quadra {
  import opened Persistence
  import opened TxRuns

  datatype Cell = Cell(main: Val, back: Val, sq: nat, count0: nat, count1: nat)

  type Memory = seq<Line<Cell>>
  /** What a crash leaves. */
  type Image = seq<Cell>

  const CHUNK_SIZE: nat := 16 * 1024 * 1024

  function Count(c: Cell, n: nat): nat { if n % 2 == 0 then c.count0 else c.count1 }

  function WithCount(c: Cell, n: nat, k: nat): Cell { if n % 2 == 0 then c.(count0 := k) else c.(count1 := k) }

  predicate MemOk(m: Memory) { forall a | 0 <= a < |m| :: LineOk(m[a]) }

  predicate CrashImage(m: Memory, img: Image) {
    |img| == |m| && forall a | 0 <= a < |m| :: Survives(m[a], img[a])
  }

  function Boot(img: Image): Memory { seq(|img|, a requires 0 <= a < |img| => Booted(img[a])) }

  function Curs(m: Memory): Image
    requires MemOk(m)
  {
    seq(|m|, a requires 0 <= a < |m| => Cur(m[a]))
  }

  function Mains(c: Image): seq<Val> { seq(|c|, a requires 0 <= a < |c| => c[a].main) }

  // ---------- what recovery computes ----------

  function Highest(c: Image): (h: nat)
    ensures forall a | 0 <= a < |c| :: c[a].sq <= h
    ensures h == 0 || exists a :: 0 <= a < |c| && c[a].sq == h
  {
    if c == [] then 0
    else
      var h := Highest(c[..|c| - 1]);
      assert forall a | 0 <= a < |c| - 1 :: c[a] == c[..|c| - 1][a];
      if c[|c| - 1].sq > h then c[|c| - 1].sq else h
  }

  function Holders(c: Image, h: nat): set<nat> { set a: nat | a < |c| && c[a].sq == h }

  predicate CountsAre(c: Image, h: nat, k: nat) {
    forall a | 0 <= a < |c| && c[a].sq == h :: Count(c[a], h) == k
  }

  /** The last transaction found is there with all its cells. */
  predicate Whole(c: Image) {
    var h := Highest(c);
    h > 0 && CountsAre(c, h, |Holders(c, h)|)
  }

  function RecoveredVal(c: Cell, h: nat, whole: bool): Val { if c.sq == h && !whole then c.back else c.main }

  function Recovered(c: Image): seq<Val> {
    seq(|c|, a requires 0 <= a < |c| => RecoveredVal(c[a], Highest(c), Whole(c)))
  }

  ghost predicate RecoversTo(m: Memory, v: seq<Val>, w: seq<Val>) {
    forall img: Image | CrashImage(m, img) :: Recovered(img) == v || Recovered(img) == w
  }

  // ---------- between transactions ----------

  predicate Reverted(c: Image) {
    forall a | 0 <= a < |c| && c[a].sq == Highest(c) :: c[a].main == c[a].back
  }

  /** Everything is durable and the last transaction found is either all there or undone. */
  predicate Boundary(c: Image, n: nat) {
    Highest(c) < n && (Whole(c) || Reverted(c))
  }

  /**
    The count slot transaction n is about to clear is not in use by the last one found, or
    undoing that one would change nothing outside the cell being written.
  */
  predicate Guard(c: Image, n: nat) {
    (n - Highest(c)) % 2 == 1
    || forall a, b | 0 <= a < |c| && 0 <= b < |c| && a != b && c[a].sq == Highest(c) && c[b].sq == Highest(c) ::
         c[b].main == c[b].back
  }

  lemma BoundaryRecovers(c: Image, n: nat)
    requires Boundary(c, n)
    ensures Recovered(c) == Mains(c)
  {
  }

  lemma HighestIs(c: Image, h: nat)
    requires forall a | 0 <= a < |c| :: c[a].sq <= h
    requires h == 0 || exists a :: 0 <= a < |c| && c[a].sq == h
    ensures Highest(c) == h
  {
  }

  lemma SameSeqs(c: Image, d: Image, h: nat)
    requires |c| == |d| && forall a | 0 <= a < |c| :: c[a].sq == d[a].sq
    ensures Highest(c) == Highest(d) && Holders(c, h) == Holders(d, h)
  {
    HighestIs(c, Highest(d));
  }

  // ---------- while transaction n runs ----------

  /** A content of a cell before the transaction's sequence reaches it; c0 is the durable one. */
  predicate Early(x: Cell, c0: Cell, n: nat) {
    && x.sq == c0.sq && x.main == c0.main && (x.back == c0.back || x.back == c0.main)
    && Count(x, n + 1) == Count(c0, n + 1)
    && (Count(x, n) == Count(c0, n) || x.back == c0.main)
  }

  /** And after: backed up, and counted only with its final value f, when k cells are. */
  predicate Late(x: Cell, c0: Cell, n: nat, k: nat, f: Val) {
    && x.sq == n && x.back == c0.main
    && (Count(x, n) == 0 || (Count(x, n) == k && x.main == f))
  }

  predicate LineRuns(l: Line<Cell>, c0: Cell, n: nat, k: nat, f: Val) {
    && LineOk(l)
    && forall j | l.lo <= j < |l.hist| :: Early(l.hist[j], c0, n) || Late(l.hist[j], c0, n, k, f)
  }

  /** k is zero until all cells of the log have their final values f. */
  ghost predicate Runs(m: Memory, start: Image, n: nat, k: nat, f: seq<Val>, log: set<nat>) {
    && |m| == |start| == |f| && Boundary(start, n)
    && (forall a | 0 <= a < |m| :: LineRuns(m[a], start[a], n, k, f[a]))
    && (forall a: nat | a < |m| && a !in log :: Settled(m[a]) && Cur(m[a]) == start[a] && f[a] == start[a].main)
    && (k > 0 ==> k == |log|)
  }

  /** No trace of transaction n: recovery finds what was there before. */
  lemma {:induction false} EarlySafe(img: Image, c: Image, n: nat)
    requires Boundary(c, n) && Guard(c, n) && |img| == |c|
    requires forall a | 0 <= a < |c| :: Early(img[a], c[a], n)
    ensures Recovered(img) == Mains(c)
  {
    hide Highest, Holders;
    var h := Highest(c);
    SameSeqs(img, c, h);
    if d: nat :| d < |c| && c[d].sq == h && Count(img[d], h) != Count(c[d], h) {
      assert Early(img[d], c[d], n);
      forall a | 0 <= a < |c| && c[a].sq == h ensures img[a].back == c[a].main {
        assert Early(img[a], c[a], n);
      }
    } else {
      assert Whole(img) == Whole(c);
    }
  }

  /** What a crash can leave of a running transaction. */
  ghost predicate ImageRuns(img: Image, start: Image, n: nat, k: nat, f: seq<Val>, log: set<nat>) {
    && |img| == |start| == |f| && Highest(start) < n
    && (forall a | 0 <= a < |img| :: Early(img[a], start[a], n) || Late(img[a], start[a], n, k, f[a]))
    && (forall a: nat | a < |img| && a !in log :: img[a] == start[a] && f[a] == start[a].main)
    && (k > 0 ==> k == |log|)
  }

  lemma ImageOfRun(img: Image, m: Memory, start: Image, n: nat, k: nat, f: seq<Val>, log: set<nat>)
    requires Runs(m, start, n, k, f, log) && CrashImage(m, img)
    ensures ImageRuns(img, start, n, k, f, log)
  {
    hide Early;
    hide Late;
    forall a | 0 <= a < |img|
      ensures Early(img[a], start[a], n) || Late(img[a], start[a], n, k, f[a])
      ensures a !in log ==> img[a] == start[a]
    {
      assert Survives(m[a], img[a]) && LineRuns(m[a], start[a], n, k, f[a]);
    }
  }

  /** Some cell of transaction n was found: it is kept only if all were. */
  lemma LateSafe(img: Image, start: Image, n: nat, k: nat, f: seq<Val>, log: set<nat>)
    requires ImageRuns(img, start, n, k, f, log) && Holders(img, n) != {}
    ensures Recovered(img) == if Whole(img) then f else Mains(start)
    ensures Whole(img) ==> k > 0
  {
    var b :| b in Holders(img, n);
    HighestIs(img, n);
    if Whole(img) {
      WholeLate(img, start, n, k, f, log, b);
    }
  }

  lemma WholeLate(img: Image, start: Image, n: nat, k: nat, f: seq<Val>, log: set<nat>, b: nat)
    requires ImageRuns(img, start, n, k, f, log) && b in Holders(img, n) && Highest(img) == n && Whole(img)
    ensures Recovered(img) == f && k > 0
  {
    var hs := Holders(img, n);
    assert hs <= log by {
      assert forall a: nat | a in hs && a !in log :: img[a] == start[a];
    }
    assert |hs| > 0 by {
      assert hs != {};
    }
    assert Late(img[b], start[b], n, k, f[b]);
    SubsetSize(hs, log);
    forall a | 0 <= a < |img| ensures img[a].main == f[a] {
      assert a in log ==> a in hs;
    }
  }

  lemma {:induction false} SubsetSize(a: set<nat>, b: set<nat>)
    requires a <= b
    ensures |a| <= |b| && (|a| == |b| ==> a == b)
  {
    if x :| x in b - a {
      SubsetSize(a, b - {x});
    } else {
      assert b - a == {};
      assert a == b;
    }
  }

  lemma RunsSafe(m: Memory, start: Image, n: nat, k: nat, f: seq<Val>, log: set<nat>)
    requires Runs(m, start, n, k, f, log) && Guard(start, n)
    ensures RecoversTo(m, Mains(start), if k > 0 then f else Mains(start))
  {
    forall img: Image | CrashImage(m, img)
      ensures Recovered(img) == Mains(start) || (k > 0 && Recovered(img) == f) {
      ImageOfRun(img, m, start, n, k, f, log);
      if Holders(img, n) == {} {
        forall a: nat | a < |img| ensures Early(img[a], start[a], n) {
          assert a !in Holders(img, n);
        }
        EarlySafe(img, start, n);
      } else {
        LateSafe(img, start, n, k, f, log);
      }
    }
  }

  lemma SettledSafe(m: Memory, n: nat)
    requires MemOk(m) && Boundary(Curs(m), n) && forall a | 0 <= a < |m| :: Settled(m[a])
    ensures RecoversTo(m, Mains(Curs(m)), Mains(Curs(m)))
  {
    forall img: Image | CrashImage(m, img) ensures Recovered(img) == Mains(Curs(m)) {
      assert forall a | 0 <= a < |m| :: Survives(m[a], img[a]) ==> img[a] == Cur(m[a]);
      assert img == Curs(m);
      BoundaryRecovers(img, n);
    }
  }

  // ---------- pstore ----------

  function PutCell(m: Memory, a: Addr, c: Cell): Memory
    requires a < |m|
  {
    m[a := Put(m[a], c)]
  }

  /** The memories pstore goes through. */
  function StoreTrail(m: Memory, n: nat, a: Addr, v: Val): (r: seq<Memory>)
    requires MemOk(m) && a < |m|
    ensures r != [] && |r[|r| - 1]| == |m|
  {
    var c := Cur(m[a]);
    if c.sq == n then [PutCell(m, a, c.(main := v))]
    else
      var c1 := c.(back := c.main);
      var c2 := WithCount(c1, n, 0);
      var c3 := c2.(sq := n);
      var m1 := PutCell(m, a, c1);
      var m2 := PutCell(m1, a, c2);
      var m3 := PutCell(m2, a, c3);
      [m1, m2, m3, PutCell(m3, a, c3.(main := v))]
  }

  /** The cell pstore leaves. */
  function StoredCell(c: Cell, n: nat, v: Val): Cell {
    if c.sq == n then c.(main := v) else WithCount(Cell(v, c.main, n, c.count0, c.count1), n, 0)
  }

  lemma StoreEffect(m: Memory, n: nat, a: Addr, v: Val)
    requires MemOk(m) && a < |m|
    ensures var r := StoreTrail(m, n, a, v);
      MemOk(r[|r| - 1]) && Curs(r[|r| - 1]) == Curs(m)[a := StoredCell(Cur(m[a]), n, v)]
  {
  }

  lemma PutRuns(m: Memory, start: Image, n: nat, k: nat, f: seq<Val>, log: set<nat>, a: Addr, c: Cell)
    requires Runs(m, start, n, k, f, log) && a < |m| && a in log
    requires Early(c, start[a], n) || Late(c, start[a], n, k, f[a])
    ensures Runs(PutCell(m, a, c), start, n, k, f, log)
  {
    var l := PutCell(m, a, c)[a];
    assert LineRuns(m[a], start[a], n, k, f[a]);
    assert forall j | l.lo <= j < |l.hist| - 1 :: l.hist[j] == m[a].hist[j];
  }

  lemma MoreLog(m: Memory, start: Image, n: nat, f: seq<Val>, log: set<nat>, a: Addr)
    requires Runs(m, start, n, 0, f, log)
    ensures Runs(m, start, n, 0, f, log + {a})
  {
  }

  lemma {:induction false} StoreRuns(m: Memory, start: Image, n: nat, f: seq<Val>, log: set<nat>, a: Addr, v: Val)
    requires MemOk(m) && Runs(m, start, n, 0, f, log) && a < |m| && (Cur(m[a]).sq == n <==> a in log)
    ensures forall i | 0 <= i < |StoreTrail(m, n, a, v)| :: Runs(StoreTrail(m, n, a, v)[i], start, n, 0, f, log + {a})
  {
    hide Highest, PutCell, Whole;
    var c := Cur(m[a]);
    assert LineRuns(m[a], start[a], n, 0, f[a]);
    MoreLog(m, start, n, f, log, a);
    hide Runs, Boundary;
    if c.sq == n {
      PutRuns(m, start, n, 0, f, log + {a}, a, c.(main := v));
    } else {
      var c1 := c.(back := c.main);
      var c2 := WithCount(c1, n, 0);
      var c3 := c2.(sq := n);
      PutRuns(m, start, n, 0, f, log + {a}, a, c1);
      var m1 := PutCell(m, a, c1);
      PutRuns(m1, start, n, 0, f, log + {a}, a, c2);
      var m2 := PutCell(m1, a, c2);
      PutRuns(m2, start, n, 0, f, log + {a}, a, c3);
      var m3 := PutCell(m2, a, c3);
      PutRuns(m3, start, n, 0, f, log + {a}, a, c3.(main := v));
    }
  }

  // ---------- the guard is exact ----------

  lemma BootRuns(c: Image, n: nat)
    requires Boundary(c, n)
    ensures Runs(Boot(c), c, n, 0, Mains(c), {}) && MemOk(Boot(c))
  {
  }

  /** Crashes within a store to a find what was there before. */
  ghost predicate StoreIsSafe(c: Image, n: nat, a: Addr, v: Val)
    requires MemOk(Boot(c)) && a < |c|
  {
    forall i | 0 <= i < |StoreTrail(Boot(c), n, a, v)| ::
      RecoversTo(StoreTrail(Boot(c), n, a, v)[i], Mains(c), Mains(c))
  }

  lemma {:induction false} GuardedStore(c: Image, n: nat, a: Addr, v: Val)
    requires Boundary(c, n) && Guard(c, n) && a < |c|
    ensures MemOk(Boot(c)) && StoreIsSafe(c, n, a, v)
  {
    BootRuns(c, n);
    StoreRuns(Boot(c), c, n, Mains(c), {}, a, v);
    forall i | 0 <= i < |StoreTrail(Boot(c), n, a, v)|
      ensures RecoversTo(StoreTrail(Boot(c), n, a, v)[i], Mains(c), Mains(c))
    {
      RunsSafe(StoreTrail(Boot(c), n, a, v)[i], c, n, 0, Mains(c), {a});
    }
  }

  /** Between transactions, crashes during the next store are harmless exactly under the guard. */
  lemma {:induction false} GuardIsExact(c: Image, n: nat)
    requires Boundary(c, n)
    ensures MemOk(Boot(c))
    ensures Guard(c, n) <==> forall a: Addr, v: Val | a < |c| :: StoreIsSafe(c, n, a, v)
  {
    hide Count, LineOk, StoreIsSafe;
    hide Boundary;
    hide Highest;
    BootRuns(c, n);
    if Guard(c, n) {
      forall a: Addr, v: Val | a < |c| ensures StoreIsSafe(c, n, a, v) {
        GuardedStore(c, n, a, v);
      }
    } else {
      var a: nat, b: nat :| a < |c| && b < |c| && a != b && c[a].sq == Highest(c) && c[b].sq == Highest(c)
                            && c[b].main != c[b].back;
      Unguarded(c, n, a, b);
    }
  }

  /** Without the guard, a store to a may make recovery undo b, committed long before. */
  lemma {:induction false} Unguarded(c: Image, n: nat, a: Addr, b: Addr)
    requires Boundary(c, n) && (n - Highest(c)) % 2 == 0 && a < |c| && b < |c| && a != b
    requires c[a].sq == c[b].sq == Highest(c) && c[b].main != c[b].back
    ensures MemOk(Boot(c)) && !StoreIsSafe(c, n, a, 0)
  {
    hide CountsAre, Whole, Highest, Survives, StoreTrail, Holders, CrashImage, Early;
    var img := c[a := WithCount(c[a].(back := c[a].main), n, 0)];
    LostCount(c, n, a, b);
    CountCleared(Boot(c), n, a, 0) by {
      assert MemOk(Boot(c));
    }
    assert Curs(Boot(c)) == c;
    assert Recovered(img)[b] != Mains(c)[b];
    assert !RecoversTo(StoreTrail(Boot(c), n, a, 0)[1], Mains(c), Mains(c));
  }

  lemma {:induction false} CountCleared(m: Memory, n: nat, a: Addr, v: Val)
    requires MemOk(m) && a < |m| && Cur(m[a]).sq != n
    ensures |StoreTrail(m, n, a, v)| == 4
    ensures CrashImage(StoreTrail(m, n, a, v)[1], Curs(m)[a := WithCount(Cur(m[a]).(back := Cur(m[a]).main), n, 0)])
  {
    var x := WithCount(Cur(m[a]).(back := Cur(m[a]).main), n, 0);
    var m2 := StoreTrail(m, n, a, v)[1];
    assert m2[a].hist[|m2[a].hist| - 1] == x;
    forall d | 0 <= d < |m| ensures Survives(m2[d], Curs(m)[a := x][d]) {
      assert d != a ==> m2[d].hist[|m2[d].hist| - 1] == Cur(m[d]);
    }
  }

  lemma {:induction false} LostCount(c: Image, n: nat, a: Addr, b: Addr)
    requires Boundary(c, n) && (n - Highest(c)) % 2 == 0 && a < |c| && b < |c| && a != b
    requires c[a].sq == c[b].sq == Highest(c) && c[b].main != c[b].back
    ensures Recovered(c[a := WithCount(c[a].(back := c[a].main), n, 0)])[b] == c[b].back
  {
    hide Highest;
    var h := Highest(c);
    var img := c[a := WithCount(c[a].(back := c[a].main), n, 0)];
    SameSeqs(img, c, h);
    assert Count(img[a], h) == 0 && a in Holders(img, h);
    assert |Holders(img, h)| != 0;
  }
}
