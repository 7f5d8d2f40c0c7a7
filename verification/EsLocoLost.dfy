/** Small blocks that reach a list of the pool are never handed out again: a run that shows it. */
module EsLocoLost {
  import opened EsLocoBytes
  import opened EsLocoLists
  import opened EsLoco
  import opened EsLocoCode

  lemma {:induction false} OneClass(size: nat, b: nat, c: nat)
    requires SizeClass(size, b) && SizeClass(size, c)
    ensures b == c
  {
  }

  /** Objects of up to a quarter of a slab, header included, are small. */
  lemma {:induction false} QuarterIsSmall(size: nat, b: nat)
    requires SizeClass(size, b) && size + HEADER <= SLAB_SIZE / 4
    ensures Small(b) && b < MAX_BLOCK_SIZE
  {
    if b > 0 {
      assert Pow(b - 1) < size + HEADER;
    }
    PowBig();
    PowMonotone(MAX_BLOCK_SIZE - 1, if b >= MAX_BLOCK_SIZE then b - 1 else MAX_BLOCK_SIZE - 1);
  }

  lemma {:induction false} PowBig()
    ensures SLAB_SIZE / 4 <= Pow(MAX_BLOCK_SIZE - 1)
  {
    assert Pow(5) == 32 && Pow(10) == 32 * Pow(5) && Pow(15) == 32 * Pow(10) && Pow(20) == 32 * Pow(15);
    PowMonotone(20, MAX_BLOCK_SIZE - 1);
  }

  // ---------- what the run has got to ----------

  /** Objects handed out: their blocks are live, of class b and different. */
  ghost predicate AllLive(v: View, b: nat, got: seq<Addr>) {
    && (forall i | 0 <= i < |got| :: HEADER <= got[i] && got[i] - HEADER in v.blocks)
    && (forall i | 0 <= i < |got| :: v.blocks[got[i] - HEADER] == Block(b, Live))
    && (forall i, j | 0 <= i < j < |got| :: got[i] != got[j])
  }

  /** Their blocks are free, in the pool's list of class b. */
  ghost predicate AllLost(v: View, b: nat, got: seq<Addr>) {
    && (forall i | 0 <= i < |got| :: HEADER <= got[i] && got[i] - HEADER in v.blocks)
    && (forall i | 0 <= i < |got| :: v.blocks[got[i] - HEADER] == Block(b, InGlobal))
  }

  /** The first n have been freed, and are in the thread's list. */
  ghost predicate FirstFreed(v: View, b: nat, got: seq<Addr>, n: nat) {
    && (forall i | 0 <= i < |got| :: HEADER <= got[i] && got[i] - HEADER in v.blocks)
    && (forall i | 0 <= i < |got| && i < n :: v.blocks[got[i] - HEADER] == Block(b, InThread(0)))
    && (forall i | n <= i < |got| :: v.blocks[got[i] - HEADER] == Block(b, Live))
    && (forall i, j | 0 <= i < j < |got| :: got[i] != got[j])
  }

  /** A single thread; its list of class b holds n blocks and the pool's k. */
  ghost predicate Has(e: EsLoco2, b: nat, n: nat, k: nat)
    reads e
  {
    && e.Valid() && |e.tl| == |e.view.t| == 1 && b < |e.view.t[0]| && b < |e.view.g| && b < MAX_BLOCK_SIZE
    && |e.view.t[0][b]| == n && |e.view.g[b]| == k
    && |e.tl[0].tflists| == |e.gflists| == MAX_BLOCK_SIZE
    && e.tl[0].tflists[b].count == n && e.gflists[b].count == k
  }

  lemma {:induction false} Counted(e: EsLoco2, b: nat)
    requires e.Valid() && |e.tl| == 1 && b < MAX_BLOCK_SIZE
    ensures |e.view.t| == 1 && b < |e.view.t[0]| && b < |e.view.g|
    ensures Has(e, b, |e.view.t[0][b]|, |e.view.g[b]|)
    ensures InList(e.view.t[0][b], e.view.blocks, b, InThread(0)) && InList(e.view.g[b], e.view.blocks, b, InGlobal)
  {
    CountsOk(e.State(), e.view, 0, b);
    Lists(e.State(), e.view, 0, b);
  }

  lemma {:induction false} OneMore(v: View, v': View, b: nat, got: seq<Addr>, ptr: Addr)
    requires AllLive(v, b, got) && HEADER <= ptr && NewBlock(v, v', ptr - HEADER, b)
    ensures AllLive(v', b, got + [ptr])
  {
    var r := got + [ptr];
    forall i, j | 0 <= i < j < |r| ensures r[i] != r[j] {
      if j == |got| {
        assert got[i] - HEADER in v.blocks;
      }
    }
  }

  // ---------- the run ----------

  /** As many objects of one small size as a thread's list never holds. */
  method MallocAll(e: EsLoco2, size: nat, ghost b: nat) returns (got: seq<Addr>)
    requires Has(e, b, 0, 0) && SizeClass(size, b) && size + HEADER <= SLAB_SIZE / 4
    requires e.top + MAX_LIST_SIZE * SLAB_SIZE <= e.end
    modifies e
    ensures Has(e, b, 0, 0) && |got| == MAX_LIST_SIZE && AllLive(e.view, b, got)
    ensures e.top + SLAB_SIZE <= old(e.top) + (MAX_LIST_SIZE + 1) * SLAB_SIZE
  {
    hide TilesOk, Contiguous, ListsOk;
    QuarterIsSmall(size, b);
    PowBig();
    hide Good, LiveBlocks, Allocated, SmallStay, PoppedThread, PoppedGlobal, SizeClass, AllLive, Small;
    got := [];
    NoneLive(e.view, b);
    while |got| < MAX_LIST_SIZE
      invariant Has(e, b, 0, 0) && |got| <= MAX_LIST_SIZE && AllLive(e.view, b, got)
      invariant e.top <= old(e.top) + |got| * SLAB_SIZE
    {
      ghost var v := e.view;
      var ptr, c := e.Malloc(0, size);
      OneClass(size, b, c);
      OneMore(v, e.view, b, got, ptr);
      got := got + [ptr];
      Counted(e, b);
    }
  }

  lemma {:induction false} NoneLive(v: View, b: nat)
    ensures AllLive(v, b, [])
  {
  }

  /** All of them are freed; with the last one the thread's list is full and goes to the pool's. */
  method FreeAll(e: EsLoco2, got: seq<Addr>, ghost b: nat)
    requires Has(e, b, 0, 0) && |got| == MAX_LIST_SIZE && AllLive(e.view, b, got)
    modifies e
    ensures e.top == old(e.top)
    ensures Has(e, b, 0, MAX_LIST_SIZE) && AllLost(e.view, b, got)
  {
    hide Good, LiveBlocks, SmallStay, Pushed, Transferred, FirstFreed, AllLive;
    NoneFreed(e.view, b, got);
    for n := 0 to |got|
      invariant e.top == old(e.top)
      invariant if n < |got| then Has(e, b, n, 0) && FirstFreed(e.view, b, got, n)
        else Has(e, b, 0, MAX_LIST_SIZE) && AllLost(e.view, b, got)
    {
      ghost var v := e.view;
      Counted(e, b);
      FreeNext(v, b, got, n);
      e.Free(0, got[n]);
      Counted(e, b);
    }
  }

  lemma {:induction false} NoneFreed(v: View, b: nat, got: seq<Addr>)
    requires AllLive(v, b, got)
    ensures FirstFreed(v, b, got, 0)
  {
  }

  /** What freeing the next object does. */
  lemma {:induction false} FreeNext(v: View, b: nat, got: seq<Addr>, n: nat)
    requires FirstFreed(v, b, got, n) && n < |got| == MAX_LIST_SIZE
    requires |v.t| == 1 && b < |v.t[0]| && b < |v.g| && |v.t[0][b]| == n && v.g[b] == []
    requires InList(v.t[0][b], v.blocks, b, InThread(0))
    ensures HEADER <= got[n] && got[n] - HEADER in LiveBlocks(v) && v.blocks[got[n] - HEADER].exp == b
    ensures var w := Freed(v, 0, b, got[n] - HEADER);
      && |w.t| == 1 && b < |w.t[0]| && b < |w.g|
      && if n + 1 < MAX_LIST_SIZE then |w.t[0][b]| == n + 1 && w.g[b] == [] && FirstFreed(w, b, got, n + 1)
         else w.t[0][b] == [] && |w.g[b]| == MAX_LIST_SIZE && AllLost(w, b, got)
  {
    var a := got[n] - HEADER;
    var u := Pushed(v, 0, b, a);
    forall i | 0 <= i < |got| && i != n ensures got[i] - HEADER != a {
      assert got[i] != got[n];
    }
    forall i | 0 <= i <= n ensures got[i] - HEADER in u.t[0][b] {
      assert i < n ==> got[i] - HEADER in v.t[0][b];
      assert u.t[0][b][0] == a;
      assert forall x <- v.t[0][b] :: x in u.t[0][b];
    }
  }

  lemma {:induction false} LostStay(v: View, v': View, b: nat, got: seq<Addr>, ptr: Addr)
    requires AllLost(v, b, got) && HEADER <= ptr && NewBlock(v, v', ptr - HEADER, b)
    ensures AllLost(v', b, got) && ptr !in got
  {
  }

  /** The next object of that size comes from a slab, or there is none. */
  method Take(e: EsLoco2, size: nat, ghost got: seq<Addr>, ghost b: nat) returns (ptr: Addr)
    requires Has(e, b, 0, MAX_LIST_SIZE) && AllLost(e.view, b, got) && SizeClass(size, b)
    requires size + HEADER <= SLAB_SIZE / 4
    modifies e
    ensures Has(e, b, 0, MAX_LIST_SIZE) && AllLost(e.view, b, got) && ptr !in got
    ensures ptr == 0 <==> Pow(b) >= old(e.tl[0].slabsize) && old(e.top) + SLAB_SIZE > e.end
    ensures ptr == 0 ==> e.top == old(e.top) && e.tl[0].slabsize == old(e.tl[0].slabsize)
    ensures ptr != 0 ==> e.top > old(e.top) || (e.top == old(e.top) && e.tl[0].slabsize < old(e.tl[0].slabsize))
  {
    QuarterIsSmall(size, b);
    PowBig();
    hide Good, LiveBlocks, Allocated, PoppedThread, PoppedGlobal, SizeClass, Small, SmallStay, AllLost;
    ghost var v := e.view;
    ghost var c;
    ptr, c := e.Malloc(0, size);
    OneClass(size, b, c);
    if ptr == 0 {
      NullIsNone(v, b, got);
    } else {
      LostStay(v, e.view, b, got, ptr);
      Counted(e, b);
    }
  }

  lemma {:induction false} NullIsNone(v: View, b: nat, got: seq<Addr>)
    requires AllLost(v, b, got)
    ensures 0 !in got
  {
  }

  /** Takes objects until there are no more. */
  method Exhaust(e: EsLoco2, size: nat, ghost got: seq<Addr>, ghost b: nat)
    requires Has(e, b, 0, MAX_LIST_SIZE) && AllLost(e.view, b, got) && SizeClass(size, b)
    requires size + HEADER <= SLAB_SIZE / 4
    modifies e
    ensures Has(e, b, 0, MAX_LIST_SIZE) && AllLost(e.view, b, got)
    ensures Pow(b) >= e.tl[0].slabsize && e.top + SLAB_SIZE > e.end
  {
    hide Good, SizeClass, AllLost;
    while true
      invariant Has(e, b, 0, MAX_LIST_SIZE) && AllLost(e.view, b, got)
      decreases e.end - e.top, e.tl[0].slabsize
    {
      var ptr := Take(e, size, got, b);
      if ptr == 0 {
        return;
      }
    }
  }

  /**
    A run after which a small block cannot be had although 64 of its size are free: 64 objects are
    taken and given back, which leaves them in the pool's list; the next object takes new space,
    and so does each one after it until none is left.
  */
  method SmallBlocksLost(size: nat, mem: Memory)
    returns (e: EsLoco2, ghost b: nat, got: seq<Addr>, next: Addr, last: Addr)
    requires size + HEADER <= SLAB_SIZE / 4
    ensures fresh(e) && SizeClass(size, b) && Has(e, b, 0, MAX_LIST_SIZE)
    ensures |got| == MAX_LIST_SIZE && AllLost(e.view, b, got)
    ensures next != 0 && next !in got && last == 0
  {
    hide Good, SizeClass, AllLost, AllLive;
    e := new EsLoco2(1, 1 + (MAX_LIST_SIZE + 1) * SLAB_SIZE, 1, mem);
    var bsize := HighestBit(size + HEADER);
    b := bsize;
    ClassIs(size, b);
    QuarterIsSmall(size, b);
    Counted(e, b);
    NoBlocks(e.view, b);
    got := MallocAll(e, size, b);
    FreeAll(e, got, b);
    next := Take(e, size, got, b);
    Exhaust(e, size, got, b);
    last := Take(e, size, got, b);
  }

  lemma {:induction false} NoBlocks(v: View, b: nat)
    requires |v.t| == 1 && b < |v.t[0]| && b < |v.g| && v.blocks == map[]
    requires InList(v.t[0][b], v.blocks, b, InThread(0)) && InList(v.g[b], v.blocks, b, InGlobal)
    ensures v.t[0][b] == [] && v.g[b] == []
  {
    NonEmpty(v.t[0][b]);
    NonEmpty(v.g[b]);
  }

  lemma {:induction false} NonEmpty(s: seq<Addr>)
    ensures s == [] || exists a :: a in s
  {
    if s != [] {
      assert s[0] in s;
    }
  }

  lemma {:induction false} ClassIs(size: nat, b: nat)
    requires size + HEADER <= Pow(b) && (b > 0 ==> Pow(b - 1) < size + HEADER)
    ensures SizeClass(size, b)
  {
    forall c | 0 <= c < b ensures Pow(c) < size + HEADER {
      PowMonotone(c, b - 1);
    }
  }
}
