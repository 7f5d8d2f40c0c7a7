/** EsLoco2's malloc and free, on its persistent metadata. */
module EsLocoCode {
  import opened EsLocoBytes
  import opened EsLocoLists
  import opened EsLoco

  /** The blocks handed out and not yet returned, with the exponents of their sizes. */
  function LiveBlocks(v: View): map<Addr, nat> {
    map a | a in v.blocks && v.blocks[a].place == Live :: v.blocks[a].exp
  }

  /** An exponent below which blocks are cut from slabs. */
  predicate Small(b: nat) { Pow(b) < SLAB_SIZE / 2 }

  /** Free small blocks in the pool's lists are still there. */
  predicate SmallStay(v: View, v': View) {
    forall a <- v.blocks | v.blocks[a].place == InGlobal && Small(v.blocks[a].exp) ::
      a in v'.blocks && v'.blocks[a] == v.blocks[a]
  }

  lemma {:induction false} PowMonotone(b: nat, c: nat)
    requires b <= c
    ensures Pow(b) <= Pow(c)
    decreases c
  {
    if b < c { PowMonotone(b, c - 1); }
  }

  /** The exponent malloc works with: the least power of two that holds the object and the header. */
  ghost predicate SizeClass(size: nat, b: nat) {
    size + HEADER <= Pow(b) && forall c | 0 <= c < b :: Pow(c) < size + HEADER
  }

  /** Block a, not handed out before, is handed out now, and nothing else has changed hands. */
  predicate Allocated(v: View, v': View, a: Addr, b: nat) {
    a !in LiveBlocks(v) && LiveBlocks(v') == LiveBlocks(v)[a := b]
  }

  // ---------- the list operations on the metadata ----------

  function SetThreadList(m: Meta, t: nat, b: nat, f: FList): Meta
    requires t < |m.tl| && b < |m.tl[t].tflists|
  {
    m.(tl := m.tl[t := m.tl[t].(tflists := m.tl[t].tflists[b := f])])
  }

  lemma {:induction false} Lists(m: Meta, v: View, t: nat, b: nat)
    requires ListsOk(m, v) && t < |m.tl| && b < MAX_BLOCK_SIZE
    ensures ListOk(m, v, m.tl[t].tflists[b], v.t[t][b], b, InThread(t)) && ListIs(m.mem, m.tl[t].tflists[b], v.t[t][b])
    ensures ListOk(m, v, m.gflists[b], v.g[b], b, InGlobal) && ListIs(m.mem, m.gflists[b], v.g[b])
    ensures forall a | a in v.t[t][b] || a in v.g[b] :: a in v.blocks
  {
  }

  ghost function PoppedThread(v: View, t: nat, b: nat): View
    requires t < |v.t| && b < |v.t[t]| && v.t[t][b] != []
  {
    v.(blocks := v.blocks[v.t[t][b][0] := Block(b, Live)], t := v.t[t := v.t[t][b := v.t[t][b][1..]]])
  }

  lemma {:induction false} PopThreadKeeps(m: Meta, v: View, start: Addr, t: nat, b: nat, f: FList)
    requires Good(m, v, start) && t < |m.tl| && b < MAX_BLOCK_SIZE && Shaped(m, v) && v.t[t][b] != []
    requires ListIs(m.mem, f, v.t[t][b][1..])
    ensures Good(SetThreadList(m, t, b, f), PoppedThread(v, t, b), start)
    ensures Allocated(v, PoppedThread(v, t, b), v.t[t][b][0], b) && SmallStay(v, PoppedThread(v, t, b))
    ensures start <= v.t[t][b][0]
  {
    hide TilesOk, ListIs, Next, Size2;
    var s, a := v.t[t][b], v.t[t][b][0];
    var m', v' := SetThreadList(m, t, b, f), PoppedThread(v, t, b);
    Lists(m, v, t, b);
    assert NoDup(s) by { ListsApart(m.mem, m.tl[t].tflists[b], s); }
    assert a in s;
    forall c: Addr ensures c in s[1..] <==> c in s && c != a { OneOut(s, c); }
    Kept(m, m', v, v', {a}, t, b, m.gflists[b], v.g[b], b, InGlobal);
    MoveKeeps(m, m', v, v', start, {a}, t, b);
    InPool(m, v, start, a);
  }

  ghost function PoppedGlobal(v: View, b: nat): View
    requires b < |v.g| && v.g[b] != []
  {
    v.(blocks := v.blocks[v.g[b][0] := Block(b, Live)], g := v.g[b := v.g[b][1..]])
  }

  lemma {:induction false} PopGlobalKeeps(m: Meta, v: View, start: Addr, t: nat, b: nat, f: FList)
    requires Good(m, v, start) && t < |m.tl| && b < MAX_BLOCK_SIZE && Shaped(m, v) && v.g[b] != []
    requires ListIs(m.mem, f, v.g[b][1..])
    ensures Good(m.(gflists := m.gflists[b := f]), PoppedGlobal(v, b), start)
    ensures Allocated(v, PoppedGlobal(v, b), v.g[b][0], b) && (!Small(b) ==> SmallStay(v, PoppedGlobal(v, b)))
    ensures start <= v.g[b][0]
  {
    hide TilesOk, ListIs, Next, Size2;
    var s, a := v.g[b], v.g[b][0];
    var m', v' := m.(gflists := m.gflists[b := f]), PoppedGlobal(v, b);
    Lists(m, v, t, b);
    assert NoDup(s) by { ListsApart(m.mem, m.gflists[b], s); }
    assert a in s;
    forall c: Addr ensures c in s[1..] <==> c in s && c != a { OneOut(s, c); }
    Kept(m, m', v, v', {a}, t, b, m.tl[t].tflists[b], v.t[t][b], b, InThread(t));
    MoveKeeps(m, m', v, v', start, {a}, t, b);
    InPool(m, v, start, a);
  }

  ghost function Pushed(v: View, t: nat, b: nat, a: Addr): View
    requires t < |v.t| && b < |v.t[t]|
  {
    v.(blocks := v.blocks[a := Block(b, InThread(t))], t := v.t[t := v.t[t][b := [a] + v.t[t][b]]])
  }

  lemma {:induction false} PushKeeps(m: Meta, v: View, start: Addr, t: nat, b: nat, a: Addr, x: Addr, f: FList)
    requires Good(m, v, start) && t < |m.tl| && b < MAX_BLOCK_SIZE && Shaped(m, v)
    requires a in v.blocks && v.blocks[a] == Block(b, Live)
    requires x < WORD_LIMIT && ListIs(PutNext(m.mem, a, x), f, [a] + v.t[t][b])
    ensures Good(SetThreadList(m, t, b, f).(mem := PutNext(m.mem, a, x)), Pushed(v, t, b, a), start)
    ensures LiveBlocks(Pushed(v, t, b, a)) == LiveBlocks(v) - {a} && SmallStay(v, Pushed(v, t, b, a))
  {
    hide ListsOk, NoDup, Small, Pow, Contiguous, TilesOk, ListIs, Next, Size2, PutNext, DataStays;
    var m', v' := SetThreadList(m, t, b, f).(mem := PutNext(m.mem, a, x)), Pushed(v, t, b, a);
    LinkWritten(m, v, start, a, x);
    Lists(m, v, t, b);
    Kept(m, m', v, v', {a}, t, b, m.gflists[b], v.g[b], b, InGlobal);
    MoveKeeps(m, m', v, v', start, {a}, t, b);
  }

  ghost function Transferred(v: View, t: nat, b: nat): View
    requires t < |v.t| && b < |v.t[t]| && b < |v.g|
  {
    v.(blocks := map a <- v.blocks :: if a in v.t[t][b] then Block(b, InGlobal) else v.blocks[a],
       t := v.t[t := v.t[t][b := []]], g := v.g[b := v.t[t][b] + v.g[b]])
  }

  lemma {:induction false} TransferKeeps(m: Meta, v: View, start: Addr, t: nat, b: nat, mem: Memory, f: FList, o: FList)
    requires Good(m, v, start) && t < |m.tl| && b < MAX_BLOCK_SIZE && Shaped(m, v) && v.t[t][b] != []
    requires forall c <- v.blocks | c !in v.t[t][b] :: Next(mem, c) == Next(m.mem, c)
    requires forall c <- v.blocks :: Size2(mem, c) == Size2(m.mem, c)
    requires ListIs(mem, f, []) && ListIs(mem, o, v.t[t][b] + v.g[b])
    ensures Good(SetThreadList(m, t, b, f).(mem := mem, gflists := m.gflists[b := o]), Transferred(v, t, b), start)
    ensures LiveBlocks(Transferred(v, t, b)) == LiveBlocks(v) && SmallStay(v, Transferred(v, t, b))
  {
    hide TilesOk, ListIs, Next, Size2;
    var m', v' := SetThreadList(m, t, b, f).(mem := mem, gflists := m.gflists[b := o]), Transferred(v, t, b);
    Lists(m, v, t, b);
    MoveKeeps(m, m', v, v', start, (set a | a in v.t[t][b]), t, b);
  }

  lemma {:induction false} NotListed(m: Meta, v: View, t: nat, b: nat, a: Addr)
    requires ListsOk(m, v) && t < |m.tl| && b < MAX_BLOCK_SIZE && a in v.blocks && v.blocks[a].place == Live
    ensures a !in v.t[t][b]
  {
    Lists(m, v, t, b);
  }

  lemma {:induction false} ThreadNotGlobal(m: Meta, v: View, t: nat, b: nat)
    requires ListsOk(m, v) && t < |m.tl| && b < MAX_BLOCK_SIZE
    ensures forall a <- v.t[t][b] :: a !in v.g[b]
  {
    Lists(m, v, t, b);
  }

  lemma {:induction false} ListsApart(mem: Memory, f: FList, s: seq<Addr>)
    requires ListIs(mem, f, s)
    ensures NoDup(s)
  {
  }

  lemma {:induction false} OneOut(s: seq<Addr>, a: Addr)
    requires s != [] && NoDup(s)
    ensures a in s[1..] <==> a in s && a != s[0]
  {
    assert s == [s[0]] + s[1..];
    if a in s[1..] {
      var i :| 0 <= i < |s[1..]| && s[1..][i] == a;
      assert s[i + 1] == a;
    }
  }

  lemma {:induction false} InPool(m: Meta, v: View, start: Addr, a: Addr)
    requires Good(m, v, start) && a in v.blocks
    ensures 0 < start <= a && Size2(m.mem, a) == v.blocks[a].exp < MAX_BLOCK_SIZE
  {
    assert BlockOk(m, v, a);
    var x := Tile(a, Pow(v.blocks[a].exp), Used);
    Apart(v.tiles, start, m.top, x, x);
  }

  /** The head of a list is a block below top, or null. */
  lemma {:induction false} HeadBelow(m: Meta, v: View, start: Addr, f: FList, s: seq<Addr>, b: nat, place: Place)
    requires TilesOk(m, v, start) && ListOk(m, v, f, s, b, place)
    ensures f.head < m.top
  {
    hide Contiguous;
    BelowTop(m, v, start);
    if s != [] {
      assert s[0] in s;
      assert BlockOk(m, v, s[0]);
    }
  }

  /** Every block in a list of the pool is known. */
  lemma {:induction false} Listed(m: Meta, v: View, start: Addr)
    requires Good(m, v, start)
    ensures Shaped(m, v) && ListsOk(m, v) && 0 < start
    ensures forall b, a | 0 <= b < MAX_BLOCK_SIZE && a in v.g[b] :: a in v.blocks
  {
    forall b, a | 0 <= b < MAX_BLOCK_SIZE && a in v.g[b] ensures a in v.blocks {
      assert ListOk(m, v, m.gflists[b], v.g[b], b, InGlobal);
    }
  }

  lemma {:induction false} FreshBlock(v: View, v': View, a: Addr, b: nat)
    requires a !in v.blocks && v'.blocks == v.blocks[a := Block(b, Live)]
    ensures Allocated(v, v', a, b) && SmallStay(v, v')
  {
    assert forall c <- LiveBlocks(v') :: c in LiveBlocks(v)[a := b];
  }

  /** Block a is new and live; no list has changed. */
  ghost predicate NewBlock(v: View, v': View, a: Addr, b: nat) {
    a !in v.blocks && v'.blocks == v.blocks[a := Block(b, Live)] && v'.g == v.g && v'.t == v.t
  }

  /** The lists after thread t has freed block a: a full list of the thread has gone to the pool's list. */
  ghost function Freed(v: View, t: nat, b: nat, a: Addr): View
    requires t < |v.t| && b < |v.t[t]| && b < |v.g|
  {
    var w := Pushed(v, t, b, a);
    if |w.t[t][b]| < MAX_LIST_SIZE then w else Transferred(w, t, b)
  }

  /** Counts are lengths. */
  lemma {:induction false} CountsOk(m: Meta, v: View, t: nat, b: nat)
    requires ListsOk(m, v) && t < |m.tl| && b < MAX_BLOCK_SIZE
    ensures m.tl[t].tflists[b].count == |v.t[t][b]| && m.gflists[b].count == |v.g[b]|
  {
    Lists(m, v, t, b);
  }

  /** The size bytes at ptr lie in one block and meet neither next nor size2 of any block. */
  ghost predicate Placed(v: View, ptr: Addr, size: nat) {
    && HEADER <= ptr && ptr - HEADER in v.blocks && ptr + size <= ptr - HEADER + Pow(v.blocks[ptr - HEADER].exp)
    && forall x <- v.blocks :: Clear(ptr, size, NextAt(x), PERSIST) && Clear(ptr, size, Size2At(x), PERSIST)
  }

  lemma {:induction false} ObjectPlaced(m: Meta, v: View, start: Addr, ptr: Addr, size: nat)
    requires Good(m, v, start) && HEADER <= ptr && ptr - HEADER in v.blocks
    requires size + HEADER <= Pow(v.blocks[ptr - HEADER].exp)
    ensures Placed(v, ptr, size)
  {
    hide TilesOk, ListsOk, Pow;
    forall x <- v.blocks ensures Clear(ptr, size, NextAt(x), PERSIST) && Clear(ptr, size, Size2At(x), PERSIST) {
      if x != ptr - HEADER {
        BlocksClear(m, v, start, ptr - HEADER, x);
      }
    }
  }

  lemma {:induction false} LiveIs(v: View, a: Addr)
    ensures a in LiveBlocks(v) <==> a in v.blocks && v.blocks[a].place == Live
    ensures a in LiveBlocks(v) ==> LiveBlocks(v)[a] == v.blocks[a].exp && v.blocks[a] == Block(v.blocks[a].exp, Live)
  {
  }

  lemma {:induction false} HandedOut(v: View, v': View, a: Addr, b: nat)
    requires Allocated(v, v', a, b)
    ensures a in v'.blocks && v'.blocks[a].exp == b
  {
    assert a in LiveBlocks(v');
  }

  lemma {:induction false} NothingWritten(blocks: map<Addr, Block>, mem: Memory)
    ensures DataStays(blocks, mem, mem)
  {
  }

  lemma {:induction false} SmallSame(v: View)
    ensures SmallStay(v, v)
  {
  }

  /** What stays through both parts of free stays. */
  lemma {:induction false} StaysThrough(v: View, t: nat, b: nat, a: Addr, w: View, mem: Memory, mem': Memory, mem'': Memory)
    requires t < |v.t| && b < |v.t[t]| && a in v.blocks && v.blocks[a].exp == b
    requires DataStays(v.blocks, mem, mem') && DataStays(Pushed(v, t, b, a).blocks, mem', mem'')
    requires SmallStay(v, Pushed(v, t, b, a)) && SmallStay(Pushed(v, t, b, a), w)
    ensures DataStays(v.blocks, mem, mem'') && SmallStay(v, w)
  {
    hide Pow, Small;
    forall c <- v.blocks ensures BlockDataStays(c, Pow(v.blocks[c].exp), mem, mem'') {
      assert BlockDataStays(c, Pow(v.blocks[c].exp), mem, mem');
      assert c in Pushed(v, t, b, a).blocks;
      assert BlockDataStays(c, Pow(v.blocks[c].exp), mem', mem'');
    }
  }

  predicate ShortBut(tl: seq<TLData>, t: nat, b: nat)
    requires forall u | 0 <= u < |tl| :: |tl[u].tflists| == MAX_BLOCK_SIZE
  {
    forall u, d | 0 <= u < |tl| && 0 <= d < MAX_BLOCK_SIZE && (u != t || d != b) ::
      tl[u].tflists[d].count < MAX_LIST_SIZE
  }

  class EsLoco2 {
    const start: Addr
    const end: Addr
    var mem: Memory
    var top: Addr
    var gflists: seq<FList>
    var tl: seq<TLData>
    ghost var view: View

    ghost function State(): Meta reads this { Meta(mem, top, gflists, tl) }

    /** The blocks are well kept and no list of a thread is full. */
    ghost predicate Valid()
      reads this
    {
      && Good(State(), view, start) && Shaped(State(), view) && top <= end <= WORD_LIMIT
      && forall t, b | 0 <= t < |tl| && 0 <= b < MAX_BLOCK_SIZE :: tl[t].tflists[b].count < MAX_LIST_SIZE
    }

    /** Whatever is in the pool. */
    constructor (start: Addr, end: Addr, threads: nat, mem: Memory)
      requires 0 < start <= end <= WORD_LIMIT
      ensures Valid() && this.mem == mem && view == View([], map[], view.g, view.t) && top == start && |tl| == threads
      ensures this.start == start && this.end == end
    {
      this.start := start;
      this.end := end;
      this.mem := mem;
      top := start;
      gflists := seq(MAX_BLOCK_SIZE, i => EMPTY);
      tl := seq(threads, i => TLData(seq(MAX_BLOCK_SIZE, j => EMPTY), 0, 0));
      view := View([], map[], seq(MAX_BLOCK_SIZE, i => []), seq(threads, i => seq(MAX_BLOCK_SIZE, j => [])));
    }

    /** Pops a block of the thread's own list. */
    method PopThread(tid: nat, b: nat) returns (myblock: Addr)
      requires Valid() && tid < |tl| && b < MAX_BLOCK_SIZE && Shaped(State(), view) && tl[tid].tflists[b].count != 0
      modifies this
      ensures Valid() && mem == old(mem) && top == old(top) && |tl| == old(|tl|)
      ensures old(|view.t[tid][b]|) > 0 && myblock == old(view.t[tid][b][0]) && view == PoppedThread(old(view), tid, b)
      ensures Allocated(old(view), view, myblock, b)
      ensures start <= myblock && SmallStay(old(view), view)
    {
      hide TilesOk, ListOk, Allocated, SmallStay, Next, Size2;
      ghost var m, v := State(), view;
      ghost var s := v.t[tid][b];
      Lists(m, v, tid, b);
      var f;
      f, myblock := PopBlock(mem, tl[tid].tflists[b], s);
      tl := tl[tid := tl[tid].(tflists := tl[tid].tflists[b := f])];
      view := PoppedThread(v, tid, b);
      PopThreadKeeps(m, v, start, tid, b, f);
      assert State() == SetThreadList(m, tid, b, f);
    }

    /** Pops a block of the pool's list. */
    method PopGlobal(tid: nat, b: nat) returns (myblock: Addr)
      requires Valid() && tid < |tl| && b < MAX_BLOCK_SIZE && Shaped(State(), view) && gflists[b].count != 0
      modifies this
      ensures Valid() && mem == old(mem) && top == old(top) && |tl| == old(|tl|)
      ensures old(|view.g[b]|) > 0 && myblock == old(view.g[b][0]) && view == PoppedGlobal(old(view), b)
      ensures Allocated(old(view), view, myblock, b)
      ensures start <= myblock && (!Small(b) ==> SmallStay(old(view), view))
    {
      hide TilesOk, ListOk, Allocated, SmallStay, Next, Size2;
      ghost var m, v := State(), view;
      ghost var s := v.g[b];
      Lists(m, v, tid, b);
      var f;
      f, myblock := PopBlock(mem, gflists[b], s);
      gflists := gflists[b := f];
      view := PoppedGlobal(v, b);
      PopGlobalKeeps(m, v, start, tid, b, f);
      assert State() == m.(gflists := m.gflists[b := f]);
    }

    /** Takes a new slab from the top of the pool; the rest of the old one is given up. */
    method TakeSlab(tid: nat)
      requires Valid() && tid < |tl| && tl[tid].slabsize < SLAB_SIZE / 2 && top + SLAB_SIZE <= end
      modifies this
      ensures Valid() && mem == old(mem) && |tl| == old(|tl|) && view == old(view).(tiles := view.tiles)
      ensures tl[tid].slabtop == old(top) && tl[tid].slabsize == SLAB_SIZE && top == old(top) + SLAB_SIZE
    {
      hide TilesOk, ListsOk;
      ghost var m := State();
      tl := tl[tid := tl[tid].(slabtop := top)];
      tl := tl[tid := tl[tid].(slabsize := SLAB_SIZE)];
      top := top + SLAB_SIZE;
      assert State().tl == SetSlab(m, tid, m.top, SLAB_SIZE).tl;
      view := NewSlab(m, State(), view, start, tid);
    }

    /** Cuts a block from the thread's slab, after taking a new slab when this one is too short. */
    method FromSlab(tid: nat, b: nat) returns (myblock: Addr)
      requires Valid() && tid < |tl| && b < MAX_BLOCK_SIZE && Small(b) && HEADER <= Pow(b)
      modifies this
      ensures Valid() && |tl| == old(|tl|) && DataStays(old(view.blocks), old(mem), mem)
      ensures myblock == 0 <==> Pow(b) >= old(tl[tid].slabsize) && old(top) + SLAB_SIZE > end
      ensures myblock == 0 ==> State() == old(State()) && view == old(view)
      ensures myblock != 0 ==> Allocated(old(view), view, myblock, b)
      ensures myblock != 0 ==> start <= myblock && SmallStay(old(view), view) && NewBlock(old(view), view, myblock, b)
      ensures myblock != 0 && Pow(b) < old(tl[tid].slabsize) ==>
        myblock == old(tl[tid].slabtop) && top == old(top) && tl[tid].slabsize == old(tl[tid].slabsize) - Pow(b)
      ensures myblock != 0 && Pow(b) >= old(tl[tid].slabsize) ==>
        myblock == old(top) && top == old(top) + SLAB_SIZE && tl[tid].slabsize == SLAB_SIZE - Pow(b)
    {
      hide TilesOk, ListsOk, Allocated, SmallStay, Size2, PutSize2, DataStays;
      var asize := Pow(b);
      NothingWritten(view.blocks, mem);
      if asize >= tl[tid].slabsize {
        if top + SLAB_SIZE > end {
          return 0;
        }
        TakeSlab(tid);
      }
      ghost var m, v := State(), view;
      myblock := tl[tid].slabtop;
      mem := PutSize2(mem, myblock, b);
      tl := tl[tid := tl[tid].(slabtop := myblock + asize)];
      tl := tl[tid := tl[tid].(slabsize := tl[tid].slabsize - asize)];
      assert State().tl == SetSlab(m, tid, m.tl[tid].slabtop + asize, m.tl[tid].slabsize - asize).tl;
      view := CutSlab(m, State(), v, start, tid, b);
      FreshBlock(old(view), view, myblock, b);
    }

    /** Makes a block at the top of the pool. */
    method FromTop(b: nat) returns (myblock: Addr)
      requires Valid() && b < MAX_BLOCK_SIZE && HEADER <= Pow(b)
      modifies this
      ensures Valid() && |tl| == old(|tl|) && DataStays(old(view.blocks), old(mem), mem)
      ensures myblock == 0 <==> old(top) + Pow(b) > end
      ensures myblock == 0 ==> State() == old(State()) && view == old(view)
      ensures myblock != 0 ==> Allocated(old(view), view, myblock, b)
      ensures myblock != 0 ==> start <= myblock && SmallStay(old(view), view) && NewBlock(old(view), view, myblock, b)
      ensures myblock != 0 ==> myblock == old(top) && top == old(top) + Pow(b)
    {
      hide TilesOk, ListsOk, Allocated, SmallStay, Size2, PutSize2, DataStays;
      var asize := Pow(b);
      NothingWritten(view.blocks, mem);
      if top + asize > end {
        return 0;
      }
      ghost var m, v := State(), view;
      BelowTop(m, v, start);
      myblock := top;
      top := top + asize;
      mem := PutSize2(mem, myblock, b);
      view := v.(tiles := v.tiles + [Tile(myblock, asize, Used)], blocks := v.blocks[myblock := Block(b, Live)]);
      TopBlock(m, State(), v, view, start, b);
      FreshBlock(v, view, myblock, b);
    }

    /**
      A new object: its block was not live before, is large enough and no more than twice too large.
      It comes from the thread's list, or else for a small block from the thread's slab; only for
      other blocks from the pool's list, and when that is empty from the top of the pool.
    */
    method Malloc(tid: nat, size: nat) returns (ptr: Addr, ghost b: nat)
      requires Valid() && tid < |tl| && size + HEADER <= Pow(MAX_BLOCK_SIZE - 1)
      modifies this
      ensures Valid() && |tl| == old(|tl|) && SizeClass(size, b) && b < MAX_BLOCK_SIZE
      ensures ptr == 0 <==>
              && old(tl[tid].tflists[b].count) == 0
              && (if Small(b) then Pow(b) >= old(tl[tid].slabsize) && old(top) + SLAB_SIZE > end
                  else old(gflists[b].count) == 0 && old(top) + Pow(b) > end)
      ensures ptr == 0 ==> State() == old(State()) && view == old(view)
      ensures ptr != 0 ==> ptr >= start + HEADER && Allocated(old(view), view, ptr - HEADER, b)
      ensures old(tl[tid].tflists[b].count) != 0 ==>
        old(view.t[tid][b]) != [] && ptr == old(view.t[tid][b][0]) + HEADER && view == PoppedThread(old(view), tid, b)
      ensures old(tl[tid].tflists[b].count) == 0 && ptr != 0 && (Small(b) || old(gflists[b].count) == 0) ==>
        NewBlock(old(view), view, ptr - HEADER, b)
      ensures old(tl[tid].tflists[b].count) == 0 && ptr != 0 && Small(b) ==>
        if Pow(b) < old(tl[tid].slabsize) then
          ptr == old(tl[tid].slabtop) + HEADER && top == old(top) && tl[tid].slabsize == old(tl[tid].slabsize) - Pow(b)
        else ptr == old(top) + HEADER && top == old(top) + SLAB_SIZE && tl[tid].slabsize == SLAB_SIZE - Pow(b)
      ensures old(tl[tid].tflists[b].count) == 0 && ptr != 0 && !Small(b) && old(gflists[b].count) == 0 ==>
        ptr == old(top) + HEADER && top == old(top) + Pow(b)
      ensures old(tl[tid].tflists[b].count) == 0 && !Small(b) && old(gflists[b].count) != 0 ==>
        old(view.g[b]) != [] && ptr == old(view.g[b][0]) + HEADER && view == PoppedGlobal(old(view), b)
      // a block of the pool's list is handed out again if and only if it is not a small one
      ensures old(tl[tid].tflists[b].count) == 0 && old(gflists[b].count) != 0 ==>
        ((ptr != 0 && ptr - HEADER in old(view.g[b])) <==> !Small(b))
      // the object lies in its block, behind the header, and meets the header of no block
      ensures ptr != 0 ==> Placed(view, ptr, size)
      ensures SmallStay(old(view), view) && DataStays(old(view.blocks), old(mem), mem)
    {
      hide Good, Allocated, PoppedThread, PoppedGlobal, DataStays, Next, Size2, Placed;
      NothingWritten(view.blocks, mem);
      Listed(State(), view, start);
      var bsize := HighestBit(size + HEADER);
      b := bsize;
      assert SizeClass(size, b) && b < MAX_BLOCK_SIZE by {
        forall c | 0 <= c < b ensures Pow(c) < size + HEADER { PowMonotone(c, b - 1); }
        PowMonotone(MAX_BLOCK_SIZE - 1, if b >= MAX_BLOCK_SIZE then b - 1 else MAX_BLOCK_SIZE - 1);
      }
      var asize := Pow(bsize);
      var myblock: Addr;
      if tl[tid].tflists[bsize].count != 0 {
        myblock := PopThread(tid, bsize);
      } else if asize < SLAB_SIZE / 2 {
        myblock := FromSlab(tid, bsize);
        if myblock == 0 {
          return 0, b;
        }
      } else if gflists[bsize].count != 0 {
        myblock := PopGlobal(tid, bsize);
      } else {
        myblock := FromTop(bsize);
        if myblock == 0 {
          return 0, b;
        }
      }
      ptr := myblock + HEADER;
      HandedOut(old(view), view, myblock, b);
      ObjectPlaced(State(), view, start, ptr, size);
    }

    /** A returned object's block goes to the thread's list; a full list goes to the pool's list. */
    method Free(tid: nat, ptr: Addr)
      requires Valid() && tid < |tl| && (ptr != 0 ==> ptr >= HEADER && ptr - HEADER in LiveBlocks(view))
      modifies this
      ensures Valid() && |tl| == old(|tl|) && top == old(top)
      ensures ptr != 0 ==> LiveBlocks(view) == old(LiveBlocks(view)) - {ptr - HEADER}
      ensures ptr != 0 ==> view == Freed(old(view), tid, old(view.blocks[ptr - HEADER].exp), ptr - HEADER)
      ensures ptr == 0 ==> State() == old(State()) && view == old(view)
      ensures SmallStay(old(view), view) && DataStays(old(view.blocks), old(mem), mem)
    {
      hide Good, ListsOk, SmallStay, Pushed, Transferred, DataStays, Next, Size2, LiveBlocks;
      if ptr == 0 {
        SmallSame(view);
        NothingWritten(view.blocks, mem);
        return;
      }
      LiveIs(view, ptr - HEADER);
      ghost var v, was := view, mem;
      var myblock := ptr - HEADER;
      InPool(State(), view, start, myblock);
      var bsize := Size2(mem, myblock);
      Push(tid, myblock, bsize);
      Listed(State(), view, start);
      CountsOk(State(), view, tid, bsize);
      ghost var pushed := mem;
      if tl[tid].tflists[bsize].count >= MAX_LIST_SIZE {
        TransferToGlobal(tid, bsize);
        StaysThrough(v, tid, bsize, myblock, view, was, pushed, mem);
      }
    }

    /** The holder of an object stores the bytes s at x, behind the header of the object's block. */
    method StoreData(x: Addr, s: seq<Byte>, ghost block: Addr)
      requires Valid() && block in LiveBlocks(view)
      requires block + HEADER <= x && x + |s| <= block + Pow(LiveBlocks(view)[block])
      modifies this`mem
      ensures Valid() && Slice(mem, x, |s|) == s && OnlyAt(old(mem), mem, x, |s|)
      ensures forall a <- view.blocks :: SameHeader(old(mem), mem, a)
      ensures forall a <- view.blocks | a != block :: BlockDataStays(a, Pow(view.blocks[a].exp), old(mem), mem)
    {
      hide Good, Pow, Put, Slice, LiveBlocks, OnlyAt, SameHeader, BlockDataStays;
      LiveIs(view, block);
      ghost var m := State();
      SlicePut(mem, x, s);
      mem := Put(mem, x, s);
      DataWritten(m, State(), view, start, block, x, |s|);
    }

    method Push(tid: nat, myblock: Addr, b: nat)
      requires Valid() && tid < |tl| && b < MAX_BLOCK_SIZE
      requires myblock in view.blocks && view.blocks[myblock] == Block(b, Live)
      modifies this
      ensures Good(State(), view, start) && Shaped(State(), view) && top == old(top) && |tl| == old(|tl|)
      ensures ShortBut(tl, tid, b) && tl[tid].tflists[b].count <= MAX_LIST_SIZE && view == Pushed(old(view), tid, b, myblock)
      ensures LiveBlocks(view) == old(LiveBlocks(view)) - {myblock} && SmallStay(old(view), view)
      ensures DataStays(old(view.blocks), old(mem), mem)
    {
      hide TilesOk, ListOk, LiveBlocks, SmallStay, Next, Size2, PutNext, DataStays;
      ghost var m, v := State(), view;
      ghost var s := v.t[tid][b];
      Lists(m, v, tid, b);
      InPool(m, v, start, myblock);
      NotListed(m, v, tid, b, myblock);
      var f;
      HeadBelow(m, v, start, tl[tid].tflists[b], s, b, InThread(tid));
      LinkWritten(m, v, start, myblock, tl[tid].tflists[b].head);
      mem, f := PushBlock(mem, tl[tid].tflists[b], myblock, s);
      tl := tl[tid := tl[tid].(tflists := tl[tid].tflists[b := f])];
      view := Pushed(v, tid, b, myblock);
      PushKeeps(m, v, start, tid, b, myblock, m.tl[tid].tflists[b].head, f);
      assert State() == SetThreadList(m, tid, b, f).(mem := mem);
    }

    /** The whole list of the thread goes in front of the pool's list. */
    method TransferToGlobal(tid: nat, b: nat)
      requires Good(State(), view, start) && Shaped(State(), view) && top <= end <= WORD_LIMIT
      requires tid < |tl| && b < MAX_BLOCK_SIZE && tl[tid].tflists[b].count != 0 && ShortBut(tl, tid, b)
      modifies this
      ensures Valid() && |tl| == old(|tl|) && top == old(top)
      ensures LiveBlocks(view) == old(LiveBlocks(view)) && SmallStay(old(view), view)
      ensures Shaped(State(), view) && tl[tid].tflists[b].count == 0 && DataStays(old(view.blocks), old(mem), mem)
      ensures view == Transferred(old(view), tid, b)
    {
      hide TilesOk, ListOk, LiveBlocks, SmallStay, Next, Size2, PutNext, DataStays;
      ghost var m, v := State(), view;
      ghost var s, u := v.t[tid][b], v.g[b];
      Lists(m, v, tid, b);
      ThreadNotGlobal(m, v, tid, b);
      var f, o;
      HeadBelow(m, v, start, gflists[b], u, b, InGlobal);
      LinkWritten(m, v, start, s[|s| - 1], gflists[b].head);
      mem, f, o := Transfer(mem, tl[tid].tflists[b], gflists[b], s, u);
      tl := tl[tid := tl[tid].(tflists := tl[tid].tflists[b := f])];
      gflists := gflists[b := o];
      view := Transferred(v, tid, b);
      assert s[|s| - 1] in s;
      TransferKeeps(m, v, start, tid, b, mem, f, o);
      assert State() == SetThreadList(m, tid, b, f).(mem := mem, gflists := gflists);
    }
  }
}
