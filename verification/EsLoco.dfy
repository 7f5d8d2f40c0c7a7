/**
  EsLoco2: power-of-two blocks from thread-local lists, from thread-local slabs, from global
  lists or from the top of the pool.  The pool below top is tiled by blocks, slabs and the
  tails of slabs given up; every block is live or in exactly one list.
*/
module EsLoco {
  import opened EsLocoBytes
  import opened EsLocoLists

  const MAX_BLOCK_SIZE: nat := 50
  const SLAB_SIZE: nat := 4 * 1024 * 1024

  function Pow(b: nat): (p: nat)
    ensures p > 0
  {
    if b == 0 then 1 else 2 * Pow(b - 1)
  }

  /** Exponent of the smallest power of two not below val. */
  method HighestBit(val: nat) returns (b: nat)
    requires val > 0
    ensures val <= Pow(b) && (b > 0 ==> Pow(b - 1) < val)
  {
    b := 0;
    while val / Pow(b + 1) != 0
      invariant Pow(b) <= val
      decreases val - Pow(b)
    {
      ShiftedOut(val, Pow(b + 1));
      b := b + 1;
    }
    if val > Pow(b) {
      ShiftedOut(val, Pow(b + 1));
      return b + 1;
    }
  }

  lemma {:induction false} ShiftedOut(val: nat, p: nat)
    requires p > 0
    ensures val / p != 0 <==> p <= val
  {
    if p > val {
      assert val / p == 0;
    } else {
      assert val / p >= 1;
    }
  }

  // ---------- what the pool is made of ----------

  datatype Place = Live | InThread(t: nat) | InGlobal
  datatype Block = Block(exp: nat, place: Place)

  datatype Kind = Used | Slab(t: nat) | Waste
  /** A stretch of the pool. */
  datatype Tile = Tile(start: Addr, len: nat, kind: Kind)

  datatype TLData = TLData(tflists: seq<FList>, slabtop: Addr, slabsize: nat)

  /** The tiles follow each other from start to top without gap or overlap. */
  predicate Contiguous(tiles: seq<Tile>, start: Addr, top: Addr) {
    && (forall i | 0 <= i < |tiles| :: tiles[i].len > 0)
    && (if tiles == [] then start == top
        else tiles[0].start == start && tiles[|tiles| - 1].start + tiles[|tiles| - 1].len == top)
    && (forall i | 0 < i < |tiles| :: tiles[i].start == tiles[i - 1].start + tiles[i - 1].len)
  }

  lemma {:induction false} Ordered(tiles: seq<Tile>, start: Addr, top: Addr, i: nat, j: nat)
    requires Contiguous(tiles, start, top) && i <= j < |tiles|
    ensures start <= tiles[i].start && tiles[j].start + tiles[j].len <= top
    ensures i < j ==> tiles[i].start + tiles[i].len <= tiles[j].start
    decreases j - i, |tiles| - j + i
  {
    if i < j {
      Ordered(tiles, start, top, i, j - 1);
    } else {
      FromStart(tiles, start, top, i);
      ToTop(tiles, start, top, i);
    }
    ToTop(tiles, start, top, j);
  }

  lemma {:induction false} FromStart(tiles: seq<Tile>, start: Addr, top: Addr, i: nat)
    requires Contiguous(tiles, start, top) && i < |tiles|
    ensures start <= tiles[i].start
  {
    if i > 0 { FromStart(tiles, start, top, i - 1); }
  }

  lemma {:induction false} ToTop(tiles: seq<Tile>, start: Addr, top: Addr, i: nat)
    requires Contiguous(tiles, start, top) && i < |tiles|
    ensures tiles[i].start + tiles[i].len <= top
    decreases |tiles| - i
  {
    if i < |tiles| - 1 { ToTop(tiles, start, top, i + 1); }
  }

  /** Every byte of the pool below top lies in exactly one tile. */
  lemma {:induction false} EveryByte(tiles: seq<Tile>, start: Addr, top: Addr, x: Addr) returns (i: nat)
    requires Contiguous(tiles, start, top) && start <= x < top
    ensures i < |tiles| && tiles[i].start <= x < tiles[i].start + tiles[i].len
    ensures forall j | 0 <= j < |tiles| && j != i :: !(tiles[j].start <= x < tiles[j].start + tiles[j].len)
  {
    i := 0;
    while tiles[i].start + tiles[i].len <= x
      invariant i < |tiles| && tiles[i].start <= x
      decreases |tiles| - i
    {
      i := i + 1;
    }
    forall j: nat | j < |tiles| && j != i ensures !(tiles[j].start <= x < tiles[j].start + tiles[j].len) {
      Ordered(tiles, start, top, if i < j then i else j, if i < j then j else i);
    }
  }

  // ---------- the state ----------

  /** The bytes of the pool above the allocator's persistent metadata, and that metadata. */
  datatype Meta = Meta(mem: Memory, top: Addr, gflists: seq<FList>, tl: seq<TLData>)

  /** What the state stands for: the tiling, the blocks, and the contents of all lists. */
  datatype View = View(tiles: seq<Tile>, blocks: map<Addr, Block>, g: seq<seq<Addr>>, t: seq<seq<seq<Addr>>>)

  ghost predicate InList(s: seq<Addr>, blocks: map<Addr, Block>, b: nat, place: Place) {
    forall a: Addr :: a in s <==> a in blocks && blocks[a] == Block(b, place)
  }

  ghost predicate ListOk(m: Meta, v: View, f: FList, s: seq<Addr>, b: nat, place: Place) {
    ListIs(m.mem, f, s) && InList(s, v.blocks, b, place)
  }

  predicate Shaped(m: Meta, v: View) {
    && |m.gflists| == |v.g| == MAX_BLOCK_SIZE && |m.tl| == |v.t|
    && (forall t | 0 <= t < |m.tl| :: |m.tl[t].tflists| == MAX_BLOCK_SIZE)
    && (forall t | 0 <= t < |v.t| :: |v.t[t]| == MAX_BLOCK_SIZE)
  }

  ghost predicate ListsOk(m: Meta, v: View) {
    && Shaped(m, v)
    && (forall b | 0 <= b < MAX_BLOCK_SIZE :: ListOk(m, v, m.gflists[b], v.g[b], b, InGlobal))
    && (forall t, b | 0 <= t < |m.tl| && 0 <= b < MAX_BLOCK_SIZE ::
         ListOk(m, v, m.tl[t].tflists[b], v.t[t][b], b, InThread(t)))
  }

  /** What is given up at the end of a slab is less than half a slab. */
  predicate TileOk(m: Meta, v: View, x: Tile) {
    match x.kind
    case Used => x.start in v.blocks && x.len == Pow(v.blocks[x.start].exp)
    case Slab(t) => x.start !in v.blocks && t < |m.tl| && m.tl[t].slabtop == x.start && m.tl[t].slabsize == x.len
    case Waste => x.start !in v.blocks && x.len < SLAB_SIZE / 2
  }

  predicate BlockOk(m: Meta, v: View, a: Addr)
    requires a in v.blocks
  {
    && v.blocks[a].exp < MAX_BLOCK_SIZE && HEADER <= Pow(v.blocks[a].exp)
    && Size2(m.mem, a) == v.blocks[a].exp
    && Tile(a, Pow(v.blocks[a].exp), Used) in v.tiles
  }

  /** A slab in use is one of the tiles. */
  predicate SlabOk(m: Meta, v: View, t: nat)
    requires t < |m.tl|
  {
    m.tl[t].slabsize > 0 ==> Tile(m.tl[t].slabtop, m.tl[t].slabsize, Slab(t)) in v.tiles
  }

  ghost predicate TilesOk(m: Meta, v: View, start: Addr) {
    && start > 0 && Contiguous(v.tiles, start, m.top)
    && (forall x <- v.tiles :: TileOk(m, v, x))
    && (forall a <- v.blocks :: BlockOk(m, v, a))
    && (forall t: nat | t < |m.tl| :: SlabOk(m, v, t))
  }

  ghost predicate Good(m: Meta, v: View, start: Addr) { TilesOk(m, v, start) && ListsOk(m, v) }

  /** Blocks, live or free, do not overlap each other, and lie between the metadata and top. */
  lemma {:induction false} NoOverlap(m: Meta, v: View, start: Addr, a: Addr, c: Addr)
    requires Good(m, v, start) && a in v.blocks && c in v.blocks && a < c
    ensures start <= a && a + Pow(v.blocks[a].exp) <= c && c + Pow(v.blocks[c].exp) <= m.top
  {
    assert BlockOk(m, v, a) && BlockOk(m, v, c);
    Apart(v.tiles, start, m.top, Tile(a, Pow(v.blocks[a].exp), Used), Tile(c, Pow(v.blocks[c].exp), Used));
  }

  /** Two different tiles do not overlap. */
  lemma {:induction false} Apart(tiles: seq<Tile>, start: Addr, top: Addr, x: Tile, y: Tile)
    requires Contiguous(tiles, start, top) && x in tiles && y in tiles
    ensures start <= x.start && x.start + x.len <= top && start <= y.start && y.start + y.len <= top
    ensures x == y || x.start + x.len <= y.start || y.start + y.len <= x.start
    ensures x.len > 0 && y.len > 0
  {
    var i: nat :| i < |tiles| && tiles[i] == x;
    var j: nat :| j < |tiles| && tiles[j] == y;
    Ordered(tiles, start, top, i, i);
    Ordered(tiles, start, top, j, j);
    if i < j {
      Ordered(tiles, start, top, i, j);
    } else if j < i {
      Ordered(tiles, start, top, j, i);
    }
  }

  /** A free block is in one list of its own size, and in no other list of any thread or of the pool. */
  lemma {:induction false} OneList(m: Meta, v: View, start: Addr, t: nat, b: nat, u: nat, d: nat, a: Addr)
    requires Good(m, v, start) && t < |v.t| && b < MAX_BLOCK_SIZE && u < |v.t| && d < MAX_BLOCK_SIZE
    requires |v.t[t]| == |v.t[u]| == |v.g| == MAX_BLOCK_SIZE && a in v.t[t][b]
    ensures a in v.blocks && v.blocks[a].place != Live && v.blocks[a].exp == b
    ensures a in v.t[u][d] ==> u == t && d == b
    ensures a !in v.g[d]
  {
    assert ListOk(m, v, m.tl[t].tflists[b], v.t[t][b], b, InThread(t));
    assert ListOk(m, v, m.tl[u].tflists[d], v.t[u][d], d, InThread(u));
    assert ListOk(m, v, m.gflists[d], v.g[d], d, InGlobal);
  }

  // ---------- moving blocks between lists ----------

  /** Only the blocks of moved change place, all of exponent b and between thread t, the pool and live. */
  ghost predicate Moved(m: Meta, m': Meta, v: View, v': View, moved: set<Addr>, t: nat, b: nat) {
    && v'.tiles == v.tiles && v'.blocks.Keys == v.blocks.Keys && moved <= v.blocks.Keys
    && (forall c <- v.blocks | c !in moved :: v'.blocks[c] == v.blocks[c])
    && (forall c <- moved :: v'.blocks[c].exp == v.blocks[c].exp == b)
    && (forall c <- moved :: v.blocks[c].place in {Live, InThread(t), InGlobal})
    && (forall c <- moved :: v'.blocks[c].place in {Live, InThread(t), InGlobal})
    && (forall c <- v.blocks | c !in moved :: Next(m'.mem, c) == Next(m.mem, c))
    && (forall c <- v.blocks :: Size2(m'.mem, c) == Size2(m.mem, c))
    && m'.top == m.top && |m'.tl| == |m.tl|
    && (forall u | 0 <= u < |m.tl| :: m'.tl[u].slabtop == m.tl[u].slabtop && m'.tl[u].slabsize == m.tl[u].slabsize)
  }

  predicate OtherLists(m: Meta, m': Meta, v: View, v': View, t: nat, b: nat)
    requires Shaped(m, v) && Shaped(m', v') && |m'.tl| == |m.tl|
  {
    && (forall d | 0 <= d < MAX_BLOCK_SIZE && d != b :: m'.gflists[d] == m.gflists[d] && v'.g[d] == v.g[d])
    && (forall u, d | 0 <= u < |m.tl| && 0 <= d < MAX_BLOCK_SIZE && (u != t || d != b) ::
         m'.tl[u].tflists[d] == m.tl[u].tflists[d] && v'.t[u][d] == v.t[u][d])
  }

  lemma {:induction false} TilesStay(m: Meta, m': Meta, v: View, v': View, start: Addr, moved: set<Addr>, t: nat, b: nat)
    requires TilesOk(m, v, start) && Moved(m, m', v, v', moved, t, b)
    ensures TilesOk(m', v', start)
  {
    assert forall c <- v.blocks :: v'.blocks[c].exp == v.blocks[c].exp;
    forall x <- v'.tiles ensures TileOk(m', v', x) {
      assert TileOk(m, v, x);
    }
    forall a <- v'.blocks ensures BlockOk(m', v', a) {
      assert BlockOk(m, v, a);
    }
    forall u: nat | u < |m'.tl| ensures SlabOk(m', v', u) {
      assert SlabOk(m, v, u);
    }
  }

  /** A list that no moved block was in or comes into. */
  lemma {:induction false} Kept(m: Meta, m': Meta, v: View, v': View, moved: set<Addr>, t: nat, b: nat,
                                f: FList, s: seq<Addr>, d: nat, place: Place)
    requires ListOk(m, v, f, s, d, place) && Moved(m, m', v, v', moved, t, b)
    requires forall c <- moved :: v.blocks[c] != Block(d, place) && v'.blocks[c] != Block(d, place)
    ensures ListOk(m', v', f, s, d, place)
  {
    ChainStays(m.mem, m'.mem, f.head, s);
  }

  /** Moving blocks between the thread's list, the pool's list and the callers keeps everything. */
  lemma {:induction false} MoveKeeps(m: Meta, m': Meta, v: View, v': View, start: Addr, moved: set<Addr>, t: nat, b: nat)
    requires Good(m, v, start) && Moved(m, m', v, v', moved, t, b) && t < |m.tl| && b < MAX_BLOCK_SIZE
    requires Shaped(m', v') && OtherLists(m, m', v, v', t, b)
    requires ListOk(m', v', m'.gflists[b], v'.g[b], b, InGlobal)
    requires ListOk(m', v', m'.tl[t].tflists[b], v'.t[t][b], b, InThread(t))
    ensures Good(m', v', start)
  {
    hide Next, Size2, ListOk, TilesOk;
    TilesStay(m, m', v, v', start, moved, t, b);
    forall d | 0 <= d < MAX_BLOCK_SIZE ensures ListOk(m', v', m'.gflists[d], v'.g[d], d, InGlobal) {
      if d != b {
        Kept(m, m', v, v', moved, t, b, m.gflists[d], v.g[d], d, InGlobal);
      }
    }
    forall u, d | 0 <= u < |m'.tl| && 0 <= d < MAX_BLOCK_SIZE
      ensures ListOk(m', v', m'.tl[u].tflists[d], v'.t[u][d], d, InThread(u))
    {
      if u != t || d != b {
        Kept(m, m', v, v', moved, t, b, m.tl[u].tflists[d], v.t[u][d], d, InThread(u));
      }
    }
  }

  // ---------- taking space ----------

  lemma {:induction false} ListStays(m: Meta, m': Meta, v: View, v': View, f: FList, s: seq<Addr>, d: nat, place: Place)
    requires ListOk(m, v, f, s, d, place) && forall c <- v.blocks :: Next(m'.mem, c) == Next(m.mem, c)
    requires forall c: Addr ::
      c in v'.blocks && v'.blocks[c] == Block(d, place) <==> c in v.blocks && v.blocks[c] == Block(d, place)
    ensures ListOk(m', v', f, s, d, place)
  {
    hide Next;
    ChainStays(m.mem, m'.mem, f.head, s);
  }

  /** A fresh live block leaves all lists alone. */
  lemma {:induction false} ListsStay(m: Meta, m': Meta, v: View, v': View, a: Addr, b: nat)
    requires ListsOk(m, v) && forall c <- v.blocks :: Next(m'.mem, c) == Next(m.mem, c)
    requires m'.gflists == m.gflists && v'.g == v.g && v'.t == v.t
    requires |m'.tl| == |m.tl| && forall u | 0 <= u < |m.tl| :: m'.tl[u].tflists == m.tl[u].tflists
    requires v'.blocks == v.blocks || (a !in v.blocks && v'.blocks == v.blocks[a := Block(b, Live)])
    ensures ListsOk(m', v')
  {
    hide Next, ListOk;
    forall d | 0 <= d < MAX_BLOCK_SIZE ensures ListOk(m', v', m'.gflists[d], v'.g[d], d, InGlobal) {
      ListStays(m, m', v, v', m.gflists[d], v.g[d], d, InGlobal);
    }
    forall u, d | 0 <= u < |m'.tl| && 0 <= d < MAX_BLOCK_SIZE
      ensures ListOk(m', v', m'.tl[u].tflists[d], v'.t[u][d], d, InThread(u))
    {
      ListStays(m, m', v, v', m.tl[u].tflists[d], v.t[u][d], d, InThread(u));
    }
  }

  /** A block keeps clear of any other tile. */
  lemma {:induction false} ClearOfTile(m: Meta, v: View, start: Addr, a: Addr, y: Tile)
    requires TilesOk(m, v, start) && a in v.blocks && y in v.tiles && y.start != a
    ensures HEADER <= Pow(v.blocks[a].exp) && Clear(a, Pow(v.blocks[a].exp), y.start, y.len)
  {
    hide Contiguous;
    assert BlockOk(m, v, a);
    Apart(v.tiles, start, m.top, Tile(a, Pow(v.blocks[a].exp), Used), y);
  }

  /** Data within blocks, behind their headers, reads the same. */
  ghost predicate DataStays(blocks: map<Addr, Block>, mem: Memory, mem': Memory) {
    forall a <- blocks :: BlockDataStays(a, Pow(blocks[a].exp), mem, mem')
  }

  ghost predicate BlockDataStays(a: Addr, size: nat, mem: Memory, mem': Memory) {
    forall i: Addr | a + HEADER <= i < a + size :: Read(mem', i) == Read(mem, i)
  }

  /** Writing the size of a new block at x leaves the other blocks' bytes alone. */
  lemma {:induction false} SizeWritten(v: View, mem: Memory, x: Addr, b: nat)
    requires b < MAX_BLOCK_SIZE && x !in v.blocks
    requires forall a <- v.blocks :: HEADER <= Pow(v.blocks[a].exp) && Clear(a, Pow(v.blocks[a].exp), x, HEADER)
    ensures Size2(PutSize2(mem, x, b), x) == b && DataStays(v.blocks, mem, PutSize2(mem, x, b))
    ensures forall a <- v.blocks :: SameHeader(mem, PutSize2(mem, x, b), a)
  {
    hide Size2, PutSize2, Next;
    Size2Put(mem, x, b);
  }

  lemma {:induction false} AppendTile(tiles: seq<Tile>, start: Addr, top: Addr, x: Tile)
    requires Contiguous(tiles, start, top) && x.start == top && x.len > 0
    ensures Contiguous(tiles + [x], start, top + x.len)
  {
  }

  lemma {:induction false} OneTile(x: Tile)
    ensures x.len > 0 ==> Contiguous([x], x.start, x.start + x.len)
  {
  }

  function Replaced(tiles: seq<Tile>, i: nat, xs: seq<Tile>): seq<Tile>
    requires i < |tiles|
  {
    tiles[..i] + xs + tiles[i + 1..]
  }

  /** A tile may be replaced by tiles that cover the same stretch. */
  lemma {:induction false} SplitTile(tiles: seq<Tile>, start: Addr, top: Addr, i: nat, xs: seq<Tile>)
    requires Contiguous(tiles, start, top) && i < |tiles|
    requires xs != [] && Contiguous(xs, tiles[i].start, tiles[i].start + tiles[i].len)
    ensures Contiguous(Replaced(tiles, i, xs), start, top)
  {
    var r := Replaced(tiles, i, xs);
    forall j | 0 < j < |r| ensures r[j].start == r[j - 1].start + r[j - 1].len {
      if j == i + |xs| {
        assert r[j] == tiles[i + 1] && r[j - 1] == xs[|xs| - 1];
      } else if j > i + |xs| {
        assert r[j] == tiles[j - |xs| + 1] && r[j - 1] == tiles[j - |xs|];
      } else if j > i {
        assert r[j] == xs[j - i] && r[j - 1] == xs[j - i - 1];
      }
    }
  }

  predicate Disjoint(x: Tile, y: Tile) { x.start + x.len <= y.start || y.start + y.len <= x.start }

  /** The new tiles are xs and the old ones apart from x. */
  predicate Swapped(tiles: seq<Tile>, tiles': seq<Tile>, x: Tile, xs: seq<Tile>) {
    && (forall y <- tiles' :: y in xs || (y in tiles && y.len > 0 && Disjoint(y, x)))
    && (forall y <- tiles :: y == x || y in tiles')
    && (forall y <- xs :: y in tiles')
  }

  lemma {:induction false} AfterSplit(tiles: seq<Tile>, start: Addr, top: Addr, i: nat, xs: seq<Tile>)
    requires Contiguous(tiles, start, top) && i < |tiles|
    ensures Swapped(tiles, Replaced(tiles, i, xs), tiles[i], xs)
  {
    hide Contiguous;
    var r := Replaced(tiles, i, xs);
    var left, right := tiles[..i], tiles[i + 1..];
    forall y <- r | y !in xs ensures y in tiles && y.len > 0 && Disjoint(y, tiles[i]) {
      assert y in left || y in right;
      var k: nat :| k < |tiles| && k != i && tiles[k] == y;
      Ordered(tiles, start, top, if i < k then i else k, if i < k then k else i);
      Apart(tiles, start, top, y, y);
    }
    forall y <- tiles | y != tiles[i] ensures y in r {
      assert tiles == left + [tiles[i]] + right;
      assert y in left || y in right;
    }
  }

  /** Every block and every slab ends at or below top. */
  lemma {:induction false} BelowTop(m: Meta, v: View, start: Addr)
    requires TilesOk(m, v, start)
    ensures m.top !in v.blocks && m.top >= start > 0
    ensures forall x <- v.tiles :: x.start < m.top
  {
    forall x <- v.tiles ensures x.start < m.top {
      Apart(v.tiles, start, m.top, x, x);
    }
    assert m.top in v.blocks ==> BlockOk(m, v, m.top);
    if v.tiles != [] {
      assert v.tiles[0] in v.tiles;
    }
  }

  lemma {:induction false} BelowTopToo(m: Meta, v: View, start: Addr, a: Addr)
    requires TilesOk(m, v, start) && a in v.blocks
    ensures HEADER <= Pow(v.blocks[a].exp) && a + Pow(v.blocks[a].exp) <= m.top
  {
    hide Contiguous;
    assert BlockOk(m, v, a);
    var x := Tile(a, Pow(v.blocks[a].exp), Used);
    Apart(v.tiles, start, m.top, x, x);
  }

  /** A block created from the top of the pool. */
  lemma {:induction false} TopBlock(m: Meta, m': Meta, v: View, v': View, start: Addr, b: nat)
    requires Good(m, v, start) && b < MAX_BLOCK_SIZE && HEADER <= Pow(b)
    requires m' == m.(top := m.top + Pow(b), mem := PutSize2(m.mem, m.top, b))
    requires v' == v.(tiles := v.tiles + [Tile(m.top, Pow(b), Used)], blocks := v.blocks[m.top := Block(b, Live)])
    ensures Good(m', v', start) && m.top !in v.blocks && DataStays(v.blocks, m.mem, m'.mem)
  {
    hide Next, Size2, PutSize2, Contiguous;
    BelowTop(m, v, start);
    forall a <- v.blocks ensures HEADER <= Pow(v.blocks[a].exp) && Clear(a, Pow(v.blocks[a].exp), m.top, HEADER) {
      BelowTopToo(m, v, start, a);
    }
    SizeWritten(v, m.mem, m.top, b);
    forall a <- v.blocks ensures SameHeader(m.mem, m'.mem, a) {}
    ListsStay(m, m', v, v', m.top, b);
    AppendTile(v.tiles, start, m.top, Tile(m.top, Pow(b), Used));
    forall x <- v'.tiles ensures TileOk(m', v', x) {
      assert x in v.tiles ==> TileOk(m, v, x);
    }
    forall a <- v'.blocks ensures BlockOk(m', v', a) {
      assert a in v.blocks ==> BlockOk(m, v, a);
    }
    forall u: nat | u < |m'.tl| ensures SlabOk(m', v', u) {
      assert SlabOk(m, v, u);
    }
  }

  function SetSlab(m: Meta, t: nat, slabtop: Addr, slabsize: nat): Meta
    requires t < |m.tl|
  {
    m.(tl := m.tl[t := m.tl[t].(slabtop := slabtop, slabsize := slabsize)])
  }

  function SlabOf(m: Meta, t: nat): Tile
    requires t < |m.tl|
  {
    Tile(m.tl[t].slabtop, m.tl[t].slabsize, Slab(t))
  }

  /** What is left of a slab becomes waste. */
  lemma {:induction false} GiveUpSlab(m: Meta, v: View, start: Addr, t: nat) returns (v': View)
    requires Good(m, v, start) && t < |m.tl| && m.tl[t].slabsize < SLAB_SIZE / 2
    ensures v' == v.(tiles := v'.tiles) && Good(SetSlab(m, t, m.tl[t].slabtop, 0), v', start)
  {
    hide Contiguous, Replaced, Swapped, TileOk, BlockOk, ListOk;
    var m' := SetSlab(m, t, m.tl[t].slabtop, 0);
    if m.tl[t].slabsize == 0 {
      assert m'.tl == m.tl;
      return v;
    }
    assert SlabOk(m, v, t);
    var i: nat :| i < |v.tiles| && v.tiles[i] == SlabOf(m, t);
    var waste := SlabOf(m, t).(kind := Waste);
    v' := v.(tiles := Replaced(v.tiles, i, [waste]));
    OneTile(waste);
    Apart(v.tiles, start, m.top, SlabOf(m, t), SlabOf(m, t));
    SplitTile(v.tiles, start, m.top, i, [waste]);
    AfterSplit(v.tiles, start, m.top, i, [waste]);
    ListsStay(m, m', v, v', 0, 0);
    TilesGivenUp(m, m', v, v', start, t);
  }

  lemma {:induction false} TilesGivenUp(m: Meta, m': Meta, v: View, v': View, start: Addr, t: nat)
    requires TilesOk(m, v, start) && t < |m.tl| && 0 < m.tl[t].slabsize < SLAB_SIZE / 2
    requires m' == SetSlab(m, t, m.tl[t].slabtop, 0) && v' == v.(tiles := v'.tiles)
    requires Contiguous(v'.tiles, start, m.top)
    requires Swapped(v.tiles, v'.tiles, SlabOf(m, t), [SlabOf(m, t).(kind := Waste)])
    ensures TilesOk(m', v', start)
  {
    hide Contiguous;
    var waste := SlabOf(m, t).(kind := Waste);
    assert SlabOk(m, v, t) && TileOk(m, v, SlabOf(m, t));
    forall x <- v'.tiles ensures TileOk(m', v', x) {
      assert x != waste ==> TileOk(m, v, x);
    }
    forall a <- v'.blocks ensures BlockOk(m', v', a) {
      assert BlockOk(m, v, a);
    }
    forall u: nat | u < |m'.tl| ensures SlabOk(m', v', u) {
      assert SlabOk(m, v, u);
    }
  }

  /** A slab taken from the top of the pool. */
  lemma {:induction false} NewSlab(m: Meta, m': Meta, v: View, start: Addr, t: nat) returns (v': View)
    requires Good(m, v, start) && t < |m.tl| && m.tl[t].slabsize < SLAB_SIZE / 2
    requires m' == SetSlab(m, t, m.top, SLAB_SIZE).(top := m.top + SLAB_SIZE)
    ensures v' == v.(tiles := v'.tiles) && Good(m', v', start)
  {
    var m1 := SetSlab(m, t, m.tl[t].slabtop, 0);
    var v1 := GiveUpSlab(m, v, start, t);
    v' := v1.(tiles := v1.tiles + [Tile(m.top, SLAB_SIZE, Slab(t))]);
    BelowTop(m1, v1, start);
    ListsStay(m1, m', v1, v', 0, 0);
    AppendTile(v1.tiles, start, m.top, Tile(m.top, SLAB_SIZE, Slab(t)));
    forall x <- v'.tiles ensures TileOk(m', v', x) {
      if x in v1.tiles {
        Apart(v1.tiles, start, m.top, x, x);
        assert TileOk(m1, v1, x);
      }
    }
    forall a <- v'.blocks ensures BlockOk(m', v', a) {
      assert BlockOk(m1, v1, a);
    }
    forall u: nat | u < |m'.tl| ensures SlabOk(m', v', u) {
      assert SlabOk(m1, v1, u);
    }
  }

  lemma {:induction false} SameNext(mem: Memory, mem': Memory, a: Addr)
    requires SameHeader(mem, mem', a)
    ensures Next(mem', a) == Next(mem, a)
  {
  }

  /** The size of the new block is written where the slab was. */
  lemma {:induction false} SizeInSlab(m: Meta, v: View, start: Addr, t: nat, b: nat)
    requires TilesOk(m, v, start) && t < |m.tl| && b < MAX_BLOCK_SIZE && HEADER <= Pow(b) < m.tl[t].slabsize
    ensures var mem' := PutSize2(m.mem, m.tl[t].slabtop, b);
      && Size2(mem', m.tl[t].slabtop) == b && DataStays(v.blocks, m.mem, mem')
      && forall a <- v.blocks :: SameHeader(m.mem, mem', a)
  {
    hide Contiguous, Size2, PutSize2, SameHeader;
    var slab := SlabOf(m, t);
    assert SlabOk(m, v, t) && TileOk(m, v, slab);
    forall a <- v.blocks ensures HEADER <= Pow(v.blocks[a].exp) && Clear(a, Pow(v.blocks[a].exp), slab.start, HEADER) {
      ClearOfTile(m, v, start, a, slab);
    }
    SizeWritten(v, m.mem, slab.start, b);
  }

  /** A block cut from the front of a slab, with something left over. */
  lemma {:induction false} CutSlab(m: Meta, m': Meta, v: View, start: Addr, t: nat, b: nat) returns (v': View)
    requires Good(m, v, start) && t < |m.tl| && b < MAX_BLOCK_SIZE && HEADER <= Pow(b) < m.tl[t].slabsize
    requires m' == SetSlab(m, t, m.tl[t].slabtop + Pow(b), m.tl[t].slabsize - Pow(b)).(
                     mem := PutSize2(m.mem, m.tl[t].slabtop, b))
    ensures m.tl[t].slabtop !in v.blocks && m.tl[t].slabtop >= start > 0
    ensures v' == v.(tiles := v'.tiles, blocks := v.blocks[m.tl[t].slabtop := Block(b, Live)]) && Good(m', v', start)
    ensures DataStays(v.blocks, m.mem, m'.mem)
  {
    hide Next, Size2, PutSize2, SameHeader, DataStays, Contiguous, Replaced, Swapped, BlockOk, ListOk;
    assert SlabOk(m, v, t);
    var slab := SlabOf(m, t);
    assert TileOk(m, v, slab);
    var i: nat :| i < |v.tiles| && v.tiles[i] == slab;
    var cut, rest := Tile(slab.start, Pow(b), Used), SlabOf(m', t);
    v' := v.(tiles := Replaced(v.tiles, i, [cut, rest]), blocks := v.blocks[slab.start := Block(b, Live)]);
    OneTile(cut);
    AppendTile([cut], slab.start, rest.start, rest);
    assert [cut] + [rest] == [cut, rest];
    SplitTile(v.tiles, start, m.top, i, [cut, rest]);
    AfterSplit(v.tiles, start, m.top, i, [cut, rest]);
    SizeInSlab(m, v, start, t, b);
    forall a <- v.blocks ensures Next(m'.mem, a) == Next(m.mem, a) {
      SameNext(m.mem, m'.mem, a);
    }
    ListsStay(m, m', v, v', slab.start, b);
    Apart(v.tiles, start, m.top, slab, slab);
    TilesCut(m, m', v, v', start, t, b);
  }

  lemma {:induction false} TilesCut(m: Meta, m': Meta, v: View, v': View, start: Addr, t: nat, b: nat)
    requires TilesOk(m, v, start) && t < |m.tl| && b < MAX_BLOCK_SIZE && HEADER <= Pow(b) < m.tl[t].slabsize
    requires m' == SetSlab(m, t, m.tl[t].slabtop + Pow(b), m.tl[t].slabsize - Pow(b)).(
                     mem := PutSize2(m.mem, m.tl[t].slabtop, b))
    requires v' == v.(tiles := v'.tiles, blocks := v.blocks[m.tl[t].slabtop := Block(b, Live)])
    requires Contiguous(v'.tiles, start, m.top)
    requires Swapped(v.tiles, v'.tiles, SlabOf(m, t), [Tile(m.tl[t].slabtop, Pow(b), Used), SlabOf(m', t)])
    ensures TilesOk(m', v', start)
  {
    hide Next, Size2, PutSize2, Contiguous;
    SizeInSlab(m, v, start, t, b);
    var slab, cut, rest := SlabOf(m, t), Tile(m.tl[t].slabtop, Pow(b), Used), SlabOf(m', t);
    assert SlabOk(m, v, t) && TileOk(m, v, slab);
    assert rest.start !in v.blocks by {
      if rest.start in v.blocks {
        assert BlockOk(m, v, rest.start);
        Apart(v.tiles, start, m.top, slab, Tile(rest.start, Pow(v.blocks[rest.start].exp), Used));
      }
    }
    assert cut in [cut, rest] && rest in [cut, rest];
    forall x <- v'.tiles ensures TileOk(m', v', x) {
      assert x != cut && x != rest ==> TileOk(m, v, x);
    }
    forall a <- v'.blocks ensures BlockOk(m', v', a) {
      assert a in v.blocks ==> BlockOk(m, v, a) && SameHeader(m.mem, m'.mem, a);
    }
    forall u: nat | u < |m'.tl| ensures SlabOk(m', v', u) {
      assert SlabOk(m, v, u);
    }
  }

  // ---------- stores to the headers and by the callers ----------

  /** Two blocks keep clear of each other. */
  lemma {:induction false} BlocksClear(m: Meta, v: View, start: Addr, a: Addr, c: Addr)
    requires TilesOk(m, v, start) && a in v.blocks && c in v.blocks && a != c
    ensures Clear(a, Pow(v.blocks[a].exp), c, Pow(v.blocks[c].exp))
    ensures HEADER <= Pow(v.blocks[a].exp) && HEADER <= Pow(v.blocks[c].exp)
  {
    assert BlockOk(m, v, c);
    ClearOfTile(m, v, start, a, Tile(c, Pow(v.blocks[c].exp), Used));
  }

  /** Linking block c to x changes no other header and no data. */
  lemma {:induction false} LinkWritten(m: Meta, v: View, start: Addr, c: Addr, x: Addr)
    requires TilesOk(m, v, start) && c in v.blocks && x < WORD_LIMIT
    ensures var mem' := PutNext(m.mem, c, x);
      && Next(mem', c) == x && DataStays(v.blocks, m.mem, mem')
      && (forall a <- v.blocks | a != c :: Clear(a, HEADER, c, HEADER) && Next(mem', a) == Next(m.mem, a))
      && (forall a <- v.blocks :: Size2(mem', a) == Size2(m.mem, a))
  {
    hide Contiguous, TilesOk, Next, Size2, PutNext, Pow;
    var mem' := PutNext(m.mem, c, x);
    NextPut(m.mem, c, x);
    forall a <- v.blocks
      ensures BlockDataStays(a, Pow(v.blocks[a].exp), m.mem, mem') && Size2(mem', a) == Size2(m.mem, a)
      ensures a != c ==> Clear(a, HEADER, c, HEADER) && Next(mem', a) == Next(m.mem, a)
    {
      if a != c {
        BlocksClear(m, v, start, a, c);
        assert SameHeader(m.mem, mem', a);
      }
    }
  }

  /** A store to the data of a block changes no header, and no data of another block. */
  lemma {:induction false} DataWritten(m: Meta, m': Meta, v: View, start: Addr, c: Addr, x: Addr, n: nat)
    requires Good(m, v, start) && c in v.blocks && c + HEADER <= x && x + n <= c + Pow(v.blocks[c].exp)
    requires m' == m.(mem := m'.mem) && OnlyAt(m.mem, m'.mem, x, n)
    ensures Good(m', v, start) && forall a <- v.blocks :: SameHeader(m.mem, m'.mem, a)
    ensures forall a <- v.blocks | a != c :: BlockDataStays(a, Pow(v.blocks[a].exp), m.mem, m'.mem)
  {
    hide Contiguous, ListsOk, TilesOk, Next, Size2, Pow;
    forall a <- v.blocks
      ensures SameHeader(m.mem, m'.mem, a)
      ensures a != c ==> BlockDataStays(a, Pow(v.blocks[a].exp), m.mem, m'.mem)
    {
      if a != c {
        BlocksClear(m, v, start, a, c);
      }
      HeaderStays(m.mem, m'.mem, x, n, a);
    }
    ListsStay(m, m', v, v, 0, 0);
    SameSizes(m, m', v, start);
  }

  lemma {:induction false} SameSizes(m: Meta, m': Meta, v: View, start: Addr)
    requires TilesOk(m, v, start) && m' == m.(mem := m'.mem) && forall a <- v.blocks :: SameHeader(m.mem, m'.mem, a)
    ensures TilesOk(m', v, start)
  {
    hide Contiguous, Next, Size2;
    forall x <- v.tiles ensures TileOk(m', v, x) {
      assert TileOk(m, v, x);
    }
    forall a <- v.blocks ensures BlockOk(m', v, a) {
      assert BlockOk(m, v, a) && SameHeader(m.mem, m'.mem, a);
    }
    forall u: nat | u < |m'.tl| ensures SlabOk(m', v, u) {
      assert SlabOk(m, v, u);
    }
  }
}
