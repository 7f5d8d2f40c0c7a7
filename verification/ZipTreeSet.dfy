/** The zip tree set: its loops over linked nodes, and the set they implement. */
module ZipTreeSet {
  import opened ZipTree
  import opened ZipTreeMemory

  function FrameOf(t: Tree, toRight: bool): Frame
    requires t.Node?
  {
    Frame(t.ptr, t.key, t.rank, if toRight then t.left else t.right, toRight)
  }

  /** The subtree a path follows below t. */
  function Child(t: Tree, toRight: bool): Tree
    requires t.Node?
  {
    if toRight then t.right else t.left
  }

  /** One step down: the path grows by the node left behind. */
  lemma {:induction false} StepDown(m: Memory, s: Ptr, c: Path, e: Ptr, t: Tree, toRight: bool)
    requires Chain(m, s, c, e) && IsTree(m, e, t) && t.Node?
    ensures var f := FrameOf(t, toRight);
      && e in m && Chain(m, s, c + [f], Next(m, f)) && IsTree(m, Next(m, f), Child(t, toRight))
      && FrameIn(m, e, f) && Fill(f, Child(t, toRight)) == t
      && Plug(c + [f], Child(t, toRight)) == Plug(c, t)
  {
    var f := FrameOf(t, toRight);
    ChainSnoc(m, s, c, e, f);
    PlugSnoc(c, f, Child(t, toRight));
  }

  /** The end of a path from the root is the root only if the path is empty. */
  lemma {:induction false} NotRoot(m: Memory, root: Ptr, c: Path, e: Ptr, t: Tree)
    requires Chain(m, root, c, e) && IsTree(m, e, t) && Sorted(Plug(c, t))
    ensures e == root <==> c == []
  {
    PathApart(c, t);
    if c != [] {
      assert Elem(c[0].key, c[0].rank, c[0].ptr) in PathElems(c);
      assert t.Node? ==> Elem(t.key, t.rank, t.ptr) in Elems(t);
    }
  }

  function LastOr(c: Path, x: Ptr): Ptr { if c == [] then x else c[|c| - 1].ptr }

  predicate AllRight(c: Path, toRight: bool) { forall i | 0 <= i < |c| :: c[i].toRight == toRight }

  /**
    In the middle of unzipping s below x: the left side so far is path cl, the right side cr, and
    t at cur is still to be split.
  */
  ghost predicate Unzipping(m: Memory, x: Ptr, key: Key, s: Tree, cl: Path, cr: Path, t: Tree, el: Ptr, er: Ptr,
                            cur: Ptr) {
    && x != 0 && x in m && m[x].key == key && !Has(s, key) && Sorted(s)
    && Chain(m, m[x].left, cl, el) && Chain(m, m[x].right, cr, er) && IsTree(m, cur, t)
    && AllRight(cl, true) && AllRight(cr, false)
    && Plug(cl, Unzip(t, key).0) == Unzip(s, key).0 && Plug(cr, Unzip(t, key).1) == Unzip(s, key).1
    && Elems(t) <= Elems(s) && Sorted(t)
  }

  function OneElem(m: Memory, p: Ptr): set<Elem>
    requires p in m
  {
    {Elem(m[p].key, m[p].rank, p)}
  }

  /** The two sides stay sorted, each on its side of key, and hold only what was there. */
  lemma {:induction false} SideKeys(s: Tree, key: Key, cl: Path, cr: Path, t: Tree)
    requires Sorted(s) && !Has(s, key) && Sorted(t) && Elems(t) <= Elems(s)
    requires Plug(cl, Unzip(t, key).0) == Unzip(s, key).0 && Plug(cr, Unzip(t, key).1) == Unzip(s, key).1
    ensures Sorted(Plug(cl, Unzip(t, key).0)) && Sorted(Plug(cr, Unzip(t, key).1)) && !Has(t, key)
    ensures PathElems(cl) <= Elems(s) && PathElems(cr) <= Elems(s)
    ensures forall e <- PathElems(cl) :: e.key < key && !HasKey(Elems(t), e.key)
    ensures forall e <- PathElems(cr) :: key < e.key && !HasKey(Elems(t), e.key)
  {
    UnzipSorted(s, key);
    assert !Has(t, key);
    UnzipSorted(t, key);
    PathApart(cl, Unzip(t, key).0);
    PathApart(cr, Unzip(t, key).1);
    PlugElems(cl, Unzip(t, key).0);
    PlugElems(cr, Unzip(t, key).1);
    forall e <- PathElems(cl) ensures e.key < key && !HasKey(Elems(t), e.key) {
      assert e in Elems(Unzip(s, key).0);
      assert forall f <- Elems(t) :: f in Elems(Unzip(t, key).0) || f in Elems(Unzip(t, key).1);
    }
    forall e <- PathElems(cr) ensures key < e.key && !HasKey(Elems(t), e.key) {
      assert e in Elems(Unzip(s, key).1);
      assert forall f <- Elems(t) :: f in Elems(Unzip(t, key).0) || f in Elems(Unzip(t, key).1);
    }
  }

  lemma {:induction false} LeftStep(m: Memory, x: Ptr, key: Key, s: Tree, cl: Path, cr: Path, t: Tree, er: Ptr, cur: Ptr)
    requires Unzipping(m, x, key, s, cl, cr, t, cur, er, cur) && t.Node? && t.key < key
    ensures cur in m && Unzipping(m, x, key, s, cl + [FrameOf(t, true)], cr, t.right, m[cur].right, er, m[cur].right)
  {
    var f := FrameOf(t, true);
    StepDown(m, m[x].left, cl, cur, t, true);
    PlugSnoc(cl, f, Unzip(t.right, key).0);
  }

  lemma {:induction false} RightStep(m: Memory, x: Ptr, key: Key, s: Tree, cl: Path, cr: Path, t: Tree, el: Ptr, cur: Ptr)
    requires Unzipping(m, x, key, s, cl, cr, t, el, cur, cur) && t.Node? && t.key > key
    ensures cur in m && Unzipping(m, x, key, s, cl, cr + [FrameOf(t, false)], t.left, el, m[cur].left, m[cur].left)
  {
    var f := FrameOf(t, false);
    StepDown(m, m[x].right, cr, cur, t, false);
    PlugSnoc(cr, f, Unzip(t.left, key).1);
  }

  /** The link that waited on the right side is set. */
  lemma {:induction false} FixRight(m: Memory, x: Ptr, key: Key, s: Tree, cl: Path, cr: Path, t: Tree, er: Ptr, cur: Ptr)
    requires Unzipping(m, x, key, s, cl, cr, t, cur, er, cur)
    ensures cr != [] ==> cr[|cr| - 1].ptr in m && m[cr[|cr| - 1].ptr].key > key
    ensures var m' := if cr == [] then m[x := m[x].(right := cur)] else SetNext(m, cr[|cr| - 1], cur);
      && Unzipping(m', x, key, s, cl, cr, t, cur, cur, cur)
      && ChangesWithin(m, m', Elems(s) + OneElem(m, x))
  {
    SideKeys(s, key, cl, cr, t);
    if cr == [] {
      OtherStays(m, m[x := m[x].(right := cur)], x, key, cl, t, m[x].left, cur);
    } else {
      FixRightEnd(m, x, key, s, cl, cr, t, er, cur);
    }
  }

  lemma {:induction false} FixRightEnd(m: Memory, x: Ptr, key: Key, s: Tree, cl: Path, cr: Path, t: Tree, er: Ptr,
                                       cur: Ptr)
    requires Unzipping(m, x, key, s, cl, cr, t, cur, er, cur) && cr != []
    ensures cr[|cr| - 1].ptr in m && m[cr[|cr| - 1].ptr].key > key
    ensures var m' := SetNext(m, cr[|cr| - 1], cur);
      Unzipping(m', x, key, s, cl, cr, t, cur, cur, cur) && ChangesWithin(m, m', Elems(s))
  {
    hide Sorted;
    hide Plug;
    hide ChangesWithin;
    var f := cr[|cr| - 1];
    SideKeys(s, key, cl, cr, t);
    SetEndWithin(m, m[x].right, cr, er, cur, Unzip(t, key).1);
    WiderChange(m, SetNext(m, f, cur), PathElems(cr), Elems(s));
    OtherStays(m, SetNext(m, f, cur), f.ptr, f.key, cl, t, m[x].left, cur);
  }

  lemma {:induction false} FixLeft(m: Memory, x: Ptr, key: Key, s: Tree, cl: Path, cr: Path, t: Tree, el: Ptr, cur: Ptr)
    requires Unzipping(m, x, key, s, cl, cr, t, el, cur, cur)
    ensures cl != [] ==> cl[|cl| - 1].ptr in m && m[cl[|cl| - 1].ptr].key < key
    ensures var m' := if cl == [] then m[x := m[x].(left := cur)] else SetNext(m, cl[|cl| - 1], cur);
      && Unzipping(m', x, key, s, cl, cr, t, cur, cur, cur)
      && ChangesWithin(m, m', Elems(s) + OneElem(m, x))
  {
    SideKeys(s, key, cl, cr, t);
    if cl == [] {
      OtherStays(m, m[x := m[x].(left := cur)], x, key, cr, t, m[x].right, cur);
    } else {
      FixLeftEnd(m, x, key, s, cl, cr, t, el, cur);
    }
  }

  lemma {:induction false} FixLeftEnd(m: Memory, x: Ptr, key: Key, s: Tree, cl: Path, cr: Path, t: Tree, el: Ptr,
                                      cur: Ptr)
    requires Unzipping(m, x, key, s, cl, cr, t, el, cur, cur) && cl != []
    ensures cl[|cl| - 1].ptr in m && m[cl[|cl| - 1].ptr].key < key
    ensures var m' := SetNext(m, cl[|cl| - 1], cur);
      Unzipping(m', x, key, s, cl, cr, t, cur, cur, cur) && ChangesWithin(m, m', Elems(s))
  {
    hide Sorted;
    hide Plug;
    hide ChangesWithin;
    var f := cl[|cl| - 1];
    SideKeys(s, key, cl, cr, t);
    SetEndWithin(m, m[x].left, cl, el, cur, Unzip(t, key).0);
    WiderChange(m, SetNext(m, f, cur), PathElems(cl), Elems(s));
    OtherStays(m, SetNext(m, f, cur), f.ptr, f.key, cr, t, m[x].right, cur);
  }

  /** Changing one node leaves a path and a tree without its key alone. */
  lemma {:induction false} OtherStays(m: Memory, m': Memory, q: Ptr, k: Key, c: Path, t: Tree, start: Ptr, cur: Ptr)
    requires q in m && m[q].key == k && m'.Keys == m.Keys && forall p <- m :: p != q ==> m'[p] == m[p]
    requires Chain(m, start, c, cur) && IsTree(m, cur, t) && !HasKey(PathElems(c), k) && !HasKey(Elems(t), k)
    ensures Chain(m', start, c, cur) && IsTree(m', cur, t)
  {
    ChainStays(m, m', start, c, cur);
    TreeStays(m, m', cur, t);
  }

  lemma {:induction false} ChangesMore(m: Memory, m1: Memory, m2: Memory, s: set<Elem>)
    requires ChangesWithin(m, m1, s) && ChangesWithin(m1, m2, s)
    ensures ChangesWithin(m, m2, s)
  {
  }

  lemma {:induction false} UnzipDone(m: Memory, x: Ptr, key: Key, s: Tree, cl: Path, cr: Path, t: Tree)
    requires Unzipping(m, x, key, s, cl, cr, t, 0, 0, 0)
    ensures IsTree(m, x, Node(x, key, m[x].rank, Unzip(s, key).0, Unzip(s, key).1))
  {
    assert t == Leaf;
    ChainTree(m, m[x].left, cl, 0, Leaf);
    ChainTree(m, m[x].right, cr, 0, Leaf);
  }

  // ---------- zipping ----------

  /** In the middle of zipping: path c has been merged, l at left and r at right remain. */
  ghost predicate Zipping(m: Memory, s: Ptr, z: Tree, c: Path, l: Tree, r: Tree, left: Ptr, right: Ptr, e: Ptr) {
    && Chain(m, s, c, e) && IsTree(m, left, l) && IsTree(m, right, r)
    && z == Plug(c, Zip(l, r)) && Sorted(z) && Sorted(l) && Sorted(r) && Before(l, r)
  }

  lemma {:induction false} ZipLeftStep(m: Memory, s: Ptr, z: Tree, c: Path, l: Tree, r: Tree, left: Ptr, right: Ptr)
    requires Zipping(m, s, z, c, l, r, left, right, left) && l.Node? && r.Node? && l.rank >= r.rank
    ensures left in m
    ensures Zipping(m, s, z, c + [FrameOf(l, true)], l.right, r, m[left].right, right, m[left].right)
  {
    StepDown(m, s, c, left, l, true);
    PlugSnoc(c, FrameOf(l, true), Zip(l.right, r));
  }

  lemma {:induction false} ZipRightStep(m: Memory, s: Ptr, z: Tree, c: Path, l: Tree, r: Tree, left: Ptr, right: Ptr)
    requires Zipping(m, s, z, c, l, r, left, right, right) && l.Node? && r.Node? && l.rank < r.rank
    ensures right in m
    ensures Zipping(m, s, z, c + [FrameOf(r, false)], l, r.left, left, m[right].left, m[right].left)
  {
    StepDown(m, s, c, right, r, false);
    PlugSnoc(c, FrameOf(r, false), Zip(l, r.left));
  }

  /** The end of the merged path is linked to the side that goes on. */
  lemma {:induction false} ZipLink(m: Memory, s: Ptr, z: Tree, c: Path, l: Tree, r: Tree, left: Ptr, right: Ptr, e: Ptr,
                                   e': Ptr)
    requires Zipping(m, s, z, c, l, r, left, right, e) && c != []
    ensures c[|c| - 1].ptr in m
    ensures var m' := SetNext(m, c[|c| - 1], e');
      Zipping(m', s, z, c, l, r, left, right, e') && ChangesWithin(m, m', Elems(z))
  {
    hide Sorted;
    hide Plug;
    var f := c[|c| - 1];
    SetEndWithin(m, s, c, e, e', Zip(l, r));
    var m' := SetNext(m, f, e');
    PathApart(c, Zip(l, r));
    PlugElems(c, Zip(l, r));
    ZipSorted(l, r);
    WiderChange(m, m', PathElems(c), Elems(z));
    ApartAgree(m, m', PathElems(c), Elems(l));
    ApartAgree(m, m', PathElems(c), Elems(r));
    hide ChangesWithin;
    TreeStays(m, m', left, l);
    TreeStays(m, m', right, r);
  }

  lemma {:induction false} ZipDone(m: Memory, s: Ptr, z: Tree, c: Path, l: Tree, r: Tree, left: Ptr, right: Ptr)
    requires Zipping(m, s, z, c, l, r, left, right, At(Zip(l, r))) && (left == 0 || right == 0)
    ensures IsTree(m, s, z)
  {
    ChainTree(m, s, c, At(Zip(l, r)), Zip(l, r));
  }

  function Size(t: Tree): nat { if t.Leaf? then 0 else 1 + Size(t.left) + Size(t.right) }

  class ZipTreeSet {
    /** The nodes, by address. */
    var mem: Memory
    var root: Ptr
    ghost var tree: Tree

    ghost predicate Valid()
      reads this
    {
      IsTree(mem, root, tree) && Good(tree)
    }

    constructor ()
      ensures Valid() && tree == Leaf
    {
      mem, root, tree := map[], 0, Leaf;
    }

    /** Looks for key below node. */
    method RecursiveFind(key: Key, node: Ptr, ghost t: Tree) returns (r: Ptr)
      requires IsTree(mem, node, t) && Sorted(t)
      ensures r != 0 <==> Has(t, key)
      ensures r != 0 ==> r in mem && mem[r].key == key && Elem(key, mem[r].rank, r) in Elems(t)
      decreases t
    {
      if node == 0 {
        return 0;
      }
      assert Elem(t.key, t.rank, t.ptr) in Elems(t);
      var n := mem[node];
      if n.key == key {
        return node;
      }
      if key < n.key {
        assert Has(t, key) <==> Has(t.left, key);
        if n.left == 0 {
          return 0;
        }
        assert Elem(t.left.key, t.left.rank, t.left.ptr) in Elems(t.left);
        if key == mem[n.left].key {
          return n.left;
        }
        r := RecursiveFind(key, n.left, t.left);
      } else {
        assert Has(t, key) <==> Has(t.right, key);
        if n.right == 0 {
          return 0;
        }
        assert Elem(t.right.key, t.right.rank, t.right.ptr) in Elems(t.right);
        if key == mem[n.right].key {
          return n.right;
        }
        r := RecursiveFind(key, n.right, t.right);
      }
    }

    method StoreLeft(p: Ptr, q: Ptr)
      requires p in mem
      modifies `mem
      ensures mem == old(mem)[p := old(mem)[p].(left := q)]
    {
      mem := mem[p := mem[p].(left := q)];
    }

    method StoreRight(p: Ptr, q: Ptr)
      requires p in mem
      modifies `mem
      ensures mem == old(mem)[p := old(mem)[p].(right := q)]
    {
      mem := mem[p := mem[p].(right := q)];
    }

    /** Puts q where the path c ends: at the root, or below prev on the side of key. */
    method Relink(atRoot: bool, prev: Ptr, key: Key, q: Ptr, ghost c: Path, ghost e: Ptr, ghost t: Tree)
      requires Chain(mem, root, c, e) && Sorted(Plug(c, t)) && (atRoot <==> c == [])
      requires c != [] ==> prev == c[|c| - 1].ptr && prev in mem && (c[|c| - 1].toRight <==> !(key < mem[prev].key))
      modifies `mem, `root
      ensures Chain(mem, root, c, q) && ChangesWithin(old(mem), mem, PathElems(c))
    {
      if atRoot {
        root := q;
        return;
      }
      SetEnd(mem, root, c, e, q, t);
      LastApart(c, t);
      ChainPrefix(mem, root, c, e);
      if key < mem[prev].key {
        StoreLeft(prev, q);
      } else {
        StoreRight(prev, q);
      }
    }

    // ---------- insertion ----------

    /** Links the new node x, not yet in the tree, and unzips what it displaces. */
    method IterativeInsert(x: Ptr)
      requires Valid() && x != 0 && x in mem && mem[x].left == 0 && mem[x].right == 0 && !Has(tree, mem[x].key)
      modifies this
      ensures Valid() && tree == Insert(old(tree), x, old(mem)[x].key, old(mem)[x].rank)
      ensures mem.Keys == old(mem.Keys)
    {
      hide Sorted, Below, Heaped, Agree, Unzip;
      var rank, key := mem[x].rank, mem[x].key;
      var cur, prev := root, 0;
      ghost var c: Path, s := [], tree;
      while cur != 0 && (rank < mem[cur].rank || (rank == mem[cur].rank && key > mem[cur].key))
        invariant mem == old(mem) && root == old(root) && tree == old(tree)
        invariant Chain(mem, root, c, cur) && IsTree(mem, cur, s) && tree == Plug(c, s)
        invariant Insert(tree, x, key, rank) == Plug(c, Insert(s, x, key, rank))
        invariant c == [] ==> cur == root
        invariant c != [] ==>
          prev == c[|c| - 1].ptr && prev in mem && (c[|c| - 1].toRight <==> !(key < mem[prev].key))
        decreases s
      {
        prev := cur;
        ghost var f := FrameOf(s, !(key < mem[cur].key));
        PlugElems(c, s);
        assert Elem(s.key, s.rank, s.ptr) in Elems(tree);
        StepDown(mem, root, c, cur, s, f.toRight);
        PlugSnoc(c, f, Insert(Child(s, f.toRight), x, key, rank));
        c, s := c + [f], Child(s, f.toRight);
        if key < mem[cur].key {
          cur := mem[cur].left;
        } else {
          cur := mem[cur].right;
        }
      }
      PathApart(c, s);
      PlugElems(c, s);
      NotRoot(mem, root, c, cur, s);
      Relink(cur == root, prev, key, x, c, cur, s);
      ghost var m := mem;
      assert Agree(old(mem), mem, Elems(s)) by {
        ApartAgree(old(mem), mem, PathElems(c), Elems(s));
      }
      TreeStays(old(mem), mem, cur, s);
      Displace(x, cur, s);
      ghost var changed := Elems(s) + {Elem(key, rank, x)};
      assert Apart(changed, PathElems(c));
      ApartAgree(m, mem, changed, PathElems(c));
      ChainStays(m, mem, root, c, x);
      ChainTree(mem, root, c, x, Insert(s, x, key, rank));
      InsertSorted(tree, x, key, rank);
      InsertHeaped(tree, x, key, rank);
      tree := Insert(tree, x, key, rank);
    }

    /** The new node gets what it displaced, unzipped. */
    method Displace(x: Ptr, cur: Ptr, ghost s: Tree)
      requires IsTree(mem, cur, s) && Sorted(s) && x != 0 && x in mem && mem[x].left == 0 && mem[x].right == 0
      requires !Has(s, mem[x].key)
      modifies `mem
      ensures ChangesWithin(old(mem), mem, Elems(s) + {Elem(old(mem)[x].key, old(mem)[x].rank, x)})
      ensures var u := Unzip(s, old(mem)[x].key);
        IsTree(mem, x, Node(x, old(mem)[x].key, old(mem)[x].rank, u.0, u.1))
    {
      if cur == 0 {
        return;
      }
      var key := mem[x].key;
      assert Elem(s.key, s.rank, s.ptr) in Elems(s);
      if key < mem[cur].key {
        StoreRight(x, cur);
      } else {
        StoreLeft(x, cur);
      }
      assert Agree(old(mem), mem, Elems(s));
      TreeStays(old(mem), mem, cur, s);
      UnzipBelow(x, cur, s);
    }

    /**
      Unzips s below x: the two sides grow in turns, and the last node of the side that rests
      waits for its link until the other side has found where it goes on.
    */
    method UnzipBelow(x: Ptr, top: Ptr, ghost s: Tree)
      requires IsTree(mem, top, s) && Sorted(s) && s.Node? && x != 0 && x in mem && !Has(s, mem[x].key)
      requires if mem[x].key < s.key then mem[x].right == top else mem[x].left == top
      modifies `mem
      ensures ChangesWithin(old(mem), mem, Elems(s) + {Elem(old(mem)[x].key, old(mem)[x].rank, x)})
      ensures var u := Unzip(s, old(mem)[x].key);
        IsTree(mem, x, Node(x, old(mem)[x].key, old(mem)[x].rank, u.0, u.1))
    {
      var key := mem[x].key;
      var cur, prev := top, x;
      ghost var cl: Path, cr: Path, t := [], [], s;
      ghost var el, er := mem[x].left, mem[x].right;
      ghost var was := mem;
      assert Elem(s.key, s.rank, s.ptr) in Elems(s);
      while cur != 0
        invariant Unzipping(mem, x, key, s, cl, cr, t, el, er, cur)
        invariant ChangesWithin(was, mem, Elems(s) + OneElem(was, x))
        invariant if cur == 0 then el == er == 0
          else if t.key < key then el == cur && prev == LastOr(cr, x)
          else er == cur && prev == LastOr(cl, x)
        decreases Size(t)
      {
        var fix := prev;
        ghost var m := mem;
        if mem[cur].key < key {
          cur, prev, cl, t := LeftSpine(x, key, cur, s, cl, cr, t, er);
          FixRight(mem, x, key, s, cl, cr, t, er, cur);
        } else {
          cur, prev, cr, t := RightSpine(x, key, cur, s, cl, cr, t, el);
          FixLeft(mem, x, key, s, cl, cr, t, el, cur);
        }
        SetFix(fix, prev, key, cur, x);
        el, er := cur, cur;
        ChangesMore(was, m, mem, Elems(s) + OneElem(was, x));
      }
      UnzipDone(mem, x, key, s, cl, cr, t);
    }

    /** Passes the nodes below key; each becomes the end of the left side. */
    method LeftSpine(x: Ptr, key: Key, top: Ptr, ghost s: Tree, ghost cl0: Path, ghost cr: Path, ghost t0: Tree,
                     ghost er: Ptr)
      returns (cur: Ptr, prev: Ptr, ghost cl: Path, ghost t: Tree)
      requires Unzipping(mem, x, key, s, cl0, cr, t0, top, er, top) && top != 0 && t0.key < key
      ensures Unzipping(mem, x, key, s, cl, cr, t, cur, er, cur)
      ensures cl != [] && prev == LastOr(cl, x) && Size(t) < Size(t0) && (cur != 0 ==> t.key > key)
      ensures prev in mem && mem[prev].key < key
    {
      cur, prev, cl, t := top, x, cl0, t0;
      while cur != 0 && mem[cur].key <= key
        invariant Unzipping(mem, x, key, s, cl, cr, t, cur, er, cur)
        invariant (cur == top && t == t0) || (cl != [] && prev == LastOr(cl, x) && Size(t) < Size(t0) && prev in mem && mem[prev].key < key)
        decreases Size(t)
      {
        SideKeys(s, key, cl, cr, t);
        assert Elem(t.key, t.rank, t.ptr) in Elems(t);
        LeftStep(mem, x, key, s, cl, cr, t, er, cur);
        cl, t := cl + [FrameOf(t, true)], t.right;
        prev := cur;
        cur := mem[cur].right;
      }
    }

    /** Passes the nodes above key; each becomes the end of the right side. */
    method RightSpine(x: Ptr, key: Key, top: Ptr, ghost s: Tree, ghost cl: Path, ghost cr0: Path, ghost t0: Tree,
                      ghost el: Ptr)
      returns (cur: Ptr, prev: Ptr, ghost cr: Path, ghost t: Tree)
      requires Unzipping(mem, x, key, s, cl, cr0, t0, el, top, top) && top != 0 && t0.key > key
      ensures Unzipping(mem, x, key, s, cl, cr, t, el, cur, cur)
      ensures cr != [] && prev == LastOr(cr, x) && Size(t) < Size(t0) && (cur != 0 ==> t.key < key)
      ensures prev in mem && mem[prev].key > key
    {
      cur, prev, cr, t := top, x, cr0, t0;
      while cur != 0 && mem[cur].key >= key
        invariant Unzipping(mem, x, key, s, cl, cr, t, el, cur, cur)
        invariant (cur == top && t == t0) || (cr != [] && prev == LastOr(cr, x) && Size(t) < Size(t0) && prev in mem && mem[prev].key > key)
        decreases Size(t)
      {
        SideKeys(s, key, cl, cr, t);
        assert Elem(t.key, t.rank, t.ptr) in Elems(t);
        RightStep(mem, x, key, s, cl, cr, t, el, cur);
        cr, t := cr + [FrameOf(t, false)], t.left;
        prev := cur;
        cur := mem[cur].left;
      }
    }

    /** Links the end that waited to where the other side stopped. */
    method SetFix(fix: Ptr, prev: Ptr, key: Key, cur: Ptr, x: Ptr)
      requires x in mem && fix in mem && prev in mem
      modifies `mem
      ensures mem == if old(mem)[fix].key > key || (fix == x && old(mem)[prev].key > key)
        then old(mem)[fix := old(mem)[fix].(left := cur)] else old(mem)[fix := old(mem)[fix].(right := cur)]
    {
      if mem[fix].key > key || (fix == x && mem[prev].key > key) {
        StoreLeft(fix, cur);
      } else {
        StoreRight(fix, cur);
      }
    }

    // ---------- deletion ----------

    /** Unlinks the node with this key, false if there is none. */
    method IterativeDelete(key: Key) returns (found: bool)
      requires Valid()
      modifies this
      ensures Valid() && found == Has(old(tree), key) && tree == Delete(old(tree), key)
      ensures mem.Keys == old(mem.Keys) && forall q <- mem :: mem[q].key == old(mem)[q].key
    {
      if root == 0 {
        return false;
      }
      var cur, prev;
      ghost var c, s;
      cur, prev, c, s := SearchPath(key);
      if cur == 0 {
        return false;
      }
      DeleteSorted(tree, key);
      DeleteHeaped(tree, key);
      Unlink(key, cur, prev, c, s);
      tree := Delete(tree, key);
      return true;
    }

    /** Goes down to the node with this key, or to null. */
    method SearchPath(key: Key) returns (cur: Ptr, prev: Ptr, ghost c: Path, ghost s: Tree)
      requires Valid() && root != 0
      ensures Chain(mem, root, c, cur) && IsTree(mem, cur, s) && tree == Plug(c, s)
      ensures Delete(tree, key) == Plug(c, Delete(s, key)) && (cur != 0 <==> Has(tree, key))
      ensures cur != 0 ==> s.Node? && s.key == key
      ensures cur == 0 ==> Delete(tree, key) == tree
      ensures c != [] ==>
        prev == c[|c| - 1].ptr && prev in mem && (c[|c| - 1].toRight <==> !(key < mem[prev].key))
    {
      cur, prev, c, s := root, 0, [], tree;
      while key != mem[cur].key
        invariant Chain(mem, root, c, cur) && IsTree(mem, cur, s) && tree == Plug(c, s) && s.Node?
        invariant Delete(tree, key) == Plug(c, Delete(s, key)) && (Has(tree, key) <==> Has(s, key))
        invariant c != [] ==>
          prev == c[|c| - 1].ptr && prev in mem && (c[|c| - 1].toRight <==> !(key < mem[prev].key))
        decreases s
      {
        prev := cur;
        ghost var f := FrameOf(s, !(key < mem[cur].key));
        PathApart(c, s);
        HasBelow(s, key, f.toRight);
        StepDown(mem, root, c, cur, s, f.toRight);
        PlugSnoc(c, f, Delete(Child(s, f.toRight), key));
        c, s := c + [f], Child(s, f.toRight);
        if key < mem[cur].key {
          cur := mem[cur].left;
        } else {
          cur := mem[cur].right;
        }
        if cur == 0 {
          return;
        }
      }
      assert Elem(s.key, s.rank, s.ptr) in Elems(s);
    }

    /** Takes out the node at cur: its parent gets its two subtrees, zipped. */
    method Unlink(key: Key, cur: Ptr, prev: Ptr, ghost c: Path, ghost s: Tree)
      requires Chain(mem, root, c, cur) && IsTree(mem, cur, s) && Sorted(Plug(c, s)) && s.Node? && s.key == key
      requires c != [] ==>
        prev == c[|c| - 1].ptr && prev in mem && (c[|c| - 1].toRight <==> !(key < mem[prev].key))
      modifies `mem, `root
      ensures IsTree(mem, root, Plug(c, Zip(s.left, s.right)))
      ensures mem.Keys == old(mem.Keys) && forall q <- mem :: mem[q].key == old(mem)[q].key
    {
      var left, right := mem[cur].left, mem[cur].right;
      var top: Ptr;
      if left == 0 {
        top := right;
      } else if right == 0 {
        top := left;
      } else if mem[left].rank >= mem[right].rank {
        top := left;
      } else {
        top := right;
      }
      PathApart(c, s);
      RootKey(mem, root, c, cur, s);
      ghost var m0 := mem;
      Relink(mem[root].key == key, prev, key, top, c, cur, s);
      ghost var m := mem;
      Subtrees(m0, mem, cur, s, PathElems(c));
      ZipSpines(top, left, right, s.left, s.right);
      Spliced(m, mem, root, c, top, s);
    }

    /** Merges two spines by rank, relinking only where it changes sides. */
    method ZipSpines(top: Ptr, left0: Ptr, right0: Ptr, ghost l0: Tree, ghost r0: Tree)
      requires IsTree(mem, left0, l0) && IsTree(mem, right0, r0) && Sorted(l0) && Sorted(r0) && Before(l0, r0)
      requires top == At(Zip(l0, r0))
      modifies `mem
      ensures IsTree(mem, top, Zip(l0, r0)) && ChangesWithin(old(mem), mem, Elems(Zip(l0, r0)))
    {
      var left, right, prev := left0, right0, 0;
      ghost var c: Path, l, r, z := [], l0, r0, Zip(l0, r0);
      ghost var was := mem;
      ZipSorted(l0, r0);
      while left != 0 && right != 0
        invariant Zipping(mem, top, z, c, l, r, left, right, At(Zip(l, r)))
        invariant ChangesWithin(was, mem, Elems(z))
        decreases Size(l) + Size(r)
      {
        ghost var m := mem;
        if mem[left].rank >= mem[right].rank {
          left, prev, c, l := PassLeft(top, left, right, z, c, l, r);
          ZipLink(mem, top, z, c, l, r, left, right, left, right);
          StoreRight(prev, right);
        } else {
          right, prev, c, r := PassRight(top, left, right, z, c, l, r);
          ZipLink(mem, top, z, c, l, r, left, right, right, left);
          StoreLeft(prev, left);
        }
        ChangesMore(was, m, mem, Elems(z));
      }
      ZipDone(mem, top, z, c, l, r, left, right);
    }

    /** Passes the nodes of the left spine that rank at least as high as right. */
    method PassLeft(top: Ptr, left0: Ptr, right: Ptr, ghost z: Tree, ghost c0: Path, ghost l0: Tree, ghost r: Tree)
      returns (left: Ptr, prev: Ptr, ghost c: Path, ghost l: Tree)
      requires Zipping(mem, top, z, c0, l0, r, left0, right, left0) && left0 != 0 && right != 0 && l0.rank >= r.rank
      ensures Zipping(mem, top, z, c, l, r, left, right, left) && Size(l) < Size(l0)
      ensures c != [] && prev == c[|c| - 1].ptr && c[|c| - 1].toRight && prev in mem && At(Zip(l, r)) == right
    {
      left, prev, c, l := left0, 0, c0, l0;
      while left != 0 && mem[left].rank >= mem[right].rank
        invariant Zipping(mem, top, z, c, l, r, left, right, left)
        invariant (left == left0 && l == l0)
          || (Size(l) < Size(l0) && c != [] && prev == c[|c| - 1].ptr && c[|c| - 1].toRight && prev in mem)
        decreases Size(l)
      {
        ZipLeftStep(mem, top, z, c, l, r, left, right);
        c, l := c + [FrameOf(l, true)], l.right;
        prev := left;
        left := mem[left].right;
      }
    }

    /** Passes the nodes of the right spine that rank higher than left. */
    method PassRight(top: Ptr, left: Ptr, right0: Ptr, ghost z: Tree, ghost c0: Path, ghost l: Tree, ghost r0: Tree)
      returns (right: Ptr, prev: Ptr, ghost c: Path, ghost r: Tree)
      requires Zipping(mem, top, z, c0, l, r0, left, right0, right0) && left != 0 && right0 != 0 && l.rank < r0.rank
      ensures Zipping(mem, top, z, c, l, r, left, right, right) && Size(r) < Size(r0)
      ensures c != [] && prev == c[|c| - 1].ptr && !c[|c| - 1].toRight && prev in mem && At(Zip(l, r)) == left
    {
      right, prev, c, r := right0, 0, c0, r0;
      while right != 0 && mem[left].rank < mem[right].rank
        invariant Zipping(mem, top, z, c, l, r, left, right, right)
        invariant (right == right0 && r == r0)
          || (Size(r) < Size(r0) && c != [] && prev == c[|c| - 1].ptr && !c[|c| - 1].toRight && prev in mem)
        decreases Size(r)
      {
        ZipRightStep(mem, top, z, c, l, r, left, right);
        c, r := c + [FrameOf(r, false)], r.left;
        prev := right;
        right := mem[right].left;
      }
    }

    // ---------- the set ----------

    /** True if the key was not there; p is the address the allocator gave the new node. */
    method Add(key: Key, p: Ptr, randomRank: Rank) returns (added: bool)
      requires Valid() && p != 0 && p !in mem
      modifies this
      ensures Valid() && added == !Has(old(tree), key)
      ensures Elems(tree) == if added then Elems(old(tree)) + {Elem(key, randomRank, p)} else Elems(old(tree))
      ensures forall k :: Has(tree, k) <==> Has(old(tree), k) || k == key
      ensures mem.Keys == if added then old(mem.Keys) + {p} else old(mem.Keys)
    {
      var r := RecursiveFind(key, root, tree);
      if r != 0 {
        return false;
      }
      ghost var m := mem;
      mem := mem[p := Rec(key, randomRank, 0, 0)];
      TreeStays(m, mem, root, tree);
      InsertSorted(tree, p, key, randomRank);
      IterativeInsert(p);
      assert Elem(key, randomRank, p) in Elems(tree) && forall e <- Elems(old(tree)) :: e in Elems(tree);
      return true;
    }

    method Remove(key: Key) returns (removed: bool)
      requires Valid()
      modifies this
      ensures Valid() && removed == Has(old(tree), key) && tree == Delete(old(tree), key)
      ensures forall e :: e in Elems(tree) <==> e in Elems(old(tree)) && e.key != key
      ensures forall k :: Has(tree, k) <==> Has(old(tree), k) && k != key
    {
      var delNode := RecursiveFind(key, root, tree);
      DeleteSorted(tree, key);
      removed := IterativeDelete(key);
      if delNode != 0 {
        ghost var m := mem;
        mem := mem - {delNode};
        assert Agree(m, mem, Elems(tree)) by {
          assert !HasKey(Elems(tree), m[delNode].key);
        }
        TreeStays(m, mem, root, tree);
      }
    }

    method ContainsKey(key: Key) returns (r: bool)
      requires Valid()
      ensures r == Has(tree, key)
    {
      var n := RecursiveFind(key, root, tree);
      r := n != 0;
    }

    /** Some address not in use. */
    method Unused() returns (p: Ptr)
      ensures p != 0 && p !in mem
    {
      p := 1;
      while p in mem
        invariant p > 0
        decreases set q | q in mem && q >= p
      {
        ghost var was := set q | q in mem && q >= p;
        p := p + 1;
        assert (set q | q in mem && q >= p) == was - {p - 1} && p - 1 in was;
      }
    }

    /** Any run of operations returns what a set would, whatever ranks are drawn. */
    method Run(ops: seq<SetOp>) returns (results: seq<bool>)
      requires Valid()
      modifies this
      ensures Valid() && (KeysOf(tree), results) == SetRun(KeysOf(old(tree)), ops)
    {
      results := [];
      for i := 0 to |ops|
        invariant Valid() && (KeysOf(tree), results) == SetRun(KeysOf(old(tree)), ops[..i])
      {
        ghost var s := KeysOf(tree);
        var r;
        match ops[i] {
          case DoAdd(k, rank) =>
            var p := Unused();
            r := Add(k, p, rank);
          case DoRemove(k) => r := Remove(k);
          case DoContains(k) => r := ContainsKey(k);
        }
        assert KeysOf(tree) == SetStep(s, ops[i]).0;
        assert ops[..i + 1][..i] == ops[..i];
        results := results + [r];
      }
      assert ops[..|ops|] == ops;
    }
  }

  // ---------- the mathematical set ----------

  datatype SetOp = DoAdd(key: Key, rank: Rank) | DoRemove(key: Key) | DoContains(key: Key)

  /** The result of an operation, and the set after it. */
  function SetStep(s: set<Key>, op: SetOp): (set<Key>, bool) {
    match op
    case DoAdd(k, _) => (s + {k}, k !in s)
    case DoRemove(k) => (s - {k}, k in s)
    case DoContains(k) => (s, k in s)
  }

  function SetRun(s: set<Key>, ops: seq<SetOp>): (r: (set<Key>, seq<bool>))
    ensures |r.1| == |ops|
  {
    if ops == [] then (s, [])
    else
      var n := |ops| - 1;
      var r := SetRun(s, ops[..n]);
      var q := SetStep(r.0, ops[n]);
      (q.0, r.1 + [q.1])
  }

  function KeysOf(t: Tree): (s: set<Key>)
    ensures forall k :: k in s <==> Has(t, k)
  {
    set e | e in Elems(t) :: e.key
  }

  lemma {:induction false} HasBelow(t: Tree, k: Key, toRight: bool)
    requires Sorted(t) && t.Node? && t.key != k && (toRight <==> !(k < t.key))
    ensures Has(t, k) <==> Has(Child(t, toRight), k)
  {
    assert forall e <- Elems(Child(t, toRight)) :: e in Elems(t);
  }

  lemma {:induction false} RootKey(m: Memory, root: Ptr, c: Path, e: Ptr, t: Tree)
    requires Chain(m, root, c, e) && IsTree(m, e, t) && t.Node? && Sorted(Plug(c, t))
    ensures root in m && (m[root].key == t.key <==> c == [])
  {
    PathApart(c, t);
    assert Elem(t.key, t.rank, t.ptr) in Elems(t);
    if c != [] {
      assert Elem(c[0].key, c[0].rank, c[0].ptr) in PathElems(c);
    }
  }

  /** Relinking above a node leaves both its subtrees alone. */
  lemma {:induction false} Subtrees(m: Memory, m': Memory, p: Ptr, s: Tree, changed: set<Elem>)
    requires IsTree(m, p, s) && s.Node? && ChangesWithin(m, m', changed) && Apart(changed, Elems(s))
    ensures p in m && IsTree(m', m[p].left, s.left) && IsTree(m', m[p].right, s.right)
  {
    ApartAgree(m, m', changed, Elems(s.left));
    ApartAgree(m, m', changed, Elems(s.right));
    TreeStays(m, m', m[p].left, s.left);
    TreeStays(m, m', m[p].right, s.right);
  }

  lemma {:induction false} Spliced(m: Memory, m': Memory, root: Ptr, c: Path, top: Ptr, s: Tree)
    requires s.Node? && Sorted(s) && Chain(m, root, c, top) && Apart(PathElems(c), Elems(s))
    requires var z := Zip(s.left, s.right); IsTree(m', top, z) && ChangesWithin(m, m', Elems(z))
    ensures IsTree(m', root, Plug(c, Zip(s.left, s.right)))
  {
    var z := Zip(s.left, s.right);
    ZipSorted(s.left, s.right);
    ApartAgree(m, m', Elems(z), PathElems(c));
    ChainStays(m, m', root, c, top);
    ChainTree(m', root, c, top, z);
  }
}
