/** Zip trees in memory: nodes linked by pointers, and paths with one dangling link. */
module ZipTreeMemory {
  import opened ZipTree

  datatype Rec = Rec(key: Key, rank: Rank, left: Ptr, right: Ptr)

  type Memory = map<Ptr, Rec>

  predicate IsTree(m: Memory, p: Ptr, t: Tree)
    decreases t
  {
    match t
    case Leaf => p == 0
    case Node(q, k, r, lt, rt) =>
      && p == q && q != 0 && q in m && m[q].key == k && m[q].rank == r
      && IsTree(m, m[q].left, lt) && IsTree(m, m[q].right, rt)
  }

  function At(t: Tree): Ptr { if t.Leaf? then 0 else t.ptr }

  predicate HasKey(s: set<Elem>, k: Key) { exists e :: e in s && e.key == k }

  /** Every node of m with a key in s is the same in m'. */
  predicate Agree(m: Memory, m': Memory, s: set<Elem>) {
    forall q <- m :: HasKey(s, m[q].key) ==> q in m' && m'[q] == m[q]
  }

  lemma {:induction false} TreeStays(m: Memory, m': Memory, p: Ptr, t: Tree)
    requires IsTree(m, p, t) && Agree(m, m', Elems(t))
    ensures IsTree(m', p, t)
    decreases t
  {
    if t.Node? {
      assert Elem(t.key, t.rank, t.ptr) in Elems(t);
      assert forall k | HasKey(Elems(t.left), k) || HasKey(Elems(t.right), k) :: HasKey(Elems(t), k);
      TreeStays(m, m', m[p].left, t.left);
      TreeStays(m, m', m[p].right, t.right);
    }
  }

  // ---------- paths ----------

  /** One node of a path: the subtree it does not follow, and which way it goes. */
  datatype Frame = Frame(ptr: Ptr, key: Key, rank: Rank, other: Tree, toRight: bool)

  type Path = seq<Frame>

  function Fill(f: Frame, t: Tree): Tree {
    if f.toRight then Node(f.ptr, f.key, f.rank, f.other, t) else Node(f.ptr, f.key, f.rank, t, f.other)
  }

  /** The tree whose path is c, with t where it ends. */
  function Plug(c: Path, t: Tree): Tree {
    if c == [] then t else Fill(c[0], Plug(c[1..], t))
  }

  function FrameElems(f: Frame): set<Elem> { Elems(f.other) + {Elem(f.key, f.rank, f.ptr)} }

  function PathElems(c: Path): set<Elem> {
    if c == [] then {} else FrameElems(c[0]) + PathElems(c[1..])
  }

  predicate FrameIn(m: Memory, p: Ptr, f: Frame) {
    && p == f.ptr && p != 0 && p in m && m[p].key == f.key && m[p].rank == f.rank
    && IsTree(m, if f.toRight then m[p].left else m[p].right, f.other)
  }

  function Next(m: Memory, f: Frame): Ptr
    requires f.ptr in m
  {
    if f.toRight then m[f.ptr].right else m[f.ptr].left
  }

  /** The path c starts at node s, and its last link holds e. */
  predicate Chain(m: Memory, s: Ptr, c: Path, e: Ptr)
    decreases |c|
  {
    if c == [] then s == e
    else FrameIn(m, s, c[0]) && Chain(m, Next(m, c[0]), c[1..], e)
  }

  /** Following link f of a node. */
  function SetNext(m: Memory, f: Frame, e: Ptr): Memory
    requires f.ptr in m
  {
    m[f.ptr := if f.toRight then m[f.ptr].(right := e) else m[f.ptr].(left := e)]
  }

  lemma {:induction false} ChainTree(m: Memory, s: Ptr, c: Path, e: Ptr, t: Tree)
    requires Chain(m, s, c, e) && IsTree(m, e, t)
    ensures IsTree(m, s, Plug(c, t))
    decreases |c|
  {
    if c != [] {
      ChainTree(m, Next(m, c[0]), c[1..], e, t);
    }
  }

  lemma {:induction false} ChainStays(m: Memory, m': Memory, s: Ptr, c: Path, e: Ptr)
    requires Chain(m, s, c, e) && Agree(m, m', PathElems(c))
    ensures Chain(m', s, c, e)
    decreases |c|
  {
    if c != [] {
      assert Elem(c[0].key, c[0].rank, c[0].ptr) in PathElems(c);
      assert forall k | HasKey(Elems(c[0].other), k) || HasKey(PathElems(c[1..]), k) :: HasKey(PathElems(c), k);
      TreeStays(m, m', if c[0].toRight then m[s].left else m[s].right, c[0].other);
      ChainStays(m, m', Next(m, c[0]), c[1..], e);
    }
  }

  lemma {:induction false} ChainSnoc(m: Memory, s: Ptr, c: Path, e: Ptr, f: Frame)
    requires Chain(m, s, c, e) && FrameIn(m, e, f)
    ensures Chain(m, s, c + [f], Next(m, f))
    decreases |c|
  {
    if c == [] {
      assert (c + [f])[1..] == [];
    } else {
      ChainSnoc(m, Next(m, c[0]), c[1..], e, f);
      assert (c + [f])[1..] == c[1..] + [f];
    }
  }

  lemma {:induction false} PlugSnoc(c: Path, f: Frame, t: Tree)
    ensures Plug(c + [f], t) == Plug(c, Fill(f, t))
    ensures PathElems(c + [f]) == PathElems(c) + FrameElems(f)
  {
    if c == [] {
      assert (c + [f])[1..] == [];
    } else {
      PlugSnoc(c[1..], f, t);
      assert (c + [f])[1..] == c[1..] + [f];
    }
  }

  lemma {:induction false} PlugElems(c: Path, t: Tree)
    ensures Elems(Plug(c, t)) == PathElems(c) + Elems(t)
  {
    if c != [] {
      PlugElems(c[1..], t);
    }
  }

  predicate Apart(s: set<Elem>, u: set<Elem>) { forall e, f | e in s && f in u :: e.key != f.key }

  /** In a sorted tree the path, its frames and what hangs at its end share no key. */
  lemma {:induction false} PathApart(c: Path, t: Tree)
    requires Sorted(Plug(c, t))
    ensures Sorted(t) && Apart(PathElems(c), Elems(t))
  {
    if c != [] {
      PathApart(c[1..], t);
      PlugElems(c[1..], t);
    }
  }

  lemma {:induction false} LastApart(c: Path, t: Tree)
    requires c != [] && Sorted(Plug(c, t))
    ensures var n := |c| - 1;
      && c == c[..n] + [c[n]] && PathElems(c) == PathElems(c[..n]) + FrameElems(c[n])
      && !HasKey(PathElems(c[..n]), c[n].key) && !HasKey(Elems(c[n].other), c[n].key)
  {
    var n := |c| - 1;
    var f := c[n];
    assert c == c[..n] + [f];
    PlugSnoc(c[..n], f, t);
    PathApart(c[..n], Fill(f, t));
    assert Elem(f.key, f.rank, f.ptr) in Elems(Fill(f, t));
  }

  lemma {:induction false} ChainPrefix(m: Memory, s: Ptr, c: Path, e: Ptr)
    requires Chain(m, s, c, e) && c != []
    ensures var n := |c| - 1;
      && FrameIn(m, c[n].ptr, c[n]) && Chain(m, s, c[..n], c[n].ptr) && Next(m, c[n]) == e
    decreases |c|
  {
    var n := |c| - 1;
    if n > 0 {
      ChainPrefix(m, Next(m, c[0]), c[1..], e);
      assert c[..n][1..] == c[1..][..n - 1];
    } else {
      assert c[1..] == [];
    }
  }

  /** Storing to the last link of a path changes where it ends and nothing else. */
  lemma {:induction false} SetEnd(m: Memory, s: Ptr, c: Path, e: Ptr, e': Ptr, t: Tree)
    requires c != [] && Chain(m, s, c, e) && Sorted(Plug(c, t))
    ensures c[|c| - 1].ptr in m && Chain(SetNext(m, c[|c| - 1], e'), s, c, e')
  {
    var n := |c| - 1;
    var f := c[n];
    ChainPrefix(m, s, c, e);
    LastApart(c, t);
    var m' := SetNext(m, f, e');
    ChainStays(m, m', s, c[..n], f.ptr);
    TreeStays(m, m', if f.toRight then m[f.ptr].left else m[f.ptr].right, f.other);
    ChainSnoc(m', s, c[..n], f.ptr, f);
  }

  /** Only nodes with keys in s differ, and no node changes its key or rank. */
  predicate ChangesWithin(m: Memory, m': Memory, s: set<Elem>) {
    && m'.Keys == m.Keys
    && (forall q <- m :: m'[q].key == m[q].key && m'[q].rank == m[q].rank)
    && (forall q <- m :: !HasKey(s, m[q].key) ==> m'[q] == m[q])
  }

  lemma {:induction false} SetEndWithin(m: Memory, s: Ptr, c: Path, e: Ptr, e': Ptr, t: Tree)
    requires c != [] && Chain(m, s, c, e) && Sorted(Plug(c, t))
    ensures var f := c[|c| - 1];
      && f.ptr in m && m[f.ptr].key == f.key && HasKey(PathElems(c), f.key)
      && Chain(SetNext(m, f, e'), s, c, e') && ChangesWithin(m, SetNext(m, f, e'), PathElems(c))
  {
    var f := c[|c| - 1];
    SetEnd(m, s, c, e, e', t);
    ChainPrefix(m, s, c, e);
    LastApart(c, t);
    assert Elem(f.key, f.rank, f.ptr) in PathElems(c);
  }

  lemma {:induction false} WiderChange(m: Memory, m': Memory, s: set<Elem>, u: set<Elem>)
    requires ChangesWithin(m, m', s) && s <= u
    ensures ChangesWithin(m, m', u)
  {
    assert forall k :: HasKey(s, k) ==> HasKey(u, k);
  }

  lemma {:induction false} ApartAgree(m: Memory, m': Memory, s: set<Elem>, u: set<Elem>)
    requires ChangesWithin(m, m', s) && Apart(s, u)
    ensures Agree(m, m', u)
  {
    forall q <- m | HasKey(u, m[q].key) ensures !HasKey(s, m[q].key) {
      var f :| f in u && f.key == m[q].key;
      assert forall e <- s :: e.key != f.key;
    }
  }
}
