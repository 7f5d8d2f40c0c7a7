/**
  Zip trees as values: search order on keys, heap order on ranks.  Insertion unzips the
  subtree it displaces and deletion zips two subtrees; both orders together leave one
  possible tree for each set of keys with their ranks.
*/
module ZipTree {

  type Key = int
  type Rank = int
  /** Zero is the null pointer. */
  type Ptr = nat

  datatype Tree = Leaf | Node(ptr: Ptr, key: Key, rank: Rank, left: Tree, right: Tree)

  datatype Elem = Elem(key: Key, rank: Rank, ptr: Ptr)

  function Elems(t: Tree): set<Elem> {
    match t
    case Leaf => {}
    case Node(p, k, r, lt, rt) => Elems(lt) + {Elem(k, r, p)} + Elems(rt)
  }

  predicate Below(t: Tree, k: Key) { forall e <- Elems(t) :: e.key < k }
  predicate Above(t: Tree, k: Key) { forall e <- Elems(t) :: k < e.key }
  predicate Has(t: Tree, k: Key) { exists e :: e in Elems(t) && e.key == k }

  predicate Sorted(t: Tree) {
    match t
    case Leaf => true
    case Node(_, k, _, lt, rt) => Sorted(lt) && Sorted(rt) && Below(lt, k) && Above(rt, k)
  }

  /** A left child has a smaller rank, a right child no larger one. */
  predicate Heaped(t: Tree) {
    match t
    case Leaf => true
    case Node(_, _, r, lt, rt) =>
      Heaped(lt) && Heaped(rt) && (lt.Node? ==> lt.rank < r) && (rt.Node? ==> rt.rank <= r)
  }

  predicate Good(t: Tree) { Sorted(t) && Heaped(t) }

  // ---------- the operations ----------

  /** The parts of t below and above k. */
  function Unzip(t: Tree, k: Key): (Tree, Tree) {
    match t
    case Leaf => (Leaf, Leaf)
    case Node(p, key, r, lt, rt) =>
      if key < k then
        var u := Unzip(rt, k);
        (Node(p, key, r, lt, u.0), u.1)
      else
        var u := Unzip(lt, k);
        (u.0, Node(p, key, r, u.1, rt))
  }

  /** The search for x goes on below t. */
  predicate Descends(t: Tree, k: Key, r: Rank) { t.Node? && (r < t.rank || (r == t.rank && k > t.key)) }

  function Insert(t: Tree, p: Ptr, k: Key, r: Rank): Tree {
    if !Descends(t, k, r) then
      var u := Unzip(t, k);
      Node(p, k, r, u.0, u.1)
    else if k < t.key then t.(left := Insert(t.left, p, k, r))
    else t.(right := Insert(t.right, p, k, r))
  }

  function Zip(l: Tree, r: Tree): Tree {
    if l.Leaf? then r
    else if r.Leaf? then l
    else if l.rank >= r.rank then l.(right := Zip(l.right, r))
    else r.(left := Zip(l, r.left))
  }

  function Delete(t: Tree, k: Key): Tree {
    match t
    case Leaf => Leaf
    case Node(p, key, r, lt, rt) =>
      if k == key then Zip(lt, rt)
      else if k < key then Node(p, key, r, Delete(lt, k), rt)
      else Node(p, key, r, lt, Delete(rt, k))
  }

  // ---------- what they keep ----------

  lemma {:induction false} UnzipSorted(t: Tree, k: Key)
    requires Sorted(t) && !Has(t, k)
    ensures var u := Unzip(t, k);
      && Elems(u.0) + Elems(u.1) == Elems(t)
      && Sorted(u.0) && Sorted(u.1) && Below(u.0, k) && Above(u.1, k)
  {
    match t
    case Leaf =>
    case Node(p, key, r, lt, rt) =>
      assert Elem(key, r, p) in Elems(t);
      if key < k {
        assert forall e <- Elems(rt) :: e in Elems(t);
        UnzipSorted(rt, k);
        assert forall e <- Elems(Unzip(rt, k).0) :: e in Elems(rt);
      } else {
        assert forall e <- Elems(lt) :: e in Elems(t);
        UnzipSorted(lt, k);
        assert forall e <- Elems(Unzip(lt, k).1) :: e in Elems(lt);
      }
  }

  lemma {:induction false} UnzipHeaped(t: Tree, k: Key)
    requires Heaped(t)
    ensures var u := Unzip(t, k);
      && Heaped(u.0) && Heaped(u.1)
      && (u.0.Node? ==> t.Node? && u.0.rank <= t.rank) && (u.1.Node? ==> t.Node? && u.1.rank <= t.rank)
      && (t.Node? && k <= t.key && u.0.Node? ==> u.0.rank < t.rank)
  {
    match t
    case Leaf =>
    case Node(_, key, _, lt, rt) =>
      if key < k {
        UnzipHeaped(rt, k);
      } else {
        UnzipHeaped(lt, k);
      }
  }

  lemma {:induction false} InsertSorted(t: Tree, p: Ptr, k: Key, r: Rank)
    requires Sorted(t) && !Has(t, k)
    ensures var t' := Insert(t, p, k, r);
      Sorted(t') && Elems(t') == Elems(t) + {Elem(k, r, p)}
  {
    if !Descends(t, k, r) {
      UnzipSorted(t, k);
    } else {
      assert Elem(t.key, t.rank, t.ptr) in Elems(t);
      assert forall e | e in Elems(t.left) || e in Elems(t.right) :: e in Elems(t);
      if k < t.key {
        InsertSorted(t.left, p, k, r);
      } else {
        InsertSorted(t.right, p, k, r);
      }
    }
  }

  lemma {:induction false} InsertHeaped(t: Tree, p: Ptr, k: Key, r: Rank)
    requires Heaped(t) && !Has(t, k)
    ensures var t' := Insert(t, p, k, r);
      Heaped(t') && t'.Node? && t'.rank == if t.Node? && t.rank > r then t.rank else r
  {
    if !Descends(t, k, r) {
      UnzipHeaped(t, k);
      assert t.Node? ==> Elem(t.key, t.rank, t.ptr) in Elems(t);
    } else {
      assert forall e | e in Elems(t.left) || e in Elems(t.right) :: e in Elems(t);
      if k < t.key {
        InsertHeaped(t.left, p, k, r);
      } else {
        assert Elem(t.key, t.rank, t.ptr) in Elems(t);
        InsertHeaped(t.right, p, k, r);
      }
    }
  }

  /** Every key of l comes before every key of r. */
  predicate Before(l: Tree, r: Tree) { forall e, f | e in Elems(l) && f in Elems(r) :: e.key < f.key }

  lemma {:induction false} ZipSorted(l: Tree, r: Tree)
    requires Sorted(l) && Sorted(r) && Before(l, r)
    ensures Sorted(Zip(l, r)) && Elems(Zip(l, r)) == Elems(l) + Elems(r)
    decreases l, r
  {
    if l.Node? && r.Node? {
      assert Elem(l.key, l.rank, l.ptr) in Elems(l) && Elem(r.key, r.rank, r.ptr) in Elems(r);
      if l.rank >= r.rank {
        ZipSorted(l.right, r);
      } else {
        ZipSorted(l, r.left);
      }
    }
  }

  lemma {:induction false} ZipHeaped(l: Tree, r: Tree, bound: Rank)
    requires Heaped(l) && Heaped(r) && (l.Node? ==> l.rank <= bound) && (r.Node? ==> r.rank <= bound)
    ensures Heaped(Zip(l, r)) && (Zip(l, r).Node? ==> Zip(l, r).rank <= bound)
    decreases l, r
  {
    if l.Node? && r.Node? {
      if l.rank >= r.rank {
        ZipHeaped(l.right, r, l.rank);
      } else {
        ZipHeaped(l, r.left, r.rank - 1);
      }
    }
  }

  lemma {:induction false} DeleteSorted(t: Tree, k: Key)
    requires Sorted(t)
    ensures Sorted(Delete(t, k))
    ensures forall e :: e in Elems(Delete(t, k)) <==> e in Elems(t) && e.key != k
  {
    if t.Node? {
      if k == t.key {
        ZipSorted(t.left, t.right);
      } else if k < t.key {
        DeleteSorted(t.left, k);
      } else {
        DeleteSorted(t.right, k);
      }
    }
  }

  lemma {:induction false} DeleteHeaped(t: Tree, k: Key)
    requires Heaped(t)
    ensures Heaped(Delete(t, k)) && (Delete(t, k).Node? ==> t.Node? && Delete(t, k).rank <= t.rank)
  {
    if t.Node? {
      if k == t.key {
        ZipHeaped(t.left, t.right, t.rank);
      } else if k < t.key {
        DeleteHeaped(t.left, k);
      } else {
        DeleteHeaped(t.right, k);
      }
    }
  }

  // ---------- one tree for each set of elements ----------

  /** The root has the largest rank, and of those the smallest key. */
  lemma {:induction false} RootFirst(t: Tree, e: Elem)
    requires Good(t) && e in Elems(t)
    ensures e.rank <= t.rank && (e.rank == t.rank ==> t.key <= e.key)
  {
    if e in Elems(t.left) {
      RootFirst(t.left, e);
    } else if e in Elems(t.right) {
      RootFirst(t.right, e);
    }
  }

  /** The shape is canonical: search order and heap order determine the tree. */
  lemma {:induction false} Canonical(t: Tree, u: Tree)
    requires Good(t) && Good(u) && Elems(t) == Elems(u)
    ensures t == u
  {
    if t.Node? {
      assert Elem(t.key, t.rank, t.ptr) in Elems(t);
    }
    if u.Node? {
      assert Elem(u.key, u.rank, u.ptr) in Elems(u);
    }
    if t.Node? && u.Node? {
      var e, f := Elem(t.key, t.rank, t.ptr), Elem(u.key, u.rank, u.ptr);
      RootFirst(t, f);
      RootFirst(u, e);
      KeyOnce(t, e, f);
      ElemsSplit(t);
      ElemsSplit(u);
      Canonical(t.left, u.left);
      Canonical(t.right, u.right);
    }
  }

  lemma {:induction false} KeyOnce(t: Tree, e: Elem, f: Elem)
    requires Sorted(t) && e in Elems(t) && f in Elems(t) && e.key == f.key
    ensures e == f
  {
    if e in Elems(t.left) && f in Elems(t.left) {
      KeyOnce(t.left, e, f);
    } else if e in Elems(t.right) && f in Elems(t.right) {
      KeyOnce(t.right, e, f);
    }
  }

  lemma {:induction false} ElemsSplit(t: Tree)
    requires Sorted(t) && t.Node?
    ensures Elems(t.left) == set e | e in Elems(t) && e.key < t.key
    ensures Elems(t.right) == set e | e in Elems(t) && e.key > t.key
  {
  }

  /** Inserting an absent key and deleting it again restores the very same tree. */
  lemma {:induction false} DeleteUndoesInsert(t: Tree, p: Ptr, k: Key, r: Rank)
    requires Good(t) && !Has(t, k)
    ensures Delete(Insert(t, p, k, r), k) == t
  {
    var t' := Insert(t, p, k, r);
    InsertSorted(t, p, k, r);
    InsertHeaped(t, p, k, r);
    DeleteSorted(t', k);
    DeleteHeaped(t', k);
    assert Elems(Delete(t', k)) == Elems(t);
    Canonical(Delete(t', k), t);
  }

  /** The order of insertions does not show. */
  lemma {:induction false} InsertsCommute(t: Tree, x: Elem, y: Elem)
    requires Good(t) && !Has(t, x.key) && !Has(t, y.key) && x.key != y.key
    ensures Insert(Insert(t, x.ptr, x.key, x.rank), y.ptr, y.key, y.rank)
            == Insert(Insert(t, y.ptr, y.key, y.rank), x.ptr, x.key, x.rank)
  {
    hide Elems, Sorted, Unzip, Heaped, Below;
    var tx, ty := Insert(t, x.ptr, x.key, x.rank), Insert(t, y.ptr, y.key, y.rank);
    InsertSorted(t, x.ptr, x.key, x.rank);
    InsertHeaped(t, x.ptr, x.key, x.rank);
    InsertSorted(t, y.ptr, y.key, y.rank);
    InsertHeaped(t, y.ptr, y.key, y.rank);
    InsertSorted(tx, y.ptr, y.key, y.rank);
    InsertHeaped(tx, y.ptr, y.key, y.rank);
    InsertSorted(ty, x.ptr, x.key, x.rank);
    InsertHeaped(ty, x.ptr, x.key, x.rank);
    assert x == Elem(x.key, x.rank, x.ptr) && y == Elem(y.key, y.rank, y.ptr);
    Canonical(Insert(tx, y.ptr, y.key, y.rank), Insert(ty, x.ptr, x.key, x.rank));
  }

  function InsertAll(t: Tree, xs: seq<Elem>): Tree {
    if xs == [] then t
    else
      var n := |xs| - 1;
      Insert(InsertAll(t, xs[..n]), xs[n].ptr, xs[n].key, xs[n].rank)
  }

  predicate DistinctKeys(xs: seq<Elem>) { forall i, j | 0 <= i < j < |xs| :: xs[i].key != xs[j].key }

  lemma {:induction false} InsertAllGood(xs: seq<Elem>)
    requires DistinctKeys(xs)
    ensures Good(InsertAll(Leaf, xs)) && forall e :: e in Elems(InsertAll(Leaf, xs)) <==> e in xs
  {
    if xs != [] {
      var n := |xs| - 1;
      var t := InsertAll(Leaf, xs[..n]);
      InsertAllGood(xs[..n]);
      assert !Has(t, xs[n].key);
      InsertSorted(t, xs[n].ptr, xs[n].key, xs[n].rank);
      InsertHeaped(t, xs[n].ptr, xs[n].key, xs[n].rank);
      assert xs[n] == Elem(xs[n].key, xs[n].rank, xs[n].ptr);
      assert xs == xs[..n] + [xs[n]];
    }
  }

  /** Any order of insertion of the same elements builds the same tree. */
  lemma {:induction false} AnyOrder(xs: seq<Elem>, ys: seq<Elem>)
    requires DistinctKeys(xs) && DistinctKeys(ys) && (forall e :: e in xs <==> e in ys)
    ensures InsertAll(Leaf, xs) == InsertAll(Leaf, ys)
  {
    InsertAllGood(xs);
    InsertAllGood(ys);
    assert forall e :: e in Elems(InsertAll(Leaf, xs)) <==> e in Elems(InsertAll(Leaf, ys));
    Canonical(InsertAll(Leaf, xs), InsertAll(Leaf, ys));
  }
}
