/** The node an operation works on, and the tree around it. */
module BTreeFocus {
  import opened BTree
  import opened BTreeMemory
  import opened BTreeOrder

  /** Fewest keys the node at the end of the path may have; lo is for the node the path starts at. */
  function Low(c: Path, lo: nat, min: nat): nat { if c != [] then min else lo }

  /** Fewest keys of the root. */
  function RootLow(h: nat): nat { if h > 0 then 1 else 0 }

  /** A whole tree in memory, t of height h hanging at the end of path c. */
  ghost predicate Focus(m: Memory, c: Path, t: Tree, h: nat, lo: nat, min: nat, max: nat) {
    && Holds(m, Plug(c, t)) && Distinct(Plug(c, t)) && PathOk(c, h + |c|, lo, min, max)
    && Ok(t, h, Low(c, lo, min), min, max)
  }

  predicate RootOk(t: Tree, h: nat, min: nat, max: nat) { Ok(t, h, RootLow(h), min, max) }

  lemma {:induction false} FocusStart(m: Memory, t: Tree, h: nat, lo: nat, min: nat, max: nat, v: Key)
    requires Holds(m, t) && Distinct(t) && Ok(t, h, lo, min, max)
    ensures Plug([], t) == t && Focus(m, [], t, h, lo, min, max) && Between([], v)
  {
  }

  lemma {:induction false} PlugPtr(c: Path, t: Tree, u: Tree)
    requires t.ptr == u.ptr
    ensures Plug(c, t).ptr == Plug(c, u).ptr && (c == [] ==> Plug(c, t) == t)
  {
  }

  /** A key found at the focus is in the tree; one that belongs in a leaf and is not there is nowhere. */
  lemma {:induction false} KeyAtFocus(c: Path, t: Tree, v: Key)
    requires Between(c, v) && Whole(t) && Increasing(Flat(t))
    ensures Whole(Plug(c, t)) && (v in t.keys ==> v in Flat(Plug(c, t)))
    ensures t.kids == [] && v !in t.keys ==> v !in Flat(Plug(c, t))
  {
    PlugFlat(c, t);
    KeysIncreasing(t);
  }

  lemma {:induction false} FocusRoot(m: Memory, c: Path, t: Tree, h: nat, lo: nat, min: nat, max: nat)
    requires Focus(m, c, t, h, lo, min, max)
    ensures Ok(Plug(c, t), h + |c|, lo, min, max) && Holds(m, Plug(c, t)) && Distinct(Plug(c, t))
  {
    PlugOk(c, t, h + |c|, lo, min, max);
  }

  lemma {:induction false} PathApart(c: Path, t: Tree)
    requires Distinct(Plug(c, t))
    ensures Distinct(t) && forall p <- PathNodes(c) :: p !in Nodes(t)
  {
    PlugNodes(c, t);
    forall p ensures Nodes(t)[p] <= 1 && !(p in PathNodes(c) && p in Nodes(t)) {
      assert Nodes(Plug(c, t))[p] <= 1;
    }
  }

  lemma {:induction false} PlugPart(m: Memory, c: Path, t: Tree)
    requires Holds(m, Plug(c, t))
    ensures Holds(m, t)
    decreases |c|
  {
    if c != [] {
      var u := Fill(c[0], Plug(c[1..], t));
      assert u.kids[|c[0].before|] == Plug(c[1..], t);
      PlugPart(m, c[1..], t);
    }
  }

  /** What the focus knows about its own node. */
  lemma {:induction false} AtFocus(m: Memory, c: Path, t: Tree, h: nat, lo: nat, min: nat, max: nat)
    requires Focus(m, c, t, h, lo, min, max)
    ensures Holds(m, t) && Distinct(t) && KidsAlike(t) && Whole(t)
    ensures if h == 0 then t.kids == [] else |t.kids| == |t.keys| + 1
    ensures PathWhole(c) && Whole(Plug(c, t)) && Flat(Plug(c, t)) == Left(c) + Flat(t) + Right(c)
  {
    PlugPart(m, c, t);
    PathApart(c, t);
    KidsAreAlike(t, h, min, max);
    KidsWhole(t, h, min, max);
    PathOkWhole(c, h + |c|, lo, min, max);
    PlugFlat(c, t);
  }

  /** The focused node has been replaced, with at most one new node q. */
  lemma {:induction false} Refocus(m: Memory, m': Memory, c: Path, t: Tree, u: Tree, h: nat, lo: nat, min: nat, max: nat,
                                   q: Ptr)
    requires Focus(m, c, t, h, lo, min, max) && Holds(m', u) && u.ptr == t.ptr
    requires (forall p <- m | p !in Nodes(t) && p != q :: p in m' && m'[p] == m[p])
    requires Nodes(u) <= Nodes(t) || (q !in m && Nodes(u) <= Nodes(t) + multiset{q})
    requires q in m ==> q in Nodes(t)
    requires Ok(u, h, Low(c, lo, min), min, max)
    ensures Focus(m', c, u, h, lo, min, max)
  {
    PathApart(c, t);
    PlugNodes(c, t);
    PlugNodes(c, u);
    forall p <- PathNodes(c) ensures p in m' && (p in m ==> m'[p] == m[p]) {
      InMemory(m, Plug(c, t), p);
    }
    PlugHolds(m, m', c, t, u);
    forall p ensures Nodes(Plug(c, u))[p] <= 1 {
      assert Nodes(Plug(c, t))[p] <= 1;
      if p == q && q !in m && q in Nodes(Plug(c, t)) {
        InMemory(m, Plug(c, t), q);
      }
    }
  }

  lemma {:induction false} PathOkSnoc(c: Path, f: Frame, h: nat, lo: nat, min: nat, max: nat)
    requires PathOk(c, h + |c|, lo, min, max) && FrameOk(f, h, if c == [] then lo else min, min, max)
    ensures PathOk(c + [f], h + |c|, lo, min, max)
  {
    if c == [] {
      assert (c + [f])[1..] == [];
    } else {
      assert (c + [f])[1..] == c[1..] + [f];
      PathOkSnoc(c[1..], f, h, min, min, max);
    }
  }

  /** The focus moves to child j. */
  lemma {:induction false} FocusDown(m: Memory, c: Path, t: Tree, h: nat, lo: nat, min: nat, max: nat, j: nat)
    requires Focus(m, c, t, h, lo, min, max) && h > 0 && j < |t.kids|
    ensures Plug(c + [FrameOf(t, j)], t.kids[j]) == Plug(c, t)
    ensures Focus(m, c + [FrameOf(t, j)], t.kids[j], h - 1, lo, min, max)
  {
    StepDown(c, t, j);
    KidsAt(t, h, min, max, j);
    PathOkSnoc(c, FrameOf(t, j), h, lo, min, max);
  }

  /** A node and its record. */
  lemma {:induction false} AtNode(m: Memory, t: Tree)
    requires Holds(m, t)
    ensures t.ptr != 0 && t.ptr in m && RecIs(m[t.ptr], t)
    ensures forall j | 0 <= j < |t.kids| :: Holds(m, t.kids[j]) && t.kids[j].ptr in m && RecIs(m[t.kids[j].ptr], t.kids[j])
  {
    assert forall j | 0 <= j < |t.kids| :: Holds(m, t.kids[j]) ==> t.kids[j].ptr in m && RecIs(m[t.kids[j].ptr], t.kids[j]);
  }

  /** All that a search at the focus needs to know. */
  lemma {:induction false} AtSearch(m: Memory, c: Path, t: Tree, h: nat, lo: nat, min: nat, max: nat, v: Key)
    requires Focus(m, c, t, h, lo, min, max) && Between(c, v) && Whole(Plug(c, t)) && Increasing(Flat(Plug(c, t)))
    ensures Holds(m, t) && t.ptr in m && RecIs(m[t.ptr], t) && Whole(t) && Increasing(Flat(t)) && Increasing(t.keys)
    ensures if h == 0 then t.kids == [] else |t.kids| == |t.keys| + 1
    ensures m[t.ptr].children[0] == 0 <==> t.kids == []
    ensures (v in t.keys ==> v in Flat(Plug(c, t))) && (t.kids == [] && v !in t.keys ==> v !in Flat(Plug(c, t)))
    ensures forall j | 0 <= j < |t.kids| :: t.kids[j].ptr in m && RecIs(m[t.kids[j].ptr], t.kids[j])
    ensures c == [] ==> Plug(c, t) == t
    ensures Low(c, lo, min) <= |t.keys| <= max && forall j | 0 <= j < |t.kids| :: |t.kids[j].keys| <= max
  {
    AtFocus(m, c, t, h, lo, min, max);
    forall j: nat | j < |t.kids| ensures |t.kids[j].keys| <= max {
      KidsAt(t, h, min, max, j);
    }
    AtNode(m, t);
    PartsIncreasing(Left(c), Flat(t), Right(c));
    KeysIncreasing(t);
    KeyAtFocus(c, t, v);
  }

  // ---------- putting a key in, taking one out ----------

  function KeySet(s: seq<Key>): set<Key> { set k | k in s }

  lemma {:induction false} InKeys(s: seq<Key>, k: Key)
    ensures k in KeySet(s) <==> k in s
  {
  }

  /** A leaf at the end of the path takes a key that belongs there. */
  lemma {:induction false} PutKey(c: Path, t: Tree, i: nat, v: Key)
    requires Between(c, v) && t.kids == [] && i <= |t.keys|
    requires Whole(Plug(c, t)) && Increasing(Flat(Plug(c, t)))
    requires (forall k | 0 <= k < i :: t.keys[k] < v) && (forall k | i <= k < |t.keys| :: v < t.keys[k])
    ensures var u := Node(t.ptr, t.keys[..i] + [v] + t.keys[i..], []);
      && Whole(Plug(c, u)) && Increasing(Flat(Plug(c, u)))
      && KeySet(Flat(Plug(c, u))) == KeySet(Flat(Plug(c, t))) + {v} && v !in Flat(Plug(c, t))
  {
    hide Fill;
    var u := Node(t.ptr, t.keys[..i] + [v] + t.keys[i..], []);
    PutFlat(c, t, i, v);
    var a, b := Left(c) + t.keys[..i], t.keys[i..] + Right(c);
    KeysAround(t.keys, i, v);
    Around(Left(c), t.keys[..i], t.keys[i..], Right(c), v);
    hide *;
    SpliceIn(a, v, b);
  }

  lemma {:induction false} KeysAround(keys: seq<Key>, i: nat, v: Key)
    requires i <= |keys| && (forall k | 0 <= k < i :: keys[k] < v) && (forall k | i <= k < |keys| :: v < keys[k])
    ensures AllBelow(keys[..i], v) && AllAbove(keys[i..], v)
  {
  }

  lemma {:induction false} Around(a: seq<Key>, b: seq<Key>, c: seq<Key>, d: seq<Key>, v: Key)
    requires AllBelow(a, v) && AllBelow(b, v) && AllAbove(c, v) && AllAbove(d, v)
    ensures AllBelow(a + b, v) && AllAbove(c + d, v)
  {
  }

  lemma {:induction false} PutFlat(c: Path, t: Tree, i: nat, v: Key)
    requires PathWhole(c) && t.kids == [] && i <= |t.keys|
    ensures var u := Node(t.ptr, t.keys[..i] + [v] + t.keys[i..], []);
      var a, b := Left(c) + t.keys[..i], t.keys[i..] + Right(c);
      && Whole(Plug(c, t)) && Flat(Plug(c, t)) == a + b
      && Whole(Plug(c, u)) && Flat(Plug(c, u)) == a + [v] + b
  {
    hide Right;
    var u := Node(t.ptr, t.keys[..i] + [v] + t.keys[i..], []);
    PlugFlat(c, t);
    PlugFlat(c, u);
    var x, y, l, r := t.keys[..i], t.keys[i..], Left(c), Right(c);
    assert Flat(t) == x + y && Flat(u) == x + [v] + y;
    hide *;
    assert l + (x + y) + r == (l + x) + (y + r);
    assert l + (x + [v] + y) + r == (l + x) + [v] + (y + r);
  }

  lemma {:induction false} SpliceIn(a: seq<Key>, v: Key, b: seq<Key>)
    requires Increasing(a + b) && AllBelow(a, v) && AllAbove(b, v)
    ensures Increasing(a + [v] + b) && KeySet(a + [v] + b) == KeySet(a + b) + {v} && v !in a + b
  {
    var s, u := a + b, a + [v] + b;
    assert forall k | 0 <= k < |a| :: s[k] == a[k];
    assert forall k | 0 <= k < |b| :: s[|a| + k] == b[k];
    assert forall k | 0 <= k < |u| :: u[k] == if k < |a| then s[k] else if k == |a| then v else s[k - 1];
    forall k | k in s ensures k in u {
      var i :| 0 <= i < |s| && s[i] == k;
      assert u[if i < |a| then i else i + 1] == k;
    }
    assert u[|a|] == v;
  }

  lemma {:induction false} SpliceOut(a: seq<Key>, v: Key, b: seq<Key>)
    requires Increasing(a + [v] + b)
    ensures Increasing(a + b) && KeySet(a + b) == KeySet(a + [v] + b) - {v}
  {
    PartsIncreasing(a, [v], b);
    assert AllAbove(b, v) by {
      assert forall i | 0 <= i < |b| :: [v][0] < b[i];
    }
    assert AllBelow(a, v) by {
      assert forall i | 0 <= i < |a| :: a[i] < [v][0];
    }
    var s, u := a + b, a + [v] + b;
    assert forall k | 0 <= k < |s| :: s[k] == if k < |a| then u[k] else u[k + 1];
    SpliceIn(a, v, b);
  }

  lemma {:induction false} NewNode(m: Memory, t: Tree, q: Ptr)
    requires Holds(m, t) && q !in m
    ensures q !in Nodes(t)
  {
    if q in Nodes(t) {
      InMemory(m, t, q);
    }
  }

  /** Splitting the full child i below the focus. */
  lemma {:induction false} SplitFocus(m: Memory, m': Memory, c: Path, t: Tree, h: nat, lo: nat, min: nat, max: nat, i: nat, q: Ptr)
    requires Focus(m, c, t, h, lo, min, max) && h > 0 && 0 < min && max == 2 * min + 1
    requires i < |t.kids| == |t.keys| + 1 <= max && |t.kids[i].keys| == max && q !in m
    requires t.kids[i].kids == [] || |t.kids[i].kids| == |t.kids[i].keys| + 1
    requires Holds(m', Split(t, i, min, q))
    requires forall p <- m | p != t.ptr && p != t.kids[i].ptr :: p in m' && m'[p] == m[p]
    ensures var u := Split(t, i, min, q);
      && Focus(m', c, u, h, lo, min, max) && |u.keys| == |t.keys| + 1
      && Whole(Plug(c, u)) && Whole(Plug(c, t)) && Flat(Plug(c, u)) == Flat(Plug(c, t))
      && Plug(c, u).ptr == Plug(c, t).ptr
  {
    hide RecIs;
    var u := Split(t, i, min, q);
    AtFocus(m, c, t, h, lo, min, max);
    NewNode(m, t, q);
    KidPtrs(t, i);
    SplitShape(t, h, min, max, i, q);
    hide Holds;
    hide Split;
    hide Whole;
    hide Flat;
    Refocus(m, m', c, t, u, h, lo, min, max, q);
    AtFocus(m', c, u, h, lo, min, max);
  }

  lemma {:induction false} KidPtrs(t: Tree, i: nat)
    requires i < |t.kids|
    ensures t.ptr in Nodes(t) && t.kids[i].ptr in Nodes(t)
  {
    InKid(t, i, t.kids[i].ptr);
  }

  lemma {:induction false} SplitShape(t: Tree, h: nat, min: nat, max: nat, i: nat, q: Ptr)
    requires h > 0 && 0 < min && max == 2 * min + 1 && Kids(t, h, min, max) && Whole(t)
    requires i < |t.kids| == |t.keys| + 1 && |t.kids[i].keys| == max
    requires t.kids[i].kids == [] || |t.kids[i].kids| == |t.kids[i].keys| + 1
    ensures var u := Split(t, i, min, q);
      && Kids(u, h, min, max) && |u.keys| == |t.keys| + 1 && u.ptr == t.ptr
      && Whole(u) && Flat(u) == Flat(t) && Nodes(u) == Nodes(t) + multiset{q}
  {
    KidsAt(t, h, min, max, i);
    SplitOk(t, h, min, max, i, min, q);
    SplitNodes(t, i, min, q);
    SplitFlat(t, i, min, q);
  }

  // ---------- a new root ----------

  lemma {:induction false} RootAbove(m: Memory, m': Memory, t: Tree, q: Ptr, h: nat, min: nat, max: nat)
    requires Holds(m, t) && Distinct(t) && q != 0 && q !in m && m'.Keys == m.Keys + {q}
    requires (forall p <- m :: m'[p] == m[p]) && RecOk(m'[q]) && m'[q].length == 0 && m'[q].children[0] == t.ptr
    requires RootOk(t, h, min, max) && min < |t.keys|
    ensures var u := Node(q, [], [t]);
      && Holds(m', u) && Distinct(u) && KidsAlike(u)
      && (t.kids == [] || |t.kids| == |t.keys| + 1)
  {
    var u := Node(q, [], [t]);
    forall p <- Nodes(t) ensures p in m' && p != q {
      InMemory(m, t, p);
    }
    Stays(m, m', t);
    assert u.kids[0] == t && Holds(m', u);
    assert KidNodes(u) == [Nodes(t)] && [Nodes(t)][1..] == [];
    assert All([Nodes(t)]) == Nodes(t) + All([]);
    assert Nodes(u) == multiset{q} + (Nodes(t) + multiset{});
    forall p ensures Nodes(u)[p] <= 1 {
      assert Nodes(t)[p] <= 1;
    }
  }

  lemma {:induction false} RootSplit(u: Tree, h: nat, min: nat, max: nat, q: Ptr)
    requires |u.kids| == 1 && u.keys == [] && 0 < min && max == 2 * min + 1
    requires var t := u.kids[0];
      && RootOk(t, h, min, max) && |t.keys| == max && Whole(t) && (t.kids == [] || |t.kids| == |t.keys| + 1)
    requires Distinct(u) && q !in Nodes(u)
    ensures var v := Split(u, 0, min, q);
      && RootOk(v, h + 1, min, max) && |v.keys| == 1 && Whole(v) && Flat(v) == Flat(u.kids[0]) && Distinct(v)
  {
    SplitOk(u, h + 1, min, max, 0, min, q);
    assert u.kids[0] in u.kids && Whole(u);
    SplitFlat(u, 0, min, q);
    assert Parts(u) == [Flat(u.kids[0])];
    assert Flat(u) == Flat(u.kids[0]) + [];
    SplitNodes(u, 0, min, q);
    forall p ensures Nodes(Split(u, 0, min, q))[p] <= 1 {
      assert Nodes(u)[p] <= 1;
    }
  }
}
