/** What the steps of a removal do to the tree around the focus. */
module BTreeRemoval {
  import opened BTree
  import opened BTreeMemory
  import opened BTreeNodes
  import opened BTreeOrder
  import opened BTreeFocus

  lemma {:induction false} FewerNodes(c: Path, t: Tree, u: Tree)
    requires Nodes(u) <= Nodes(t)
    ensures Nodes(Plug(c, u)) <= Nodes(Plug(c, t))
  {
    PlugNodes(c, t);
    PlugNodes(c, u);
  }

  /** ensureChildRemove at the focus: the child has a key to spare, all keys are where they were. */
  lemma {:induction false} EnsureFocus(m: Memory, m': Memory, c: Path, t: Tree, h: nat, lo: nat, min: nat, max: nat,
                                       i: nat, u: Tree, j: nat)
    requires Focus(m, c, t, h, lo, min, max) && h > 0 && 0 < min && max == 2 * min + 1
    requires i < |t.kids| == |t.keys| + 1 && |t.keys| > 0 && KidsAlike(t) && (u, j) == Ensure(t, i, min)
    requires Holds(m', u) && (forall r <- m | r !in Nodes(t) :: r in m' && m'[r] == m[r]) && m'.Keys <= m.Keys
    requires Low(c, lo, min) <= |u.keys|
    ensures Focus(m', c, u, h, lo, min, max) && u.ptr == t.ptr && j < |u.kids| && min < |u.kids[j].keys|
    ensures (i == 0 ==> j == 0) && (i == |t.keys| ==> j == |u.keys|)
    ensures Whole(u) && Whole(t) && Flat(u) == Flat(t) && Nodes(u) <= Nodes(t)
  {
    AtFocus(m, c, t, h, lo, min, max);
    EnsureKeeps(t, i, h, min, max);
    assert t.ptr in Nodes(t);
    hide Holds;
    hide Distinct;
    hide Whole;
    hide Flat;
    hide Ensure;
    Refocus(m, m', c, t, u, h, lo, min, max, t.ptr);
  }

  /** The same tree read through the new focus. */
  lemma {:induction false} SameReading(c: Path, t: Tree, u: Tree)
    requires PathWhole(c) && Whole(t) && Whole(u) && Flat(u) == Flat(t)
    ensures Whole(Plug(c, t)) && Whole(Plug(c, u)) && Flat(Plug(c, u)) == Flat(Plug(c, t))
  {
    PlugFlat(c, t);
    PlugFlat(c, u);
  }

  // ---------- the first and the last key of a subtree ----------

  /** A walk down the left edge, or the right one, from a node that had a key to spare. */
  ghost predicate EdgeWalk(m: Memory, c: Path, t: Tree, h: nat, min: nat, max: nat, t0: Tree, h0: nat, leftmost: bool) {
    && Focus(m, c, t, h, min, min, max) && min < |t.keys| && h + |c| == h0
    && Whole(Plug(c, t)) && Whole(t0) && Flat(Plug(c, t)) == Flat(t0) && Nodes(Plug(c, t)) <= Nodes(t0)
    && Plug(c, t).ptr == t0.ptr && PathWhole(c) && (if leftmost then Left(c) == [] else Right(c) == [])
  }

  lemma {:induction false} EdgeEnsure(m: Memory, m': Memory, c: Path, t: Tree, h: nat, min: nat, max: nat, t0: Tree,
                                      h0: nat, leftmost: bool, i: nat, u: Tree, j: nat)
    requires EdgeWalk(m, c, t, h, min, max, t0, h0, leftmost) && h > 0 && 0 < min && max == 2 * min + 1
    requires i == (if leftmost then 0 else |t.keys|) && i < |t.kids| == |t.keys| + 1
    requires KidsAlike(t) && (u, j) == Ensure(t, i, min) && m'.Keys <= m.Keys
    requires Holds(m', u) && forall r <- m | r !in Nodes(t) :: r in m' && m'[r] == m[r]
    ensures j == (if leftmost then 0 else |u.keys|) && j < |u.kids|
    ensures EdgeWalk(m', c + [FrameOf(u, j)], u.kids[j], h - 1, min, max, t0, h0, leftmost)
  {
    KidsFrom(m, c, t, h, min, min, max);
    EnsureKeeps(t, i, h, min, max);
    EnsureFocus(m, m', c, t, h, min, min, max, i, u, j);
    SameReading(c, t, u);
    FewerNodes(c, t, u);
    PlugPtr(c, t, u);
    KeepDown(m', c, u, h, min, max, t0, h0, leftmost, j);
  }

  lemma {:induction false} KidsFrom(m: Memory, c: Path, t: Tree, h: nat, lo: nat, min: nat, max: nat)
    requires Focus(m, c, t, h, lo, min, max)
    ensures Kids(t, h, min, max) && Distinct(t) && Holds(m, t) && |t.keys| <= max
  {
    AtFocus(m, c, t, h, lo, min, max);
  }

  /** EdgeDown for a node that may have spent its spare key. */
  lemma {:induction false} KeepDown(m: Memory, c: Path, u: Tree, h: nat, min: nat, max: nat, t0: Tree, h0: nat,
                                    leftmost: bool, j: nat)
    requires Focus(m, c, u, h, min, min, max) && h > 0 && h + |c| == h0
    requires Whole(Plug(c, u)) && Whole(t0) && Flat(Plug(c, u)) == Flat(t0) && Nodes(Plug(c, u)) <= Nodes(t0)
    requires Plug(c, u).ptr == t0.ptr && PathWhole(c) && (if leftmost then Left(c) == [] else Right(c) == [])
    requires j == (if leftmost then 0 else |u.keys|) && j < |u.kids| && min < |u.kids[j].keys|
    ensures EdgeWalk(m, c + [FrameOf(u, j)], u.kids[j], h - 1, min, max, t0, h0, leftmost)
  {
    hide RecIs, Pre, Holds;
    AtFocus(m, c, u, h, min, min, max);
    FocusDown(m, c, u, h, min, min, max, j);
    FrameIs(u, j);
    SidesSnoc(c, FrameOf(u, j));
    hide Focus, Whole, Flat, FrameOf;
    AtFocus(m, c + [FrameOf(u, j)], u.kids[j], h - 1, min, min, max);
  }

  function WithoutEdge(t: Tree, leftmost: bool): Tree
    requires |t.keys| > 0
  {
    Node(t.ptr, if leftmost then t.keys[1..] else t.keys[..|t.keys| - 1], [])
  }

  function Edge(t: Tree, leftmost: bool): Key
    requires |t.keys| > 0
  {
    if leftmost then t.keys[0] else t.keys[|t.keys| - 1]
  }

  /** The walk ends in a leaf, which gives up its first or last key. */
  lemma {:induction false} EdgeTake(m: Memory, m': Memory, c: Path, t: Tree, min: nat, max: nat, t0: Tree, h0: nat,
                                    leftmost: bool)
    requires EdgeWalk(m, c, t, 0, min, max, t0, h0, leftmost) && m'.Keys <= m.Keys
    requires Holds(m', WithoutEdge(t, leftmost))
    requires forall r <- m | r !in Nodes(t) :: r in m' && m'[r] == m[r]
    ensures var u := Plug(c, WithoutEdge(t, leftmost));
      && Holds(m', u) && Ok(u, h0, min, min, max) && Whole(u) && u.ptr == t0.ptr && Nodes(u) <= Nodes(t0)
      && Flat(t0) == (if leftmost then [Edge(t, leftmost)] + Flat(u) else Flat(u) + [Edge(t, leftmost)])
  {
    hide Post;
    var v := WithoutEdge(t, leftmost);
    EdgeFlat(c, t, leftmost);
    hide Flat;
    hide Whole;
    hide Distinct;
    assert t.kids == [];
    assert KidNodes(v) == KidNodes(t) && t.ptr in Nodes(t);
    Refocus(m, m', c, t, v, 0, min, min, max, t.ptr);
    FocusRoot(m', c, v, 0, min, min, max);
    PlugPtr(c, t, v);
    FewerNodes(c, t, v);
  }

  lemma {:induction false} EdgeFlat(c: Path, t: Tree, leftmost: bool)
    requires PathWhole(c) && t.kids == [] && |t.keys| > 0 && (if leftmost then Left(c) == [] else Right(c) == [])
    ensures var u, k := Plug(c, WithoutEdge(t, leftmost)), [Edge(t, leftmost)];
      && Whole(Plug(c, t)) && Whole(u)
      && Flat(Plug(c, t)) == (if leftmost then k + Flat(u) else Flat(u) + k)
  {
    var v := WithoutEdge(t, leftmost);
    PlugFlat(c, t);
    PlugFlat(c, v);
    if leftmost {
      FirstOff(t.keys, Right(c));
    } else {
      LastOff(Left(c), t.keys);
    }
  }

  lemma {:induction false} FirstOff(s: seq<Key>, r: seq<Key>)
    requires |s| > 0
    ensures [] + s + r == [s[0]] + ([] + s[1..] + r)
  {
  }

  lemma {:induction false} LastOff(l: seq<Key>, s: seq<Key>)
    requires |s| > 0
    ensures l + s + [] == (l + s[..|s| - 1] + []) + [s[|s| - 1]]
  {
  }

  lemma {:induction false} EdgeStart(m: Memory, t: Tree, h: nat, min: nat, max: nat, leftmost: bool)
    requires Holds(m, t) && Distinct(t) && Kids(t, h, min, max) && min < |t.keys| <= max
    ensures EdgeWalk(m, [], t, h, min, max, t, h, leftmost)
  {
    KidsWhole(t, h, min, max);
  }

  /** What a step of the walk needs to know about its node. */
  lemma {:induction false} AtEdge(m: Memory, c: Path, t: Tree, h: nat, min: nat, max: nat, t0: Tree, h0: nat,
                                  leftmost: bool)
    requires EdgeWalk(m, c, t, h, min, max, t0, h0, leftmost)
    ensures Holds(m, t) && Distinct(t) && Kids(t, h, min, max) && KidsAlike(t)
    ensures t.ptr in m && RecIs(m[t.ptr], t) && (m[t.ptr].children[0] == 0 <==> t.kids == [])
    ensures if h == 0 then t.kids == [] else |t.kids| == |t.keys| + 1
    ensures forall p <- Nodes(t) :: p in Nodes(t0)
  {
    AtFocus(m, c, t, h, min, min, max);
    AtNode(m, t);
    LeafBySlot(m, t);
    PlugNodes(c, t);
  }

  lemma {:induction false} EdgeSpare(m: Memory, c: Path, t: Tree, h: nat, min: nat, max: nat, t0: Tree, h0: nat,
                                     leftmost: bool)
    requires EdgeWalk(m, c, t, h, min, max, t0, h0, leftmost)
    ensures min < |t.keys|
  {
  }

  /** A leaf after a store to its slots. */
  lemma {:induction false} LeafHolds(m: Memory, m': Memory, t: Tree, u: Tree)
    requires Holds(m, t) && t.ptr == u.ptr && u.kids == [] && t.ptr in m' && RecIs(m'[t.ptr], u)
    ensures Holds(m', u)
  {
  }

  // ---------- replacing a key by its neighbour ----------

  /** Key i and the child next to it on one side have new values. */
  function Swap(t: Tree, i: nat, k: Key, j: nat, u: Tree): Tree
    requires i < |t.keys| && j < |t.kids|
  {
    Node(t.ptr, t.keys[i := k], t.kids[j := u])
  }

  lemma {:induction false} SwapNodes(t: Tree, i: nat, k: Key, j: nat, u: Tree)
    requires i < |t.keys| && j < |t.kids| && Nodes(u) <= Nodes(t.kids[j])
    ensures Nodes(Swap(t, i, k, j, u)) <= Nodes(t)
  {
    OtherKid(t, Swap(t, i, k, j, u), j, u);
    AllReplace(KidNodes(t), j, Nodes(u));
  }

  lemma {:induction false} OtherKid(t: Tree, v: Tree, j: nat, u: Tree)
    requires j < |t.kids| && v.kids == t.kids[j := u]
    ensures KidNodes(v) == KidNodes(t)[j := Nodes(u)]
  {
    hide Nodes;
    forall i | 0 <= i < |t.kids| ensures KidNodes(v)[i] == KidNodes(t)[j := Nodes(u)][i] {
      assert v.kids[i] == if i == j then u else t.kids[i];
    }
  }

  lemma {:induction false} AllReplace(ms: seq<multiset<Ptr>>, j: nat, x: multiset<Ptr>)
    requires j < |ms| && x <= ms[j]
    ensures All(ms[j := x]) <= All(ms)
  {
    AllAt(ms, j);
    AllAt(ms[j := x], j);
    assert ms[j := x][..j] == ms[..j] && ms[j := x][j + 1..] == ms[j + 1..];
  }

  lemma {:induction false} SwapShape(t: Tree, h: nat, min: nat, max: nat, i: nat, k: Key, j: nat, u: Tree)
    requires h > 0 && Kids(t, h, min, max) && i < |t.keys| && j < |t.kids| && Ok(u, h - 1, min, min, max)
    ensures Kids(Swap(t, i, k, j, u), h, min, max)
  {
  }

  /** Key i gives way to the last key of child i. */
  lemma {:induction false} SwapLeft(t: Tree, i: nat, k: Key, u: Tree) returns (a: seq<Key>, b: seq<Key>)
    requires Whole(t) && i < |t.keys| && t.kids != [] && Whole(u) && Whole(t.kids[i])
    requires Flat(t.kids[i]) == Flat(u) + [k]
    ensures Whole(Swap(t, i, k, i, u)) && Flat(t) == a + [t.keys[i]] + b && Flat(Swap(t, i, k, i, u)) == a + b
  {
    var v := Swap(t, i, k, i, u);
    var ps, qs := Parts(t), Parts(v);
    WeaveAt(t.keys, ps, i);
    WeaveAt(v.keys, qs, i);
    PreSame(t.keys, ps, v.keys, qs, i);
    PostSame(t.keys, ps, v.keys, qs, i + 1, i + 1);
    var p, rest := Pre(t.keys, ps, i), ps[i + 1] + Post(t.keys, ps, i + 1);
    a, b := p + Flat(t.kids[i]), rest;
    assert Post(t.keys, ps, i) == [t.keys[i]] + rest;
    assert Post(v.keys, qs, i) == [k] + rest;
    assert a + b == p + Flat(u) + ([k] + rest);
  }

  /** Key i gives way to the first key of child i + 1. */
  lemma {:induction false} SwapRight(t: Tree, i: nat, k: Key, u: Tree) returns (a: seq<Key>, b: seq<Key>)
    requires Whole(t) && i < |t.keys| && t.kids != [] && Whole(u) && Whole(t.kids[i + 1])
    requires Flat(t.kids[i + 1]) == [k] + Flat(u)
    ensures Whole(Swap(t, i, k, i + 1, u)) && Flat(t) == a + [t.keys[i]] + b && Flat(Swap(t, i, k, i + 1, u)) == a + b
  {
    hide Pre, Alike, All;
    var v := Swap(t, i, k, i + 1, u);
    var ps, qs := Parts(t), Parts(v);
    WeaveAt(t.keys, ps, i);
    WeaveAt(v.keys, qs, i);
    PreSame(t.keys, ps, v.keys, qs, i);
    PostSame(t.keys, ps, v.keys, qs, i + 1, i + 1);
    var p, q := Pre(t.keys, ps, i) + ps[i], Post(t.keys, ps, i + 1);
    a, b := p, Flat(t.kids[i + 1]) + q;
    assert Post(t.keys, ps, i) == [t.keys[i]] + ps[i + 1] + q;
    assert Post(v.keys, qs, i) == [k] + Flat(u) + q;
    assert Flat(t) == p + ([t.keys[i]] + ps[i + 1] + q) && Flat(v) == p + ([k] + Flat(u) + q);
    hide *;
    assert p + ([t.keys[i]] + ps[i + 1] + q) == p + [t.keys[i]] + (ps[i + 1] + q);
    assert p + ([k] + Flat(u) + q) == p + (([k] + Flat(u)) + q);
  }

  /** One key less at the focus is one key less in the set. */
  lemma {:induction false} CutAtFocus(c: Path, t: Tree, v: Tree, a: seq<Key>, k: Key, b: seq<Key>)
    requires PathWhole(c) && Whole(t) && Whole(v) && Flat(t) == a + [k] + b && Flat(v) == a + b
    requires Whole(Plug(c, t)) && Increasing(Flat(Plug(c, t)))
    ensures Whole(Plug(c, v)) && Increasing(Flat(Plug(c, v)))
    ensures k in Flat(Plug(c, t)) && KeySet(Flat(Plug(c, v))) == KeySet(Flat(Plug(c, t))) - {k}
  {
    hide Post, Fill, Weave, FrameParts;
    PlugFlat(c, t);
    PlugFlat(c, v);
    hide Whole, Flat, Plug, Left, Right, PathWhole, KeySet, Increasing;
    var l, r := Left(c) + a, b + Right(c);
    assert Left(c) + (a + [k] + b) + Right(c) == l + [k] + r;
    assert Left(c) + (a + b) + Right(c) == l + r;
    SpliceOut(l, k, r);
    assert (l + [k] + r)[|l|] == k;
  }

  /** The node at the focus and one of its subtrees have changed. */
  lemma {:induction false} SwapHolds(m: Memory, m1: Memory, m2: Memory, t: Tree, i: nat, k: Key, j: nat, u: Tree)
    requires Holds(m, t) && Distinct(t) && i < |t.keys| && j < |t.kids| == |t.keys| + 1
    requires Holds(m1, u) && u.ptr == t.kids[j].ptr && Nodes(u) <= Nodes(t.kids[j])
    requires forall r <- m | r !in Nodes(t.kids[j]) :: r in m1 && m1[r] == m[r]
    requires t.ptr in m1 && RecIs(m[t.ptr], t) && m2 == m1[t.ptr := m[t.ptr].(keys := m[t.ptr].keys[i := k])]
    ensures Holds(m2, Swap(t, i, k, j, u))
  {
    hide Nodes;
    var v := Swap(t, i, k, j, u);
    DistinctKids(t, j);
    NewKeyKid(m[t.ptr], t, i, k, j, u);
    forall x | 0 <= x < |v.kids| ensures Holds(m2, v.kids[x]) {
      if x == j {
        forall p <- Nodes(u) ensures p in m1 && p != t.ptr {
          InMemory(m1, u, p);
        }
        Stays(m1, m2, u);
      } else {
        DistinctKids(t, x);
        forall p <- Nodes(t.kids[x]) ensures p in m2 && (p in m ==> m2[p] == m[p]) {
          InMemory(m, t.kids[x], p);
        }
        Stays(m, m2, t.kids[x]);
      }
    }
  }

  lemma {:induction false} NewKeyKid(r: Rec, t: Tree, i: nat, k: Key, j: nat, u: Tree)
    requires RecIs(r, t) && i < |t.keys| && j < |t.kids| && u.ptr == t.kids[j].ptr
    ensures RecIs(r.(keys := r.keys[i := k]), Swap(t, i, k, j, u))
  {
    assert forall x | 0 <= x < |t.keys| :: r.keys[x] == t.keys[x];
  }

  lemma {:induction false} SubtreeFacts(m: Memory, c: Path, t: Tree, h: nat, lo: nat, min: nat, max: nat, j: nat)
    requires Focus(m, c, t, h, lo, min, max) && h > 0 && j < |t.kids|
    ensures Holds(m, t) && Distinct(t) && Kids(t, h, min, max) && Whole(t) && PathWhole(c) && KidsAlike(t)
    ensures t.ptr in m && RecIs(m[t.ptr], t) && |t.kids| == |t.keys| + 1 && t.kids != []
    ensures Holds(m, t.kids[j]) && Distinct(t.kids[j]) && Kids(t.kids[j], h - 1, min, max) && Whole(t.kids[j])
    ensures |t.kids[j].keys| <= max && t.ptr !in Nodes(t.kids[j]) && forall p <- Nodes(t.kids[j]) :: p in Nodes(t)
    ensures Low(c, lo, min) <= |t.keys| <= max
  {
    hide Flat;
    AtFocus(m, c, t, h, lo, min, max);
    AtNode(m, t);
    DistinctKids(t, j);
    KidsAt(t, h, min, max, j);
    KidsWhole(t.kids[j], h - 1, min, max);
    forall p <- Nodes(t.kids[j]) ensures p in Nodes(t) {
      InKid(t, j, p);
    }
  }

  lemma {:induction false} SwapFocus(m: Memory, m1: Memory, m2: Memory, c: Path, t: Tree, h: nat, lo: nat, min: nat,
                                     max: nat, i: nat, k: Key, j: nat, u: Tree)
    requires Focus(m, c, t, h, lo, min, max) && h > 0 && i < |t.keys| && j < |t.kids|
    requires Ok(u, h - 1, min, min, max) && Nodes(u) <= Nodes(t.kids[j]) && t.ptr in m1
    requires m1.Keys <= m.Keys && forall r <- m | r !in Nodes(t.kids[j]) :: r in m1 && m1[r] == m[r]
    requires m2.Keys == m1.Keys && (forall r <- m1 | r != t.ptr :: m2[r] == m1[r]) && Holds(m2, Swap(t, i, k, j, u))
    ensures Focus(m2, c, Swap(t, i, k, j, u), h, lo, min, max)
  {
    var v := Swap(t, i, k, j, u);
    SubtreeFacts(m, c, t, h, lo, min, max, j);
    SwapNodes(t, i, k, j, u);
    SwapShape(t, h, min, max, i, k, j, u);
    assert t.ptr in Nodes(t);
    hide Holds;
    hide Distinct;
    Refocus(m, m2, c, t, v, h, lo, min, max, t.ptr);
  }

  // ---------- a root without keys ----------

  /** A root left with one child and no key gives way to that child. */
  lemma {:induction false} Collapse(m: Memory, u: Tree, h: nat, min: nat, max: nat)
    requires Holds(m, u) && Distinct(u) && Kids(u, h, min, max) && h > 0 && u.keys == [] && Whole(u)
    ensures |u.kids| == 1
    ensures var w := u.kids[0];
      && Holds(m - {u.ptr}, w) && Distinct(w) && Ok(w, h - 1, min, min, max) && Whole(w) && Flat(w) == Flat(u)
  {
    var w := u.kids[0];
    KidsAt(u, h, min, max, 0);
    DistinctKids(u, 0);
    forall p <- Nodes(w) ensures p in m - {u.ptr} {
      InMemory(m, w, p);
    }
    Stays(m, m - {u.ptr}, w);
    assert Parts(u) == [Flat(w)];
    assert Flat(u) == Flat(w) + [];
  }

  lemma {:induction false} NotRoot(c: Path, t: Tree)
    requires Distinct(Plug(c, t))
    ensures t.ptr == Plug(c, t).ptr <==> c == []
  {
    PathApart(c, t);
    if c != [] {
      assert c[0].ptr in FrameNodes(c[0]) && c[0].ptr in PathNodes(c);
      assert t.ptr in Nodes(t);
    }
  }

  // ---------- where the key belongs afterwards ----------

  /** v belongs into child j of t. */
  predicate Belongs(t: Tree, j: nat, v: Key) {
    && j <= |t.keys|
    && (forall k | 0 <= k < j :: t.keys[k] < v) && (forall k | j <= k < |t.keys| :: v < t.keys[k])
  }

  lemma {:induction false} KidBetweenKeys(t: Tree, j: nat, x: Key)
    requires Whole(t) && Increasing(Flat(t)) && j < |t.kids| == |t.keys| + 1 && Whole(t.kids[j]) && x in Flat(t.kids[j])
    ensures (j > 0 ==> t.keys[j - 1] < x) && (j < |t.keys| ==> x < t.keys[j])
  {
    var ps := Parts(t);
    WeaveAt(t.keys, ps, j);
    PartBounds(t.keys, ps, j);
    PartsIncreasing(Pre(t.keys, ps, j), ps[j], Post(t.keys, ps, j));
    assert ps[j] == Flat(t.kids[j]);
  }

  lemma {:induction false} FirstLastKey(t: Tree)
    requires Whole(t) && Increasing(Flat(t)) && |t.keys| > 0
    ensures t.keys[0] in Flat(t) && t.keys[|t.keys| - 1] in Flat(t)
  {
    KeysIncreasing(t);
  }

  lemma {:induction false} KidIncreasing(t: Tree, j: nat)
    requires Whole(t) && Increasing(Flat(t)) && j < |t.kids| == |t.keys| + 1
    ensures Whole(t.kids[j]) && Increasing(Flat(t.kids[j]))
  {
    var ps := Parts(t);
    WeaveAt(t.keys, ps, j);
    PartsIncreasing(Pre(t.keys, ps, j), ps[j], Post(t.keys, ps, j));
  }

  lemma {:induction false} SortedBelongs(t: Tree, j: nat, v: Key)
    requires Increasing(t.keys) && j <= |t.keys| && (j > 0 ==> t.keys[j - 1] < v) && (j < |t.keys| ==> v < t.keys[j])
    ensures Belongs(t, j, v)
  {
  }

  /** ensureChildRemove does not move the key being looked for out of the child. */
  lemma {:induction false} EnsureBelongs(t: Tree, i: nat, h: nat, min: nat, max: nat, v: Key)
    requires h > 0 && Kids(t, h, min, max) && Distinct(t) && |t.kids| == |t.keys| + 1 && |t.keys| > 0
    requires 0 < min && max == 2 * min + 1 && i < |t.kids| && Belongs(t, i, v)
    requires Whole(t) && Increasing(Flat(t))
    ensures KidsAlike(t)
    ensures var (u, j) := Ensure(t, i, min); Belongs(u, j, v)
  {
    hide Split;
    EnsureKeeps(t, i, h, min, max);
    var (u, j) := Ensure(t, i, min);
    KeysIncreasing(u);
    KidsAt(t, h, min, max, i);
    assert i > 0 ==> Alike(t.kids[i - 1], t.kids[i - 1 + 1]);
    assert i < |t.keys| ==> Alike(t.kids[i], t.kids[i + 1]);
    if |t.kids[i].keys| <= min {
      KidsSize(u, h, min, max);
      KidIncreasing(u, j);
      FirstLastKey(u.kids[j]);
      if i > 0 && |t.kids[i - 1].keys| > min {
        StealLeftIs(t, i);
        KidBetweenKeys(u, i, t.keys[i - 1]);
        SortedBelongs(u, j, v);
      } else if i < |t.keys| && |t.kids[i + 1].keys| > min {
        StealRightIs(t, i);
        KidBetweenKeys(u, i, t.keys[i]);
        SortedBelongs(u, j, v);
      } else {
        MergeBelongs(t, i, v);
      }
    }
  }

  lemma {:induction false} KidsSize(t: Tree, h: nat, min: nat, max: nat)
    requires h > 0 && Kids(t, h, min, max)
    ensures |t.kids| == |t.keys| + 1
  {
  }

  lemma {:induction false} MergeBelongs(t: Tree, i: nat, v: Key)
    requires |t.kids| == |t.keys| + 1 && |t.keys| > 0 && i < |t.kids| && Belongs(t, i, v)
    ensures if i > 0 then Belongs(Merge(t, i - 1), i - 1, v) else Belongs(Merge(t, i), i, v)
  {
    var k := if i > 0 then i - 1 else i;
    var u := Merge(t, k);
    assert forall x | 0 <= x < |u.keys| :: u.keys[x] == if x < k then t.keys[x] else t.keys[x + 1];
  }

  /** Merging around the key looked for: its new place, and what is around it there. */
  lemma {:induction false} MergeAround(t: Tree, i: nat, v: Key)
    requires |t.kids| == |t.keys| + 1 && i < |t.keys| && t.keys[i] == v && Increasing(t.keys)
    ensures var u := Merge(t, i);
      Belongs(u, i, v) && |t.kids[i].keys| < |u.kids[i].keys| && u.kids[i].keys[|t.kids[i].keys|] == v
  {
    var u := Merge(t, i);
    assert forall x | 0 <= x < |u.keys| :: u.keys[x] == if x < i then t.keys[x] else t.keys[x + 1];
  }

  lemma {:induction false} FocusIncreasing(m: Memory, c: Path, t: Tree, h: nat, lo: nat, min: nat, max: nat)
    requires Focus(m, c, t, h, lo, min, max) && Whole(Plug(c, t)) && Increasing(Flat(Plug(c, t)))
    ensures Whole(t) && Increasing(Flat(t)) && Increasing(t.keys)
  {
    AtFocus(m, c, t, h, lo, min, max);
    PartsIncreasing(Left(c), Flat(t), Right(c));
    KeysIncreasing(t);
  }

  /** The focus moves to child j of the rebalanced node. */
  lemma {:induction false} PushDown(m: Memory, m': Memory, c: Path, t: Tree, h: nat, lo: nat, min: nat, max: nat, u: Tree,
                                    j: nat, v: Key)
    requires Focus(m, c, t, h, lo, min, max) && Between(c, v) && h > 0
    requires Whole(Plug(c, t)) && Increasing(Flat(Plug(c, t)))
    requires t.ptr == u.ptr && Holds(m', u) && Ok(u, h, Low(c, lo, min), min, max)
    requires Nodes(u) <= Nodes(t) && Whole(u) && Whole(t) && Flat(u) == Flat(t)
    requires m'.Keys <= m.Keys && forall r <- m | r !in Nodes(t) :: r in m' && m'[r] == m[r]
    requires j < |u.kids| && Belongs(u, j, v)
    ensures var d := c + [FrameOf(u, j)];
      && Focus(m', d, u.kids[j], h - 1, lo, min, max) && Between(d, v) && Plug(d, u.kids[j]).ptr == Plug(c, t).ptr
      && Whole(Plug(d, u.kids[j])) && Flat(Plug(d, u.kids[j])) == Flat(Plug(c, t))
  {
    assert t.ptr in Nodes(t);
    hide Holds;
    hide Distinct;
    FocusIncreasing(m, c, t, h, lo, min, max);
    Refocus(m, m', c, t, u, h, lo, min, max, t.ptr);
    SameReading(c, t, u);
    PlugPtr(c, t, u);
    FocusDown(m', c, u, h, lo, min, max, j);
    KidsSize(u, h, min, max);
    BetweenDown(c, u, j, v);
  }
}
