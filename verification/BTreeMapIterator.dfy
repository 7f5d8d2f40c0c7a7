/** The map's iterator: a cursor that walks the tree by child and parent pointers. */
module BTreeMapIterator {
  import opened BTree
  import opened BTreeMemory
  import opened BTreeNodes
  import opened BTreeOrder
  import opened BTreeFocus
  import opened BTreeMapNodes
  import opened BTreePositions
  import Map = BTreeMap

  /** What the iterator needs to know about its node. */
  lemma {:induction false} AtPlace(m: Memory, c: Path, t: Tree, h: nat, lo: nat, min: nat, max: nat)
    requires Focus(m, c, t, h, lo, min, max)
    ensures Holds(m, t) && t.ptr in m && RecIs(m[t.ptr], t) && Whole(t) && PathWhole(c) && Whole(Plug(c, t))
    ensures Flat(Plug(c, t)) == Left(c) + Flat(t) + Right(c)
    ensures |m[t.ptr].children| == MAXKEYS + 1 && |t.keys| <= MAXKEYS && Low(c, lo, min) <= |t.keys|
    ensures m[t.ptr].children[0] == 0 <==> h == 0
    ensures if h == 0 then t.kids == [] && Flat(t) == t.keys else |t.kids| == |t.keys| + 1
    ensures h > 0 ==> forall i | 0 <= i <= |t.keys| :: m[t.ptr].children[i] == t.kids[i].ptr
  {
    AtFocus(m, c, t, h, lo, min, max);
    AtNode(m, t);
    LeafBySlot(m, t);
  }

  /** The focus moves up to the parent. */
  lemma {:induction false} FocusUp(m: Memory, c: Path, f: Frame, t: Tree, h: nat, lo: nat, min: nat, max: nat)
    requires Focus(m, c + [f], t, h, lo, min, max)
    ensures Plug(c + [f], t) == Plug(c, Fill(f, t)) && Focus(m, c, Fill(f, t), h + 1, lo, min, max)
  {
    PlugSnoc(c, f, t);
    FocusRoot(m, c + [f], t, h, lo, min, max);
    PlugOk(c, Fill(f, t), h + |c| + 1, lo, min, max);
  }

  /** A node's parent pointer and index lead to the end of its path. */
  lemma {:induction false} ParentIs(m: Memory, c: Path, f: Frame, t: Tree, parent: map<Ptr, Ptr>, childIndex: map<Ptr, nat>)
    requires Holds(m, Plug(c, Fill(f, t))) && LinksOk(m, parent, childIndex) && |f.before| + |f.after| == |f.keys|
    ensures IsChild(parent, childIndex, t.ptr, f.ptr, |f.before|) && f.ptr != 0
    ensures f.ptr in m && m[f.ptr].length == |f.keys|
  {
    var u, n := Fill(f, t), |f.before|;
    PlugPart(m, c, u);
    AtNode(m, u);
    LeafBySlot(m, u);
    assert u.kids[n] == t;
    assert LinkOk(m[f.ptr], parent, childIndex, f.ptr);
    assert IsChild(parent, childIndex, m[f.ptr].children[n], f.ptr, n);
  }

  lemma {:induction false} FrameCounts(c: Path, f: Frame)
    requires PathWhole(c + [f])
    ensures |f.before| + |f.after| == |f.keys|
  {
    assert (c + [f])[|c|] == f;
  }

  lemma {:induction false} AtStart(t: Tree)
    ensures Plug([], t) == t && Left([]) == []
  {
  }

  lemma {:induction false} UpFrom(m: Memory, c: Path, f: Frame, t: Tree, h: nat, lo: nat, min: nat, max: nat,
                                  parent: map<Ptr, Ptr>, childIndex: map<Ptr, nat>)
    requires Focus(m, c + [f], t, h, lo, min, max) && LinksOk(m, parent, childIndex)
    requires PathWhole(c + [f]) && Whole(t)
    ensures var u := Fill(f, t);
      && PathWhole(c) && Whole(u) && IsChild(parent, childIndex, t.ptr, f.ptr, |f.before|) && f.ptr != 0
      && Focus(m, c, u, h + 1, lo, min, max) && Plug(c + [f], t) == Plug(c, u) && Whole(Plug(c, u))
      && u.ptr == f.ptr && f.ptr in m && m[f.ptr].length == |f.keys| == |u.keys| && |f.before| <= |f.keys|
      && (|f.before| < |f.keys| ==> Position(c, u, |f.before|) == |Left(c + [f])| + |Flat(t)| < |Flat(Plug(c, u))|)
      && (|f.before| == |f.keys| ==> |Left(c)| + |Flat(u)| == |Left(c + [f])| + |Flat(t)|)
      && (|f.before| > 0 ==> Position(c, u, |f.before| - 1) == |Left(c + [f])| - 1)
      && (|f.before| == 0 ==> |Left(c)| == |Left(c + [f])|)
  {
    hide LinksOk, Holds, Distinct, PathOk, Plug, Flat, Whole, Focus, Position, PathWhole, IsChild, Left;
    var u := Fill(f, t);
    Above(c, f, t);
    FocusUp(m, c, f, t, h, lo, min, max);
    FocusRoot(m, c, u, h + 1, lo, min, max);
    FrameCounts(c, f);
    if |f.before| < |f.keys| { PositionAt(c, u, |f.before|); }
    AtPlace(m, c, u, h + 1, lo, min, max);
    ParentIs(m, c, f, t, parent, childIndex);
  }

  /** All before position n are below v, and from there on none is. */
  predicate Splits(s: seq<Key>, n: nat, v: Key) {
    n <= |s| && (forall j | 0 <= j < n :: s[j] < v) && (forall j | n <= j < |s| :: v <= s[j])
  }

  lemma {:induction false} SplitsAt(s: seq<Key>, n: nat, v: Key)
    requires Increasing(s) && n < |s| && s[n] == v
    ensures Splits(s, n, v)
  {
  }

  /** The search has come to the key. */
  lemma {:induction false} FoundAt(c: Path, t: Tree, i: nat, v: Key)
    requires PathWhole(c) && Whole(t) && i < |t.keys| && Whole(Plug(c, t)) && Increasing(Flat(Plug(c, t)))
    requires t.keys[i] == v
    ensures Splits(Flat(Plug(c, t)), Position(c, t, i), v)
  {
    hide *;
    PositionAt(c, t, i);
    SplitsAt(Flat(Plug(c, t)), Position(c, t, i), v);
  }

  /** Or to slot i of a leaf, where it would be. */
  lemma {:induction false} LeafSplits(c: Path, t: Tree, i: nat, v: Key)
    requires Between(c, v) && t.kids == [] && i <= |t.keys|
    requires (forall k | 0 <= k < i :: t.keys[k] < v) && (forall k | i <= k < |t.keys| :: v < t.keys[k])
    ensures PathWhole(c) && Whole(Plug(c, t)) && Splits(Flat(Plug(c, t)), |Left(c)| + i, v)
  {
    PlugFlat(c, t);
    var l, r := Left(c), Right(c);
    assert AllBelow(l, v) && AllAbove(r, v);
    hide Between, PathWhole, Whole, Flat, Plug, Left, Right;
    SplitsBetween(l, t.keys, r, i, v);
  }

  lemma {:induction false} SplitsBetween(l: seq<Key>, s: seq<Key>, r: seq<Key>, i: nat, v: Key)
    requires AllBelow(l, v) && AllAbove(r, v) && i <= |s|
    requires (forall k | 0 <= k < i :: s[k] < v) && (forall k | i <= k < |s| :: v < s[k])
    ensures Splits(l + s + r, |l| + i, v)
  {
  }

  class Iterator {
    const db: Map.BTreeMap
    var node: Ptr
    var it: int
    // the path to the node, and its subtree
    ghost var c: Path
    ghost var t: Tree
    ghost var h: nat

    constructor (db: Map.BTreeMap)
      requires db.Valid()
      ensures this.db == db && Ok() && it == -1
    {
      this.db := db;
      node, it := 0, -1;
      c, t, h := [], Node(0, [], []), 0;
    }

    ghost predicate Place()
      reads this, db
    {
      && Focus(db.mem, c, t, h, RootLow(db.height), db.minKeys, db.maxKeys)
      && node == t.ptr && db.tree == Plug(c, t) && PathWhole(c) && Whole(t)
    }

    ghost predicate Ok()
      reads this, db
    {
      db.Valid() && -1 <= it && (it >= 0 ==> it < |t.keys| && Place())
    }

    /** The position of the entry, counting from the smallest key. */
    ghost function Pos(): nat
      requires Ok() && it >= 0
      reads this, db
    {
      Position(c, t, it)
    }

    ghost function Keys(): seq<Key>
      requires Whole(db.tree)
      reads db
    {
      Flat(db.tree)
    }

    /** True if the iterator is at an entry. */
    method Valid() returns (b: bool)
      requires Ok()
      ensures b <==> it != -1
    {
      b := it != -1;
    }

    // ---------- walking ----------

    /** What holds at a place, in terms of the fields. */
    lemma {:induction false} Here()
      requires db.Valid() && Place()
      ensures Holds(db.mem, t) && node in db.mem && RecIs(db.mem[node], t) && Whole(db.tree)
      ensures Flat(db.tree) == Left(c) + Flat(t) + Right(c)
      ensures |db.mem[node].children| == MAXKEYS + 1 && |t.keys| <= MAXKEYS && (c != [] ==> 0 < |t.keys|)
      ensures db.mem[node].children[0] == 0 <==> h == 0
      ensures if h == 0 then t.kids == [] && Flat(t) == t.keys else |t.kids| == |t.keys| + 1
      ensures h > 0 ==> forall i | 0 <= i <= |t.keys| :: db.mem[node].children[i] == t.kids[i].ptr
      ensures LinksOk(db.mem, db.parent, db.childIndex) && ValuesOk(db.mem, db.vals, db.owner, db.model)
    {
      hide LinksOk, ValuesOk, Holds, Distinct, PathOk, Plug, Flat, Whole, Focus;
      AtPlace(db.mem, c, t, h, RootLow(db.height), db.minKeys, db.maxKeys);
    }

    /** The parent pointer and the index, and the place they lead to. */
    lemma {:induction false} HereUp() returns (c': Path, t': Tree)
      requires db.Valid() && Place()
      ensures node in db.parent
      ensures c == [] ==> db.parent[node] == 0 && t == db.tree && Left(c) == []
      ensures c != [] ==>
        var f := c[|c| - 1];
        && c' == c[..|c| - 1] && t' == Fill(f, t) && PathWhole(c') && Whole(t')
        && IsChild(db.parent, db.childIndex, node, f.ptr, |f.before|) && db.parent[node] != 0
        && Focus(db.mem, c', t', h + 1, RootLow(db.height), db.minKeys, db.maxKeys) && db.tree == Plug(c', t')
        && t'.ptr == f.ptr && f.ptr in db.mem && db.mem[f.ptr].length == |f.keys| == |t'.keys| && |f.before| <= |f.keys|
        && (|f.before| < |f.keys| ==> Position(c', t', |f.before|) == |Left(c)| + |Flat(t)| < |Flat(db.tree)|)
        && (|f.before| == |f.keys| ==> |Left(c')| + |Flat(t')| == |Left(c)| + |Flat(t)|)
        && (|f.before| > 0 ==> Position(c', t', |f.before| - 1) == |Left(c)| - 1)
        && (|f.before| == 0 ==> |Left(c')| == |Left(c)|)
    {
      hide LinksOk, ValuesOk, Holds, Distinct, PathOk, Plug, Flat, Whole, Focus, Position, PathWhole, Fill, Left;
      Here();
      LinkSizes(db.mem, db.parent, db.childIndex);
      c', t' := c, t;
      if c == [] {
        AtStart(t);
      } else {
        var f := c[|c| - 1];
        c', t' := c[..|c| - 1], Fill(f, t);
        assert c == c' + [f];
        UpFrom(db.mem, c', f, t, h, RootLow(db.height), db.minKeys, db.maxKeys, db.parent, db.childIndex);
      }
    }

    /** All of the node's subtree has been passed: goes up until there is an entry to the right. */
    method ClimbRight(ghost n: nat)
      requires db.Valid() && Place() && n == |Left(c)| + |Flat(t)|
      modifies this
      ensures Ok() && n <= |Keys()| && if n < |Keys()| then it >= 0 && Pos() == n else it == -1
    {
      hide LinksOk, ValuesOk, Holds, Distinct, PathOk, Plug, Flat, Whole, Focus, Left, Right, PathWhole, RootOk, Increasing;
      hide KeySet, SlotPos;
      while true
        invariant db.Valid() && Place() && n == |Left(c)| + |Flat(t)|
        decreases |c|
      {
        ghost var c', t' := HereUp();
        var p := db.parent[node];
        if p == 0 {
          it := -1;
          return;
        }
        var index := db.childIndex[node];
        node := p;
        c, t, h := c', t', h + 1;
        if index < db.mem[p].length {
          it := index;
          return;
        }
      }
    }

    /** The node's subtree has not been entered: goes up until there is an entry to the left. */
    method ClimbLeft(ghost n: nat)
      requires db.Valid() && Place() && n == |Left(c)|
      modifies this
      ensures Ok() && if n > 0 then it >= 0 && Pos() == n - 1 else it == -1
    {
      hide LinksOk, ValuesOk, Holds, Distinct, PathOk, Plug, Flat, Whole, Focus, Left, Right, PathWhole, RootOk, Increasing;
      hide KeySet, SlotPos;
      while true
        invariant db.Valid() && Place() && n == |Left(c)|
        decreases |c|
      {
        ghost var c', t' := HereUp();
        var p := db.parent[node];
        if p == 0 {
          it := -1;
          return;
        }
        var index: int := db.childIndex[node];
        node := p;
        c, t, h := c', t', h + 1;
        if index - 1 >= 0 {
          it := index - 1;
          return;
        }
      }
    }

    /** The place of child j. */
    lemma {:induction false} HereDown(j: nat)
      requires db.Valid() && Place() && h > 0 && j <= |t.keys|
      ensures |t.kids| == |t.keys| + 1 && Whole(t.kids[j]) && PathWhole(c + [FrameOf(t, j)])
      ensures Focus(db.mem, c + [FrameOf(t, j)], t.kids[j], h - 1, RootLow(db.height), db.minKeys, db.maxKeys)
      ensures db.tree == Plug(c + [FrameOf(t, j)], t.kids[j])
      ensures j > 0 ==> |Left(c + [FrameOf(t, j)])| == Position(c, t, j - 1) + 1
      ensures j < |t.keys| ==> |Left(c + [FrameOf(t, j)])| + |Flat(t.kids[j])| == Position(c, t, j)
      ensures j == 0 ==> |Left(c + [FrameOf(t, j)])| == |Left(c)|
      ensures j == |t.keys| ==> |Left(c + [FrameOf(t, j)])| + |Flat(t.kids[j])| == |Left(c)| + |Flat(t)|
    {
      hide LinksOk, ValuesOk, Holds, Distinct, PathOk, Plug, Flat, Whole, Focus, Left, Right, PathWhole, FrameOf, Position;
      Here();
      FocusDown(db.mem, c, t, h, RootLow(db.height), db.minKeys, db.maxKeys, j);
      Below(c, t, j);
    }

    /** Goes down to the first entry of the node's subtree. */
    method DownLeft(ghost n: nat)
      requires db.Valid() && Place() && n == |Left(c)| && c != []
      modifies this
      ensures Ok() && it >= 0 && Pos() == n
    {
      hide LinksOk, ValuesOk, Holds, Distinct, PathOk, Plug, Flat, Whole, Focus, Left, Right, PathWhole, RootOk, Increasing;
      hide KeySet, FrameOf;
      Here();
      while db.mem[node].children[0] != 0
        invariant db.Valid() && Place() && n == |Left(c)| && c != []
        invariant node in db.mem && |db.mem[node].children| == MAXKEYS + 1 && (db.mem[node].children[0] == 0 <==> h == 0)
        decreases h
      {
        Here();
        HereDown(0);
        node := db.mem[node].children[0];
        c, t, h := c + [FrameOf(t, 0)], t.kids[0], h - 1;
        Here();
      }
      Here();
      it := 0;
    }

    /** Goes down to the last entry of the node's subtree. */
    method DownRight(ghost n: nat)
      requires db.Valid() && Place() && n == |Left(c)| + |Flat(t)| && c != []
      modifies this
      ensures Ok() && it >= 0 && Pos() + 1 == n
    {
      hide LinksOk, ValuesOk, Holds, Distinct, PathOk, Plug, Flat, Whole, Focus, Left, Right, PathWhole, RootOk, Increasing;
      hide KeySet, FrameOf;
      Here();
      while db.mem[node].children[0] != 0
        invariant db.Valid() && Place() && n == |Left(c)| + |Flat(t)| && c != []
        invariant node in db.mem && |db.mem[node].children| == MAXKEYS + 1 && (db.mem[node].children[0] == 0 <==> h == 0)
        decreases h
      {
        Here();
        ghost var j := |t.keys|;
        HereDown(j);
        node := db.mem[node].children[db.mem[node].length];
        c, t, h := c + [FrameOf(t, j)], t.kids[j], h - 1;
        Here();
      }
      Here();
      it := db.mem[node].length - 1;
    }

    /** To the next entry, or past the last one. */
    method Next()
      requires Ok()
      modifies this
      ensures Ok() && (old(it) == -1 ==> it == -1)
      ensures old(it) >= 0 ==>
        if old(Pos()) + 1 < |Keys()| then it >= 0 && Pos() == old(Pos()) + 1 else it == -1
    {
      hide LinksOk, ValuesOk, Holds, Distinct, PathOk, Plug, Flat, Whole, Focus, Left, Right, PathWhole, RootOk, Increasing;
      hide KeySet, FrameOf;
      if it == -1 {
        return;
      }
      Here();
      PositionAt(c, t, it);
      if db.mem[node].children[0] == 0 {
        it := it + 1;
        if it < db.mem[node].length {
          PositionAt(c, t, it);
          return;
        }
        ClimbRight(|Left(c)| + |Flat(t)|);
      } else {
        ghost var j := it + 1;
        HereDown(j);
        node := db.mem[node].children[it + 1];
        c, t, h := c + [FrameOf(t, j)], t.kids[j], h - 1;
        DownLeft(|Left(c)|);
        PositionAt(c, t, it);
      }
    }

    /** To the entry before, or before the first one. */
    method Prev()
      requires Ok()
      modifies this
      ensures Ok() && (old(it) == -1 ==> it == -1)
      ensures old(it) >= 0 ==> if old(Pos()) > 0 then it >= 0 && Pos() == old(Pos()) - 1 else it == -1
    {
      hide LinksOk, ValuesOk, Holds, Distinct, PathOk, Plug, Flat, Whole, Focus, Left, Right, PathWhole, RootOk, Increasing;
      hide KeySet, FrameOf;
      if it == -1 {
        return;
      }
      Here();
      if db.mem[node].children[0] == 0 {
        it := it - 1;
        if it >= 0 {
          return;
        }
        ClimbLeft(|Left(c)|);
      } else {
        ghost var j := it;
        HereDown(j);
        node := db.mem[node].children[it];
        c, t, h := c + [FrameOf(t, j)], t.kids[j], h - 1;
        DownRight(|Left(c)| + |Flat(t)|);
      }
    }

    /** To the first entry at or past target. */
    method Seek(target: Key)
      requires db.Valid()
      modifies this
      ensures Ok() && Splits(Keys(), if it >= 0 then Pos() else |Keys()|, target)
    {
      hide RecOk, LinksOk, ValuesOk, Holds, Distinct, PathOk, Plug, Flat, Whole, Focus, Left, Right, PathWhole,
        RootOk, Increasing;
      hide KeySet, FrameOf, Between, Splits, Position;
      db.AtRoot(target);
      Root();
      while db.mem[node].children[0] != 0
        invariant db.Valid() && Place() && Between(c, target) && Increasing(Flat(db.tree)) && Whole(db.tree)
        invariant node in db.mem && |db.mem[node].children| == MAXKEYS + 1 && (db.mem[node].children[0] == 0 <==> h == 0)
        decreases h
      {
        Here();
        Sorted(c, t);
        var found, i := db.Search(node, target, t);
        if found {
          FoundAt(c, t, i, target);
          it := i;
          return;
        }
        HereDown(i);
        BetweenDown(c, t, i, target);
        node := db.mem[node].children[i];
        c, t, h := c + [FrameOf(t, i)], t.kids[i], h - 1;
        Here();
      }
      SeekInLeaf(target);
    }

    /** At the leaf the target belongs in. */
    method SeekInLeaf(target: Key)
      requires db.Valid() && Place() && h == 0 && Between(c, target) && Increasing(Flat(db.tree)) && Whole(db.tree)
      modifies this
      ensures Ok() && Splits(Keys(), if it >= 0 then Pos() else |Keys()|, target)
    {
      hide RecOk, LinksOk, ValuesOk, Holds, Distinct, PathOk, Plug, Flat, Whole, Focus, Left, Right, PathWhole,
        RootOk, Increasing, KeySet, FrameOf, Between, Splits, Position;
      Here();
      Sorted(c, t);
      var found, i := db.Search(node, target, t);
      if found || i < db.mem[node].length {
        if found { FoundAt(c, t, i, target); } else { LeafSplits(c, t, i, target); }
        LeafPosition(c, t, i);
        it := i;
        return;
      }
      LeafSplits(c, t, i, target);
      ClimbRight(|Left(c)| + |Flat(t)|);
    }

    /**
      To the first entry, as long as the root has children: a root that is a leaf is taken for an
      empty map, so that the promise to be valid unless the map is empty is kept exactly when the
      root is not a leaf or the map is empty.
    */
    method SeekToFirst()
      requires db.Valid()
      modifies this
      ensures Ok() && db.root in db.mem && |db.mem[db.root].children| > 0
      ensures it >= 0 <==> db.mem[db.root].children[0] != 0
      ensures it >= 0 ==> Pos() == 0 < |Keys()|
      ensures (it >= 0 <==> Keys() != []) <==> db.mem[db.root].children[0] != 0 || Keys() == []
    {
      hide LinksOk, ValuesOk, Holds, Distinct, PathOk, Plug, Flat, Whole, Focus, Left, Right, PathWhole, RootOk, Increasing;
      hide KeySet, FrameOf, Position;
      Root();
      if db.mem[node].children[0] == 0 {
        it := -1;
        return;
      }
      HereDown(0);
      node := db.mem[node].children[0];
      c, t, h := c + [FrameOf(t, 0)], t.kids[0], h - 1;
      DownLeft(0);
      PositionAt(c, t, it);
    }

    /** To the last entry, with the same exception. */
    method SeekToLast()
      requires db.Valid()
      modifies this
      ensures Ok() && db.root in db.mem && |db.mem[db.root].children| > 0
      ensures it >= 0 <==> db.mem[db.root].children[0] != 0
      ensures it >= 0 ==> Pos() + 1 == |Keys()|
      ensures (it >= 0 <==> Keys() != []) <==> db.mem[db.root].children[0] != 0 || Keys() == []
    {
      hide LinksOk, ValuesOk, Holds, Distinct, PathOk, Plug, Flat, Whole, Focus, Left, Right, PathWhole, RootOk, Increasing;
      hide KeySet, FrameOf, Position;
      Root();
      if db.mem[node].children[0] == 0 {
        it := -1;
        return;
      }
      ghost var j := |t.keys|;
      HereDown(j);
      node := db.mem[node].children[db.mem[node].length];
      c, t, h := c + [FrameOf(t, j)], t.kids[j], h - 1;
      DownRight(|Keys()|);
      PositionAt(c, t, it);
    }

    /** Takes the root for the node. */
    method Root()
      requires db.Valid()
      modifies this
      ensures db.Valid() && Place() && node == db.root && c == [] && t == db.tree && h == db.height
      ensures node in db.mem && |db.mem[node].children| == MAXKEYS + 1 && (db.mem[node].children[0] == 0 <==> h == 0)
      ensures |Left(c)| == 0 && RecIs(db.mem[node], t)
      ensures h > 0 ==> forall i | 0 <= i <= |t.keys| :: db.mem[node].children[i] == t.kids[i].ptr
    {
      hide LinksOk, ValuesOk, Holds, Distinct, PathOk, Plug, Flat, Whole, Focus, Left, Right, PathWhole, RootOk, Increasing;
      hide KeySet;
      db.AtRoot(0);
      node := db.root;
      c, t, h := [], db.tree, db.height;
      AtStart(t);
      AtPlace(db.mem, c, t, h, RootLow(db.height), db.minKeys, db.maxKeys);
      Here();
    }

    method Key() returns (k: Key)
      requires Ok() && it >= 0
      ensures Pos() < |Keys()| && k == Keys()[Pos()]
    {
      Here();
      PositionAt(c, t, it);
      k := db.mem[node].keys[it];
      assert k == db.mem[node].keys[..db.mem[node].length][it];
    }

    method Value() returns (v: Val)
      requires Ok() && it >= 0
      ensures Pos() < |Keys()| && Keys()[Pos()] in db.model && v == db.model[Keys()[Pos()]]
    {
      Here();
      PositionAt(c, t, it);
      ValueAt(db.mem, t, it, db.vals, db.owner, db.model);
      v := db.vals[node][it];
    }

    /** Prev undoes any Next that found an entry: the cursor is back at the same slot of the same node. */
    method NextThenPrev() returns (moved: bool)
      requires Ok() && it >= 0
      modifies this
      ensures Ok() && moved == (old(Pos()) + 1 < |Keys()|)
      ensures moved ==> node == old(node) && it == old(it)
    {
      hide LinksOk, ValuesOk, Holds, Distinct, PathOk, Plug, Flat, Whole, Focus, Left, Right, PathWhole, RootOk, Increasing;
      hide KeySet, FrameOf, Position;
      ghost var c0, t0, i0 := c, t, it;
      Next();
      moved := it != -1;
      if moved {
        Prev();
        SamePlace(c0, t0, i0, c, t, it);
      }
    }

    /** Seek, then Next until it fails: the entries at or past target, each once, in order, with their values. */
    method ScanFrom(target: Key) returns (out: seq<(Key, Val)>)
      requires db.Valid()
      modifies this
      ensures Ok() && it == -1
      ensures forall i, j | 0 <= i < j < |out| :: out[i].0 < out[j].0
      ensures forall i | 0 <= i < |out| :: target <= out[i].0 && out[i].0 in db.model && out[i].1 == db.model[out[i].0]
      ensures forall k <- db.model | target <= k :: exists i :: 0 <= i < |out| && out[i].0 == k
    {
      hide LinksOk, ValuesOk, Holds, Distinct, PathOk, Plug, Flat, Whole, Focus, Left, Right, PathWhole, RootOk;
      hide KeySet, FrameOf, Position, Place;
      Seek(target);
      db.AtRoot(target);
      out := [];
      ghost var first := if it >= 0 then Pos() else |Keys()|;
      while it != -1
        invariant Ok() && first + |out| == if it >= 0 then Pos() else |Keys()|
        invariant first + |out| <= |Keys()|
        invariant forall i | 0 <= i < |out| ::
            out[i].0 == Keys()[first + i] && out[i].0 in db.model && out[i].1 == db.model[out[i].0]
        decreases |Keys()| - |out|
      {
        var k := Key();
        var v := Value();
        out := out + [(k, v)];
        Next();
      }
      forall k <- db.model | target <= k ensures exists i :: 0 <= i < |out| && out[i].0 == k {
        InKeys(Keys(), k);
        var n :| 0 <= n < |Keys()| && Keys()[n] == k;
        assert out[n - first].0 == k;
      }
    }
  }

  lemma {:induction false} Sorted(c: Path, t: Tree)
    requires PathWhole(c) && Whole(t) && Whole(Plug(c, t)) && Increasing(Flat(Plug(c, t)))
    ensures Increasing(Flat(t)) && Increasing(t.keys)
  {
    PlugFlat(c, t);
    PartsIncreasing(Left(c), Flat(t), Right(c));
    KeysIncreasing(t);
  }

  lemma {:induction false} LeafPosition(c: Path, t: Tree, i: nat)
    requires PathWhole(c) && Whole(t) && t.kids == [] && i < |t.keys|
    ensures Position(c, t, i) == |Left(c)| + i
  {
  }

  /** A tree with a root above leaves has at least three keys. */
  lemma {:induction false} ThreeKeys(t: Tree, h: nat, min: nat, max: nat)
    requires Ok(t, h, 1, min, max) && h > 0 && 0 < min
    ensures Whole(t) && |Flat(t)| >= 3
  {
    KidsWhole(t, h, min, max);
    KidsAt(t, h, min, max, 0);
    KidsAt(t, h, min, max, 1);
    SlotAt(t.kids[0], 0);
    SlotAt(t.kids[1], 0);
    var ps := Parts(t);
    assert ps[0] == Flat(t.kids[0]) && ps[1] == Flat(t.kids[1]);
    WeaveAt(t.keys, ps, 1);
    assert |Pre(t.keys, ps, 1)| == |ps[0]| + 1;
  }

  lemma {:induction false} OneIsLeaf(db: Map.BTreeMap, k: Key)
    requires db.Valid() && db.model.Keys == {k}
    ensures db.root in db.mem && |db.mem[db.root].children| > 0 && db.mem[db.root].children[0] == 0
    ensures Flat(db.tree) == [k]
  {
    hide LinksOk, ValuesOk, Holds, Distinct, Plug, Flat, Focus, Between;
    db.AtRoot(k);
    var s := Flat(db.tree);
    forall i | 0 <= i < |s| ensures s[i] == k {
      InKeys(s, s[i]);
    }
    assert |s| >= 2 ==> s[0] < s[1];
    InKeys(s, k);
    if db.height > 0 {
      ThreeKeys(db.tree, db.height, db.minKeys, db.maxKeys);
    }
  }

  /** A map with one entry, which SeekToFirst and SeekToLast do not find and Seek does. */
  method OneEntryNotFirst() returns (db: Map.BTreeMap, a: Iterator, b: Iterator, c: Iterator)
    ensures fresh(db) && db.Valid() && db.model == map[7 := 70]
    ensures fresh(a) && a.db == db && a.it == -1 && fresh(b) && b.db == db && b.it == -1
    ensures fresh(c) && c.db == db && c.Ok() && c.it >= 0
  {
    hide LinksOk, ValuesOk, Holds, Distinct, PathOk, Plug, Flat, Whole, Focus, PathWhole, RootOk, Increasing, KeySet, Splits;
    db := new Map.BTreeMap(8);
    var added := db.InnerPut(7, 70);
    OneIsLeaf(db, 7);
    a := new Iterator(db);
    b := new Iterator(db);
    c := new Iterator(db);
    a.SeekToFirst();
    b.SeekToLast();
    c.Seek(0);
    NotPast([7], 0);
  }

  lemma {:induction false} NotPast(s: seq<Key>, v: Key)
    requires s != [] && s[0] >= v
    ensures !Splits(s, |s|, v)
  {
  }
}
