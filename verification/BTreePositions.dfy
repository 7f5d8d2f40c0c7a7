/** Places in a tree, as positions among its keys from left to right. */
module BTreePositions {
  import opened BTree
  import opened BTreeMemory
  import opened BTreeOrder

  /** How many keys of t come before slot i. */
  function SlotPos(t: Tree, i: nat): nat
    requires Whole(t) && i < |t.keys|
  {
    if t.kids == [] then i else |Pre(t.keys, Parts(t), i)| + |Parts(t)[i]|
  }

  /** How many keys of the whole tree come before slot i of the node t at the end of path c. */
  function Position(c: Path, t: Tree, i: nat): nat
    requires PathWhole(c) && Whole(t) && i < |t.keys|
  {
    |Left(c)| + SlotPos(t, i)
  }

  lemma {:induction false} SlotAt(t: Tree, i: nat)
    requires Whole(t) && i < |t.keys|
    ensures SlotPos(t, i) < |Flat(t)| && Flat(t)[SlotPos(t, i)] == t.keys[i]
  {
    if t.kids != [] {
      WeaveAt(t.keys, Parts(t), i);
      PartBounds(t.keys, Parts(t), i);
    }
  }

  lemma {:induction false} PositionAt(c: Path, t: Tree, i: nat)
    requires PathWhole(c) && Whole(t) && i < |t.keys|
    ensures Whole(Plug(c, t)) && Flat(Plug(c, t)) == Left(c) + Flat(t) + Right(c)
    ensures Position(c, t, i) < |Flat(Plug(c, t))| && Flat(Plug(c, t))[Position(c, t, i)] == t.keys[i]
  {
    PlugFlat(c, t);
    SlotAt(t, i);
  }

  // ---------- moving up and down ----------

  /** The frame above: what is left and right of t in it. */
  lemma {:induction false} Above(c: Path, f: Frame, t: Tree)
    requires PathWhole(c + [f]) && Whole(t)
    ensures PathWhole(c) && Whole(Fill(f, t)) && Plug(c + [f], t) == Plug(c, Fill(f, t))
    ensures |f.before| <= |f.keys|
    ensures |f.before| < |f.keys| ==> Position(c, Fill(f, t), |f.before|) == |Left(c + [f])| + |Flat(t)|
    ensures |f.before| == |f.keys| ==> |Left(c)| + |Flat(Fill(f, t))| == |Left(c + [f])| + |Flat(t)|
    ensures |f.before| > 0 ==> Position(c, Fill(f, t), |f.before| - 1) == |Left(c + [f])| - 1
    ensures |f.before| == 0 ==> |Left(c)| == |Left(c + [f])|
  {
    hide FrameParts;
    var n, u := |f.before|, Fill(f, t);
    assert (c + [f])[|c|] == f && forall i | 0 <= i < |c| :: (c + [f])[i] == c[i];
    assert FrameWhole(f) && PathWhole(c);
    PlugSnoc(c, f, t);
    SidesSnoc(c, f);
    FillFlat(f, t);
    FilledPre(f, t);
    if n > 0 { assert |Pre(u.keys, Parts(u), n)| == |Pre(u.keys, Parts(u), n - 1)| + |Parts(u)[n - 1]| + 1; }
  }

  lemma {:induction false} FilledPre(f: Frame, t: Tree)
    requires FrameWhole(f) && Whole(t)
    ensures var u, n := Fill(f, t), |f.before|;
      && Whole(u) && u.kids != [] && |Parts(u)| == |u.keys| + 1 && Parts(u)[n] == Flat(t)
      && Pre(u.keys, Parts(u), n) == Pre(f.keys, FrameParts(f), n)
  {
    var u, n, ps := Fill(f, t), |f.before|, FrameParts(f);
    FillFlat(f, t);
    assert u.kids[n] == t;
    assert forall j | 0 <= j < n :: u.kids[j] == f.before[j];
    assert Parts(u)[..n] == ps[..n];
    PreSame(u.keys, Parts(u), f.keys, ps, n);
  }

  /** Child j: what is left of it. */
  lemma {:induction false} Below(c: Path, t: Tree, j: nat)
    requires PathWhole(c) && Whole(t) && j < |t.kids| == |t.keys| + 1
    ensures Whole(t.kids[j]) && PathWhole(c + [FrameOf(t, j)])
    ensures Plug(c + [FrameOf(t, j)], t.kids[j]) == Plug(c, t)
    ensures j > 0 ==> |Left(c + [FrameOf(t, j)])| == Position(c, t, j - 1) + 1
    ensures j < |t.keys| ==> |Left(c + [FrameOf(t, j)])| + |Flat(t.kids[j])| == Position(c, t, j)
    ensures j == 0 ==> |Left(c + [FrameOf(t, j)])| == |Left(c)|
    ensures j == |t.keys| ==> |Left(c + [FrameOf(t, j)])| + |Flat(t.kids[j])| == |Left(c)| + |Flat(t)|
  {
    hide Flat;
    FrameIs(t, j);
    assert forall i | 0 <= i < |c| :: FrameWhole(c[i]);
    assert PathWhole(c + [FrameOf(t, j)]);
    FillFrame(t, j);
    Above(c, FrameOf(t, j), t.kids[j]);
  }

  // ---------- a position is at one place only ----------

  lemma {:induction false} PreGrows(keys: seq<Key>, parts: seq<seq<Key>>, i: nat, j: nat)
    requires i < j <= |keys| && |parts| == |keys| + 1
    ensures |Pre(keys, parts, i)| + |parts[i]| + 1 <= |Pre(keys, parts, j)|
  {
    if i < j - 1 {
      PreGrows(keys, parts, i, j - 1);
    }
  }

  lemma {:induction false} SlotPosGrows(t: Tree, i: nat, j: nat)
    requires Whole(t) && i < j < |t.keys|
    ensures SlotPos(t, i) < SlotPos(t, j)
  {
    if t.kids != [] {
      PreGrows(t.keys, Parts(t), i, j);
    }
  }

  /** A place below child b of the path's first node. */
  lemma {:induction false} Offset(c: Path, t: Tree, i: nat)
    requires PathWhole(c) && c != [] && Whole(t) && i < |t.keys|
    ensures var u, b := Plug(c, t), |c[0].before|;
      && PathWhole(c[1..]) && Whole(u) && u.kids != [] && |u.kids| == |u.keys| + 1 && b < |u.kids|
      && u.kids[b] == Plug(c[1..], t)
      && Position(c, t, i) == |Pre(u.keys, Parts(u), b)| + Position(c[1..], t, i)
      && Position(c[1..], t, i) < |Parts(u)[b]|
  {
    assert forall k | 0 <= k < |c[1..]| :: c[1..][k] == c[k + 1];
    PositionAt(c[1..], t, i);
    FilledPre(c[0], Plug(c[1..], t));
  }

  lemma {:induction false} SamePlace(c: Path, t: Tree, i: nat, d: Path, u: Tree, j: nat)
    requires PathWhole(c) && Whole(t) && i < |t.keys| && PathWhole(d) && Whole(u) && j < |u.keys|
    requires Plug(c, t) == Plug(d, u) && Position(c, t, i) == Position(d, u, j)
    ensures t == u && i == j
    decreases |c|
  {
    hide Weave, Post, Pre;
    if c == [] && d == [] {
      if i < j { SlotPosGrows(t, i, j); }
      if j < i { SlotPosGrows(t, j, i); }
    } else if c == [] {
      Offset(d, u, j);
      NotBoth(t, i, |d[0].before|, Position(d[1..], u, j));
    } else if d == [] {
      Offset(c, t, i);
      NotBoth(u, j, |c[0].before|, Position(c[1..], t, i));
    } else {
      Offset(c, t, i);
      Offset(d, u, j);
      var w, a, b := Plug(c, t), |c[0].before|, |d[0].before|;
      if a < b { PreGrows(w.keys, Parts(w), a, b); }
      if b < a { PreGrows(w.keys, Parts(w), b, a); }
      SamePlace(c[1..], t, i, d[1..], u, j);
    }
  }

  /** A slot of t is not below its child b. */
  lemma {:induction false} NotBoth(t: Tree, i: nat, b: nat, x: nat)
    requires Whole(t) && t.kids != [] && i < |t.keys| && b < |t.kids| && x < |Parts(t)[b]|
    ensures SlotPos(t, i) != |Pre(t.keys, Parts(t), b)| + x
  {
    if i < b {
      PreGrows(t.keys, Parts(t), i, b);
    } else if b < i {
      PreGrows(t.keys, Parts(t), b, i);
    }
  }
}
