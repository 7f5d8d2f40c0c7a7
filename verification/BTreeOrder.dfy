/** Search order in B-trees, in terms of the sequence of keys from left to right. */
module BTreeOrder {
  import opened BTree
  import opened BTreeMemory

  predicate AllBelow(s: seq<Key>, v: Key) { forall i | 0 <= i < |s| :: s[i] < v }
  predicate AllAbove(s: seq<Key>, v: Key) { forall i | 0 <= i < |s| :: v < s[i] }

  lemma {:induction false} PartsIncreasing(a: seq<Key>, b: seq<Key>, c: seq<Key>)
    requires Increasing(a + b + c)
    ensures Increasing(a) && Increasing(b) && Increasing(c)
    ensures forall i, j | 0 <= i < |a| && 0 <= j < |b| :: a[i] < b[j]
    ensures forall i, j | 0 <= i < |b| && 0 <= j < |c| :: b[i] < c[j]
    ensures forall i, j | 0 <= i < |a| && 0 <= j < |c| :: a[i] < c[j]
  {
    var s := a + b + c;
    assert forall i | 0 <= i < |a| :: s[i] == a[i];
    assert forall i | 0 <= i < |b| :: s[|a| + i] == b[i];
    assert forall i | 0 <= i < |c| :: s[|a| + |b| + i] == c[i];
  }

  /** Key i - 1 is the last before part i, key i the first after it. */
  lemma {:induction false} PartBounds(keys: seq<Key>, parts: seq<seq<Key>>, i: nat)
    requires |parts| == |keys| + 1 && i <= |keys|
    ensures i > 0 ==> |Pre(keys, parts, i)| > 0 && Pre(keys, parts, i)[|Pre(keys, parts, i)| - 1] == keys[i - 1]
    ensures i < |keys| ==> |Post(keys, parts, i)| > 0 && Post(keys, parts, i)[0] == keys[i]
  {
  }

  lemma {:induction false} KeyInPre(keys: seq<Key>, parts: seq<seq<Key>>, i: nat, j: nat)
    requires i < j <= |keys| && |parts| == |keys| + 1
    ensures keys[i] in Pre(keys, parts, j)
  {
    if i < j - 1 {
      KeyInPre(keys, parts, i, j - 1);
    }
  }

  lemma {:induction false} KeysIncreasing(t: Tree)
    requires Whole(t) && Increasing(Flat(t))
    ensures Increasing(t.keys) && forall k <- t.keys :: k in Flat(t)
  {
    if t.kids != [] {
      var ps := Parts(t);
      forall j | 0 <= j < |t.keys| ensures t.keys[j] in Flat(t) && forall i | 0 <= i < j :: t.keys[i] < t.keys[j] {
        WeaveAt(t.keys, ps, j);
        PartBounds(t.keys, ps, j);
        PartsIncreasing(Pre(t.keys, ps, j), ps[j], Post(t.keys, ps, j));
        assert Post(t.keys, ps, j)[0] in Flat(t);
        forall i | 0 <= i < j ensures t.keys[i] < t.keys[j] {
          KeyInPre(t.keys, ps, i, j);
        }
      }
    }
  }

  /** Everything left of child j is below v and everything right of it above, if its two keys are. */
  lemma {:induction false} ChildBounds(t: Tree, j: nat, v: Key)
    requires Whole(t) && t.kids != [] && j < |t.kids| && Increasing(Flat(t))
    requires (j > 0 ==> t.keys[j - 1] < v) && (j < |t.keys| ==> v < t.keys[j])
    ensures AllBelow(Pre(t.keys, Parts(t), j), v) && AllAbove(Post(t.keys, Parts(t), j), v)
    ensures Flat(t) == Pre(t.keys, Parts(t), j) + Flat(t.kids[j]) + Post(t.keys, Parts(t), j)
  {
    var ps := Parts(t);
    WeaveAt(t.keys, ps, j);
    PartBounds(t.keys, ps, j);
    var a, c := Pre(t.keys, ps, j), Post(t.keys, ps, j);
    PartsIncreasing(a, ps[j], c);
    if j > 0 {
      assert forall i | 0 <= i < |a| :: a[i] <= a[|a| - 1];
    }
    if j < |t.keys| {
      assert forall i | 0 <= i < |c| :: c[0] <= c[i];
    }
  }

  lemma {:induction false} KidKeys(t: Tree, j: nat)
    requires Whole(t) && Increasing(Flat(t)) && j < |t.kids| == |t.keys| + 1
    ensures Increasing(t.kids[j].keys)
  {
    var ps := Parts(t);
    WeaveAt(t.keys, ps, j);
    PartsIncreasing(Pre(t.keys, ps, j), ps[j], Post(t.keys, ps, j));
    KeysIncreasing(t.kids[j]);
  }

  lemma {:induction false} FrameIs(t: Tree, j: nat)
    requires Whole(t) && t.kids != [] && j < |t.kids|
    ensures var f := FrameOf(t, j);
      && FrameWhole(f) && |f.before| == j
      && Pre(f.keys, FrameParts(f), j) == Pre(t.keys, Parts(t), j)
      && Post(f.keys, FrameParts(f), j) == Post(t.keys, Parts(t), j)
  {
    var f, ps := FrameOf(t, j), Parts(t);
    var fs := FrameParts(f);
    assert fs[..j] == ps[..j] && fs[j + 1..] == ps[j + 1..];
    PreSame(f.keys, fs, t.keys, ps, j);
    PostSame(f.keys, fs, t.keys, ps, j, j);
  }

  lemma {:induction false} SidesSnoc(c: Path, f: Frame)
    requires PathWhole(c) && FrameWhole(f)
    ensures PathWhole(c + [f])
    ensures Left(c + [f]) == Left(c) + Pre(f.keys, FrameParts(f), |f.before|)
    ensures Right(c + [f]) == Post(f.keys, FrameParts(f), |f.before|) + Right(c)
  {
    var d := c + [f];
    assert PathWhole(d);
    var p, q := Pre(f.keys, FrameParts(f), |f.before|), Post(f.keys, FrameParts(f), |f.before|);
    if c == [] {
      assert d[0] == f && d[1..] == [];
      assert Left(d[1..]) == [] && Right(d[1..]) == [];
      assert Left(d) == p + [] && Right(d) == [] + q;
    } else {
      var g := c[0];
      assert PathWhole(c[1..]) && d[1..] == c[1..] + [f];
      SidesSnoc(c[1..], f);
      var a, z := Pre(g.keys, FrameParts(g), |g.before|), Post(g.keys, FrameParts(g), |g.before|);
      Regroup(a, Left(c[1..]), p);
      Regroup(q, Right(c[1..]), z);
      assert d[0] == g;
      assert Left(d) == a + Left(d[1..]);
      assert Right(d) == Right(d[1..]) + z;
    }
  }

  lemma {:induction false} Regroup(a: seq<Key>, b: seq<Key>, c: seq<Key>)
    ensures a + (b + c) == (a + b) + c
  {
  }

  /** v belongs below the end of the path, if anywhere. */
  predicate Between(c: Path, v: Key) { PathWhole(c) && AllBelow(Left(c), v) && AllAbove(Right(c), v) }

  lemma {:induction false} BetweenDown(c: Path, t: Tree, j: nat, v: Key)
    requires Between(c, v) && Whole(t) && t.kids != [] && j < |t.kids| && Increasing(Flat(t))
    requires (j > 0 ==> t.keys[j - 1] < v) && (j < |t.keys| ==> v < t.keys[j])
    ensures Between(c + [FrameOf(t, j)], v)
  {
    ChildBounds(t, j, v);
    FrameIs(t, j);
    BetweenSnoc(c, FrameOf(t, j), v);
  }

  lemma {:induction false} BetweenSnoc(c: Path, f: Frame, v: Key)
    requires Between(c, v) && FrameWhole(f)
    requires AllBelow(Pre(f.keys, FrameParts(f), |f.before|), v) && AllAbove(Post(f.keys, FrameParts(f), |f.before|), v)
    ensures Between(c + [f], v)
  {
    hide Pre, Post, Left, Right, FrameWhole, FrameParts;
    SidesSnoc(c, f);
  }
}
