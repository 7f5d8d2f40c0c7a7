/** B-tree nodes in memory, and paths from the root to the node being worked on. */
module BTreeMemory {
  import opened BTree

  const MAXKEYS: nat := 15

  /** A node: slots from length on are left over from what was there before. */
  datatype Rec = Rec(length: nat, keys: seq<Key>, children: seq<Ptr>)

  type Memory = map<Ptr, Rec>

  predicate RecOk(r: Rec) { |r.keys| == MAXKEYS && |r.children| == MAXKEYS + 1 && r.length <= MAXKEYS }

  predicate RecIs(r: Rec, t: Tree) {
    && RecOk(r) && r.length == |t.keys| && r.keys[..r.length] == t.keys
    && if t.kids == [] then r.children[0] == 0
       else |t.kids| == |t.keys| + 1 && forall i | 0 <= i < |t.kids| :: r.children[i] == t.kids[i].ptr
  }

  predicate Holds(m: Memory, t: Tree)
    decreases t
  {
    && t.ptr != 0 && t.ptr in m && RecIs(m[t.ptr], t)
    && forall i | 0 <= i < |t.kids| :: Holds(m, t.kids[i])
  }

  lemma {:induction false} InKid(t: Tree, i: nat, p: Ptr)
    requires i < |t.kids| && p in Nodes(t.kids[i])
    ensures p in Nodes(t)
  {
    AllAt(KidNodes(t), i);
  }

  /** Nodes that keep their contents keep the tree. */
  lemma {:induction false} Stays(m: Memory, m': Memory, t: Tree)
    requires Holds(m, t) && forall p <- Nodes(t) :: p in m' && (p in m ==> m'[p] == m[p])
    ensures Holds(m', t)
    decreases t
  {
    assert t.ptr in Nodes(t);
    forall i | 0 <= i < |t.kids| ensures Holds(m', t.kids[i]) {
      forall p <- Nodes(t.kids[i]) ensures p in Nodes(t) {
        InKid(t, i, p);
      }
      Stays(m, m', t.kids[i]);
    }
  }

  lemma {:induction false} InMemory(m: Memory, t: Tree, p: Ptr)
    requires Holds(m, t) && p in Nodes(t)
    ensures p in m && p != 0
    decreases t
  {
    if p != t.ptr {
      var i := WhichKid(t, p);
      InMemory(m, t.kids[i], p);
    }
  }

  lemma {:induction false} WhichKid(t: Tree, p: Ptr) returns (i: nat)
    requires p in Nodes(t) && p != t.ptr
    ensures i < |t.kids| && p in Nodes(t.kids[i])
  {
    i := WhichPart(KidNodes(t), p);
  }

  lemma {:induction false} WhichPart(ms: seq<multiset<Ptr>>, p: Ptr) returns (i: nat)
    requires p in All(ms)
    ensures i < |ms| && p in ms[i]
  {
    if p in ms[0] {
      i := 0;
    } else {
      var j := WhichPart(ms[1..], p);
      i := j + 1;
    }
  }

  /** Some address not in use. */
  method Unused(m: Memory) returns (q: Ptr)
    ensures q != 0 && q !in m
  {
    q := 1;
    while q in m
      invariant q > 0
      decreases set p | p in m && p >= q
    {
      ghost var was := set p | p in m && p >= q;
      q := q + 1;
      assert (set p | p in m && p >= q) == was - {q - 1} && q - 1 in was;
    }
  }

  // ---------- paths ----------

  /** One node of a path, open between its first and its last children. */
  datatype Frame = Frame(ptr: Ptr, keys: seq<Key>, before: seq<Tree>, after: seq<Tree>)

  type Path = seq<Frame>

  function Fill(f: Frame, t: Tree): Tree { Node(f.ptr, f.keys, f.before + [t] + f.after) }

  function Plug(c: Path, t: Tree): Tree {
    if c == [] then t else Fill(c[0], Plug(c[1..], t))
  }

  function FrameOf(t: Tree, i: nat): Frame
    requires i < |t.kids|
  {
    Frame(t.ptr, t.keys, t.kids[..i], t.kids[i + 1..])
  }

  lemma {:induction false} FillFrame(t: Tree, i: nat)
    requires i < |t.kids|
    ensures Fill(FrameOf(t, i), t.kids[i]) == t
  {
  }

  lemma {:induction false} PlugSnoc(c: Path, f: Frame, t: Tree)
    ensures Plug(c + [f], t) == Plug(c, Fill(f, t))
  {
    if c == [] {
      assert (c + [f])[1..] == [];
    } else {
      PlugSnoc(c[1..], f, t);
      assert (c + [f])[1..] == c[1..] + [f];
    }
  }

  /** The focus moves down to child i. */
  lemma {:induction false} StepDown(c: Path, t: Tree, i: nat)
    requires i < |t.kids|
    ensures Plug(c + [FrameOf(t, i)], t.kids[i]) == Plug(c, t)
  {
    FillFrame(t, i);
    PlugSnoc(c, FrameOf(t, i), t.kids[i]);
  }

  function FrameNodes(f: Frame): multiset<Ptr> {
    multiset{f.ptr} + All(seq(|f.before|, i requires 0 <= i < |f.before| => Nodes(f.before[i])))
    + All(seq(|f.after|, i requires 0 <= i < |f.after| => Nodes(f.after[i])))
  }

  function PathNodes(c: Path): multiset<Ptr> {
    if c == [] then multiset{} else FrameNodes(c[0]) + PathNodes(c[1..])
  }

  lemma {:induction false} FillNodes(f: Frame, t: Tree)
    ensures Nodes(Fill(f, t)) == FrameNodes(f) + Nodes(t)
  {
    hide All;
    var u := Fill(f, t);
    var ms, n := KidNodes(u), |f.before|;
    AllAt(ms, n);
    assert ms[..n] == seq(|f.before|, i requires 0 <= i < |f.before| => Nodes(f.before[i]));
    assert ms[n + 1..] == seq(|f.after|, i requires 0 <= i < |f.after| => Nodes(f.after[i]));
    assert ms[n] == Nodes(t);
  }

  lemma {:induction false} PlugNodes(c: Path, t: Tree)
    ensures Nodes(Plug(c, t)) == PathNodes(c) + Nodes(t)
  {
    if c != [] {
      PlugNodes(c[1..], t);
      FillNodes(c[0], Plug(c[1..], t));
    }
  }

  /** Replacing what hangs at the end of the path. */
  lemma {:induction false} PlugHolds(m: Memory, m': Memory, c: Path, t: Tree, t': Tree)
    requires Holds(m, Plug(c, t)) && Holds(m', t') && t'.ptr == t.ptr
    requires forall p <- PathNodes(c) :: p in m' && (p in m ==> m'[p] == m[p])
    ensures Holds(m', Plug(c, t'))
    decreases |c|
  {
    hide Fill, Holds, FrameNodes;
    if c != [] {
      var f, s, s' := c[0], Plug(c[1..], t), Plug(c[1..], t');
      FilledHolds(m, f, s);
      PlugPtrs(c[1..], t, t');
      PlugHolds(m, m', c[1..], t, t');
      FillHolds(m, m', f, s, s');
    }
  }

  lemma {:induction false} PlugPtrs(c: Path, t: Tree, t': Tree)
    requires t'.ptr == t.ptr
    ensures Plug(c, t').ptr == Plug(c, t).ptr
  {
  }

  lemma {:induction false} FilledHolds(m: Memory, f: Frame, s: Tree)
    requires Holds(m, Fill(f, s))
    ensures Holds(m, s)
  {
    assert Fill(f, s).kids[|f.before|] == s;
  }

  /** The same for one node of the path. */
  lemma {:induction false} FillHolds(m: Memory, m': Memory, f: Frame, s: Tree, s': Tree)
    requires Holds(m, Fill(f, s)) && Holds(m', s') && s'.ptr == s.ptr
    requires forall p <- FrameNodes(f) :: p in m' && (p in m ==> m'[p] == m[p])
    ensures Holds(m', Fill(f, s'))
  {
    var u, u' := Fill(f, s), Fill(f, s');
    forall i | 0 <= i < |u'.kids| ensures Holds(m', u'.kids[i]) && u'.kids[i].ptr == u.kids[i].ptr {
      if i != |f.before| {
        BesideHolds(m, m', f, s, i);
        assert u'.kids[i] == u.kids[i];
      }
    }
    assert f.ptr in FrameNodes(f);
  }

  lemma {:induction false} BesideHolds(m: Memory, m': Memory, f: Frame, s: Tree, i: nat)
    requires Holds(m, Fill(f, s)) && i < |Fill(f, s).kids| && i != |f.before|
    requires forall p <- FrameNodes(f) :: p in m' && (p in m ==> m'[p] == m[p])
    ensures Holds(m', Fill(f, s).kids[i])
  {
    var k := Fill(f, s).kids[i];
    forall p <- Nodes(k) ensures p in FrameNodes(f) {
      InFrame(f, i, p);
    }
    Stays(m, m', k);
  }

  lemma {:induction false} InFrame(f: Frame, i: nat, p: Ptr)
    requires i != |f.before| && i < |f.before| + 1 + |f.after|
    requires p in Nodes(if i < |f.before| then f.before[i] else f.after[i - |f.before| - 1])
    ensures p in FrameNodes(f)
  {
    if i < |f.before| {
      AllAt(seq(|f.before|, i requires 0 <= i < |f.before| => Nodes(f.before[i])), i);
    } else {
      AllAt(seq(|f.after|, i requires 0 <= i < |f.after| => Nodes(f.after[i])), i - |f.before| - 1);
    }
  }

  // ---------- keys along a path ----------

  predicate FrameWhole(f: Frame) {
    && |f.before| + |f.after| == |f.keys|
    && (forall i | 0 <= i < |f.before| :: Whole(f.before[i]))
    && (forall i | 0 <= i < |f.after| :: Whole(f.after[i]))
  }

  predicate PathWhole(c: Path) { forall i | 0 <= i < |c| :: FrameWhole(c[i]) }

  function FrameParts(f: Frame): seq<seq<Key>>
    requires FrameWhole(f)
  {
    seq(|f.before|, i requires 0 <= i < |f.before| => Flat(f.before[i])) + [[]]
    + seq(|f.after|, i requires 0 <= i < |f.after| => Flat(f.after[i]))
  }

  /** All keys to the left of the path, and to its right. */
  function Left(c: Path): seq<Key>
    requires PathWhole(c)
  {
    if c == [] then [] else Pre(c[0].keys, FrameParts(c[0]), |c[0].before|) + Left(c[1..])
  }

  function Right(c: Path): seq<Key>
    requires PathWhole(c)
  {
    if c == [] then [] else Right(c[1..]) + Post(c[0].keys, FrameParts(c[0]), |c[0].before|)
  }

  lemma {:induction false} FillFlat(f: Frame, t: Tree)
    requires FrameWhole(f) && Whole(t)
    ensures Whole(Fill(f, t))
    ensures var i, ps := |f.before|, FrameParts(f);
      Flat(Fill(f, t)) == Pre(f.keys, ps, i) + Flat(t) + Post(f.keys, ps, i)
  {
    var u := Fill(f, t);
    var i, ps := |f.before|, FrameParts(f);
    assert forall j | 0 <= j < |u.kids| ::
        u.kids[j] == if j < i then f.before[j] else if j == i then t else f.after[j - i - 1];
    var us := Parts(u);
    WeaveAt(u.keys, us, i);
    assert us[..i] == ps[..i] && us[i + 1..] == ps[i + 1..];
    PreSame(u.keys, us, f.keys, ps, i);
    PostSame(u.keys, us, f.keys, ps, i, i);
  }

  lemma {:induction false} PlugFlat(c: Path, t: Tree)
    requires PathWhole(c) && Whole(t)
    ensures Whole(Plug(c, t)) && Flat(Plug(c, t)) == Left(c) + Flat(t) + Right(c)
  {
    if c != [] {
      var f, i := c[0], |c[0].before|;
      PlugFlat(c[1..], t);
      FillFlat(f, Plug(c[1..], t));
      Regroup(Pre(f.keys, FrameParts(f), i), Left(c[1..]), Flat(t), Right(c[1..]), Post(f.keys, FrameParts(f), i));
    }
  }

  lemma {:induction false} Regroup(a: seq<Key>, b: seq<Key>, c: seq<Key>, d: seq<Key>, e: seq<Key>)
    ensures a + (b + c + d) + e == (a + b) + c + (d + e)
  {
  }

  // ---------- shape along a path ----------

  /** What a frame of a tree of height h keeps to; its open child has height h - 1. */
  predicate FrameOk(f: Frame, h: nat, lo: nat, min: nat, max: nat) {
    && h > 0 && lo <= |f.keys| <= max && |f.before| + |f.after| == |f.keys|
    && (forall i | 0 <= i < |f.before| :: Ok(f.before[i], h - 1, min, min, max))
    && (forall i | 0 <= i < |f.after| :: Ok(f.after[i], h - 1, min, min, max))
  }

  predicate PathOk(c: Path, h: nat, lo: nat, min: nat, max: nat) {
    c == [] || (FrameOk(c[0], h, lo, min, max) && PathOk(c[1..], h - 1, min, min, max))
  }

  lemma {:induction false} PlugOk(c: Path, t: Tree, h: nat, lo: nat, min: nat, max: nat)
    ensures Ok(Plug(c, t), h, lo, min, max) <==>
      PathOk(c, h, lo, min, max) && |c| <= h && Ok(t, h - |c|, if c == [] then lo else min, min, max)
  {
    if c != [] {
      var f, s := c[0], Plug(c[1..], t);
      var u := Fill(f, s);
      var n := |f.before|;
      if h > 0 {
        PlugOk(c[1..], t, h - 1, min, min, max);
        assert forall j | 0 <= j < |u.kids| ::
            u.kids[j] == if j < n then f.before[j] else if j == n then s else f.after[j - n - 1];
        if FrameOk(f, h, lo, min, max) && Ok(s, h - 1, min, min, max) {
          assert Ok(u, h, lo, min, max);
        }
        if Ok(u, h, lo, min, max) {
          assert u.kids[n] == s;
          assert forall i | 0 <= i < |f.before| :: u.kids[i] == f.before[i];
          assert forall i | 0 <= i < |f.after| :: u.kids[n + 1 + i] == f.after[i];
        }
      }
    }
  }

  lemma {:induction false} PathOkWhole(c: Path, h: nat, lo: nat, min: nat, max: nat)
    requires PathOk(c, h, lo, min, max)
    ensures PathWhole(c)
  {
    if c != [] {
      var f := c[0];
      forall i | 0 <= i < |f.before| ensures Whole(f.before[i]) {
        KidsWhole(f.before[i], h - 1, min, max);
      }
      forall i | 0 <= i < |f.after| ensures Whole(f.after[i]) {
        KidsWhole(f.after[i], h - 1, min, max);
      }
      PathOkWhole(c[1..], h - 1, min, min, max);
      assert forall i | 0 < i < |c| :: c[i] == c[1..][i - 1];
    }
  }
}
