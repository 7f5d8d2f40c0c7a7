/**
  B-trees as values.  Read from left to right a tree is a sequence of keys; splitting,
  stealing and merging change the tree but not that sequence.
*/
module BTree {

  type Key = int
  /** Zero is the null pointer. */
  type Ptr = nat

  datatype Tree = Node(ptr: Ptr, keys: seq<Key>, kids: seq<Tree>)

  // ---------- reading from left to right ----------

  /** What comes before part i when parts and keys alternate. */
  function Pre(keys: seq<Key>, parts: seq<seq<Key>>, i: nat): seq<Key>
    requires i <= |keys| && i < |parts|
  {
    if i == 0 then [] else Pre(keys, parts, i - 1) + parts[i - 1] + [keys[i - 1]]
  }

  /** And what comes after it. */
  function Post(keys: seq<Key>, parts: seq<seq<Key>>, i: nat): seq<Key>
    requires i <= |keys| && |parts| == |keys| + 1
    decreases |keys| - i
  {
    if i == |keys| then [] else [keys[i]] + parts[i + 1] + Post(keys, parts, i + 1)
  }

  function Weave(keys: seq<Key>, parts: seq<seq<Key>>): seq<Key>
    requires |parts| == |keys| + 1
  {
    parts[0] + Post(keys, parts, 0)
  }

  predicate Whole(t: Tree) {
    (t.kids == [] || |t.kids| == |t.keys| + 1) && forall i | 0 <= i < |t.kids| :: Whole(t.kids[i])
  }

  function Parts(t: Tree): (r: seq<seq<Key>>)
    requires Whole(t)
    ensures |r| == |t.kids|
    decreases t, 0
  {
    seq(|t.kids|, i requires 0 <= i < |t.kids| => Flat(t.kids[i]))
  }

  function Flat(t: Tree): seq<Key>
    requires Whole(t)
    decreases t, 1
  {
    if t.kids == [] then t.keys else Weave(t.keys, Parts(t))
  }

  predicate Increasing(s: seq<Key>) { forall i, j | 0 <= i < j < |s| :: s[i] < s[j] }

  lemma {:induction false} WeaveAt(keys: seq<Key>, parts: seq<seq<Key>>, i: nat)
    requires |parts| == |keys| + 1 && i <= |keys|
    ensures Weave(keys, parts) == Pre(keys, parts, i) + parts[i] + Post(keys, parts, i)
  {
    if i > 0 {
      WeaveAt(keys, parts, i - 1);
      var a, k, b, c := Pre(keys, parts, i - 1) + parts[i - 1], [keys[i - 1]], parts[i], Post(keys, parts, i);
      assert a + (k + b + c) == (a + k) + b + c;
    }
  }

  /** Pre looks only at what is before part i. */
  lemma {:induction false} PreSame(keys: seq<Key>, parts: seq<seq<Key>>, keys': seq<Key>, parts': seq<seq<Key>>, i: nat)
    requires i <= |keys| && i < |parts| && i <= |keys'| && i < |parts'|
    requires keys[..i] == keys'[..i] && parts[..i] == parts'[..i]
    ensures Pre(keys, parts, i) == Pre(keys', parts', i)
  {
    if i > 0 {
      assert keys[..i - 1] == keys[..i][..i - 1] && parts[..i - 1] == parts[..i][..i - 1];
      assert keys'[..i - 1] == keys'[..i][..i - 1] && parts'[..i - 1] == parts'[..i][..i - 1];
      assert keys[i - 1] == keys[..i][i - 1] && parts[i - 1] == parts[..i][i - 1];
      PreSame(keys, parts, keys', parts', i - 1);
    }
  }

  /** Post looks only at what is after part i. */
  lemma {:induction false} PostSame(keys: seq<Key>, parts: seq<seq<Key>>, keys': seq<Key>, parts': seq<seq<Key>>, i: nat,
                                    j: nat)
    requires |parts| == |keys| + 1 && |parts'| == |keys'| + 1 && i <= |keys| && j <= |keys'|
    requires keys[i..] == keys'[j..] && parts[i + 1..] == parts'[j + 1..]
    ensures Post(keys, parts, i) == Post(keys', parts', j)
    decreases |keys| - i
  {
    if i < |keys| {
      assert keys[i] == keys[i..][0] && keys'[j] == keys'[j..][0];
      assert parts[i + 1] == parts[i + 1..][0] && parts'[j + 1] == parts'[j + 1..][0];
      assert keys[i + 1..] == keys[i..][1..] && keys'[j + 1..] == keys'[j..][1..];
      assert parts[i + 2..] == parts[i + 1..][1..] && parts'[j + 2..] == parts'[j + 1..][1..];
      PostSame(keys, parts, keys', parts', i + 1, j + 1);
    }
  }

  /** Two neighbouring parts in place of one. */
  lemma {:induction false} WeaveTwo(keys: seq<Key>, parts: seq<seq<Key>>, i: nat, a: seq<Key>, k: Key, b: seq<Key>)
    requires |parts| == |keys| + 1 && i <= |keys| && parts[i] == a + [k] + b
    ensures Weave(keys[..i] + [k] + keys[i..], parts[..i] + [a, b] + parts[i + 1..]) == Weave(keys, parts)
  {
    var keys' := keys[..i] + [k] + keys[i..];
    var parts' := parts[..i] + [a, b] + parts[i + 1..];
    WeaveAt(keys, parts, i);
    WeaveAt(keys', parts', i);
    PreSame(keys, parts, keys', parts', i);
    assert keys'[i] == k && parts'[i] == a && parts'[i + 1] == b;
    PostSame(keys, parts, keys', parts', i, i + 1) by {
      assert keys[i..] == keys'[i + 1..];
      assert parts[i + 1..] == parts'[i + 2..];
    }
    var p, q := Pre(keys, parts, i), Post(keys, parts, i);
    assert p + a + ([k] + b + q) == p + (a + [k] + b) + q;
  }

  /** Keys and parts of two sequences put together around a key. */
  lemma {:induction false} WeaveJoin(keys: seq<Key>, parts: seq<seq<Key>>, m: nat)
    requires |parts| == |keys| + 1 && m < |keys|
    ensures Weave(keys, parts)
            == Weave(keys[..m], parts[..m + 1]) + [keys[m]] + Weave(keys[m + 1..], parts[m + 1..])
  {
    WeaveAt(keys, parts, m);
    WeaveAt(keys[..m], parts[..m + 1], m);
    PreSame(keys, parts, keys[..m], parts[..m + 1], m);
    var keys', parts' := keys[m + 1..], parts[m + 1..];
    PostSame(keys, parts, keys', parts', m + 1, 0);
    var p, q := Pre(keys, parts, m), Post(keys, parts, m + 1);
    assert Post(keys[..m], parts[..m + 1], m) == [];
    assert p + parts[m] + ([keys[m]] + parts[m + 1] + q) == (p + parts[m] + []) + [keys[m]] + (parts[m + 1] + q);
  }

  // ---------- shape ----------

  /** All leaves at depth h; lo to max keys here and min to max below. */
  predicate Ok(t: Tree, h: nat, lo: nat, min: nat, max: nat)
    decreases h, 1
  {
    lo <= |t.keys| <= max && Kids(t, h, min, max)
  }

  /** The same, however many keys are here. */
  predicate Kids(t: Tree, h: nat, min: nat, max: nat)
    decreases h, 0
  {
    if h == 0 then t.kids == []
    else |t.kids| == |t.keys| + 1 && forall i | 0 <= i < |t.kids| :: Ok(t.kids[i], h - 1, min, min, max)
  }

  lemma {:induction false} KidsWhole(t: Tree, h: nat, min: nat, max: nat)
    requires Kids(t, h, min, max)
    ensures Whole(t)
    decreases h
  {
    forall i | 0 <= i < |t.kids| ensures Whole(t.kids[i]) {
      assert Ok(t.kids[i], h - 1, min, min, max);
      KidsWhole(t.kids[i], h - 1, min, max);
    }
  }

  lemma {:induction false} KidCount(t: Tree, h: nat, min: nat, max: nat)
    requires Kids(t, h, min, max) && h > 0
    ensures |t.kids| == |t.keys| + 1
  {
  }

  lemma {:induction false} KidsAt(t: Tree, h: nat, min: nat, max: nat, i: nat)
    requires Kids(t, h, min, max) && i < |t.kids|
    ensures h > 0 && Ok(t.kids[i], h - 1, min, min, max)
    ensures if h == 1 then t.kids[i].kids == [] else |t.kids[i].kids| == |t.kids[i].keys| + 1
  {
    var c := t.kids[i];
    assert Ok(c, h - 1, min, min, max);
    assert Kids(c, h - 1, min, max);
    assert h > 1 ==> |c.kids| == |c.keys| + 1;
  }

  // ---------- the nodes of a tree ----------

  function All(ms: seq<multiset<Ptr>>): multiset<Ptr> { if ms == [] then multiset{} else ms[0] + All(ms[1..]) }

  function Nodes(t: Tree): multiset<Ptr>
    decreases t, 1
  {
    multiset{t.ptr} + All(KidNodes(t))
  }

  function KidNodes(t: Tree): (r: seq<multiset<Ptr>>)
    ensures |r| == |t.kids|
    decreases t, 0
  {
    seq(|t.kids|, i requires 0 <= i < |t.kids| => Nodes(t.kids[i]))
  }

  /** No node occurs twice. */
  ghost predicate Distinct(t: Tree) { forall p :: Nodes(t)[p] <= 1 }

  lemma {:induction false} AllConcat(a: seq<multiset<Ptr>>, b: seq<multiset<Ptr>>)
    ensures All(a + b) == All(a) + All(b)
  {
    if a == [] {
      assert a + b == b;
    } else {
      assert (a + b)[1..] == a[1..] + b;
      AllConcat(a[1..], b);
    }
  }

  /** A node's children are distinct and share no node with each other or with it. */
  lemma {:induction false} DistinctKids(t: Tree, i: nat)
    requires Distinct(t) && i < |t.kids|
    ensures Distinct(t.kids[i]) && t.ptr !in Nodes(t.kids[i])
    ensures forall j: nat | j < |t.kids| && j != i :: Nodes(t.kids[i]) !! Nodes(t.kids[j])
  {
    var ms := KidNodes(t);
    AllAt(ms, i);
    forall j: nat | j < |t.kids| && j != i ensures Nodes(t.kids[i]) !! Nodes(t.kids[j]) {
      AllTwo(ms, if i < j then i else j, if i < j then j else i);
      forall p ensures !(p in Nodes(t.kids[i]) && p in Nodes(t.kids[j])) {
        assert Nodes(t)[p] <= 1;
      }
    }
    forall p ensures Nodes(t.kids[i])[p] <= 1 && t.ptr !in Nodes(t.kids[i]) {
      assert Nodes(t)[p] <= 1 && Nodes(t)[t.ptr] <= 1;
    }
  }

  lemma {:induction false} AllAt(ms: seq<multiset<Ptr>>, i: nat)
    requires i < |ms|
    ensures All(ms) == All(ms[..i]) + ms[i] + All(ms[i + 1..])
  {
    assert ms == ms[..i] + ([ms[i]] + ms[i + 1..]);
    AllConcat(ms[..i], [ms[i]] + ms[i + 1..]);
    assert ([ms[i]] + ms[i + 1..])[1..] == ms[i + 1..];
  }

  lemma {:induction false} AllTwo(ms: seq<multiset<Ptr>>, i: nat, j: nat)
    requires i < j < |ms|
    ensures ms[i] + ms[j] <= All(ms)
  {
    AllAt(ms, i);
    AllAt(ms[i + 1..], j - i - 1);
  }

  // ---------- splitting and merging ----------

  /** The first m keys of a node, with the children between them. */
  function Front(c: Tree, m: nat): Tree
    requires m < |c.keys| && (c.kids == [] || |c.kids| == |c.keys| + 1)
  {
    Node(c.ptr, c.keys[..m], if c.kids == [] then [] else c.kids[..m + 1])
  }

  /** The keys after the m-th, as node q. */
  function Back(c: Tree, m: nat, q: Ptr): Tree
    requires m < |c.keys| && (c.kids == [] || |c.kids| == |c.keys| + 1)
  {
    Node(q, c.keys[m + 1..], if c.kids == [] then [] else c.kids[m + 1..])
  }

  /** Key m of child i comes up, between the two halves of that child. */
  function Split(t: Tree, i: nat, m: nat, q: Ptr): Tree
    requires i < |t.kids| && i <= |t.keys| && m < |t.kids[i].keys|
    requires t.kids[i].kids == [] || |t.kids[i].kids| == |t.kids[i].keys| + 1
  {
    var c := t.kids[i];
    Node(t.ptr, t.keys[..i] + [c.keys[m]] + t.keys[i..], t.kids[..i] + [Front(c, m), Back(c, m, q)] + t.kids[i + 1..])
  }

  /** Child i takes up key i and child i + 1. */
  function Merge(t: Tree, i: nat): Tree
    requires i + 1 < |t.kids| && i < |t.keys|
  {
    var l, r := t.kids[i], t.kids[i + 1];
    Node(t.ptr, t.keys[..i] + t.keys[i + 1..],
         t.kids[..i] + [Node(l.ptr, l.keys + [t.keys[i]] + r.keys, l.kids + r.kids)] + t.kids[i + 2..])
  }

  lemma {:induction false} FlatTwo(c: Tree, m: nat, q: Ptr)
    requires Whole(c) && m < |c.keys|
    ensures Whole(Front(c, m)) && Whole(Back(c, m, q))
    ensures Flat(c) == Flat(Front(c, m)) + [c.keys[m]] + Flat(Back(c, m, q))
  {
    if c.kids != [] {
      WeaveJoin(c.keys, Parts(c), m);
      assert Parts(Front(c, m)) == Parts(c)[..m + 1];
      assert Parts(Back(c, m, q)) == Parts(c)[m + 1..];
    }
  }

  lemma {:induction false} SplitFlat(t: Tree, i: nat, m: nat, q: Ptr)
    requires Whole(t) && i < |t.kids| && m < |t.kids[i].keys|
    ensures Whole(t.kids[i]) && Whole(Split(t, i, m, q)) && Flat(Split(t, i, m, q)) == Flat(t)
  {
    var c := t.kids[i];
    var u := Split(t, i, m, q);
    FlatTwo(c, m, q);
    assert Parts(t)[i] == Flat(c);
    WeaveTwo(t.keys, Parts(t), i, Flat(Front(c, m)), c.keys[m], Flat(Back(c, m, q)));
    forall j | 0 <= j < |u.kids| ensures Whole(u.kids[j]) {
      assert u.kids[j] == Front(c, m) || u.kids[j] == Back(c, m, q) || u.kids[j] in t.kids;
    }
    assert Parts(u) == Parts(t)[..i] + [Flat(Front(c, m)), Flat(Back(c, m, q))] + Parts(t)[i + 1..];
  }

  /** Splitting where it was merged restores the tree. */
  lemma {:induction false} SplitUndoesMerge(t: Tree, i: nat)
    requires i + 1 < |t.kids| && |t.kids| == |t.keys| + 1
    requires var l, r := t.kids[i], t.kids[i + 1];
      || (l.kids == [] && r.kids == [])
      || (|l.kids| == |l.keys| + 1 && |r.kids| == |r.keys| + 1)
    ensures var u := Merge(t, i);
      && (u.kids[i].kids == [] || |u.kids[i].kids| == |u.kids[i].keys| + 1)
      && Split(u, i, |t.kids[i].keys|, t.kids[i + 1].ptr) == t
  {
    var l, r := t.kids[i], t.kids[i + 1];
    var u := Merge(t, i);
    var c := u.kids[i];
    var m := |l.keys|;
    assert c.keys[..m] == l.keys && c.keys[m] == t.keys[i] && c.keys[m + 1..] == r.keys;
    assert l.kids != [] ==> c.kids[..m + 1] == l.kids && c.kids[m + 1..] == r.kids;
    assert Front(c, m) == l && Back(c, m, r.ptr) == r;
    assert u.keys[..i] + [c.keys[m]] + u.keys[i..] == t.keys;
    assert u.kids[..i] + [l, r] + u.kids[i + 1..] == t.kids;
  }

  lemma {:induction false} MergeFlat(t: Tree, i: nat)
    requires Whole(t) && i + 1 < |t.kids| && (t.kids[i].kids == [] <==> t.kids[i + 1].kids == [])
    ensures Whole(Merge(t, i)) && Flat(Merge(t, i)) == Flat(t)
  {
    var u := Merge(t, i);
    var l, r := t.kids[i], t.kids[i + 1];
    var c := u.kids[i];
    assert forall j | 0 <= j < |c.kids| :: c.kids[j] == (if j < |l.kids| then l.kids[j] else r.kids[j - |l.kids|]);
    forall j | 0 <= j < |u.kids| ensures Whole(u.kids[j]) {
      assert u.kids[j] == c || u.kids[j] in t.kids;
    }
    SplitUndoesMerge(t, i);
    SplitFlat(u, i, |l.keys|, r.ptr);
  }

  // ---------- shape and pointers of both ----------

  lemma {:induction false} SplitOk(t: Tree, h: nat, min: nat, max: nat, i: nat, m: nat, q: Ptr)
    requires h > 0 && |t.kids| == |t.keys| + 1 && i < |t.kids|
    requires forall j | 0 <= j < |t.kids| && j != i :: Ok(t.kids[j], h - 1, min, min, max)
    requires Kids(t.kids[i], h - 1, min, max) && min <= m <= max && min + m < |t.kids[i].keys| <= m + 1 + max
    ensures Kids(Split(t, i, m, q), h, min, max)
  {
    var c := t.kids[i];
    var u := Split(t, i, m, q);
    var f, b := Front(c, m), Back(c, m, q);
    assert forall j | 0 <= j < |f.kids| :: f.kids[j] == c.kids[j];
    assert forall j | 0 <= j < |b.kids| :: b.kids[j] == c.kids[m + 1 + j];
    assert Ok(f, h - 1, min, min, max);
    assert Ok(b, h - 1, min, min, max);
    forall j | 0 <= j < |u.kids| ensures Ok(u.kids[j], h - 1, min, min, max) {
      assert u.kids[j] == if j < i then t.kids[j] else if j == i then f else if j == i + 1 then b else t.kids[j - 1];
    }
  }

  lemma {:induction false} MergeOk(t: Tree, h: nat, min: nat, max: nat, i: nat)
    requires h > 0 && Kids(t, h, min, max) && i < |t.keys|
    ensures var u := Merge(t, i);
      && |u.kids| == |u.keys| + 1 == |t.keys| && Kids(u.kids[i], h - 1, min, max)
      && |u.kids[i].keys| == |t.kids[i].keys| + 1 + |t.kids[i + 1].keys|
      && (forall j | 0 <= j < |u.kids| && j != i :: Ok(u.kids[j], h - 1, min, min, max))
  {
    var u := Merge(t, i);
    var l, r := t.kids[i], t.kids[i + 1];
    assert Ok(l, h - 1, min, min, max) && Ok(r, h - 1, min, min, max);
    var c := u.kids[i];
    KidsAt(t, h, min, max, i);
    KidsAt(t, h, min, max, i + 1);
    forall j | 0 <= j < |c.kids| ensures h > 1 && Ok(c.kids[j], h - 2, min, min, max) {
      assert c.kids[j] == if j < |l.kids| then l.kids[j] else r.kids[j - |l.kids|];
    }
    forall j | 0 <= j < |u.kids| && j != i ensures Ok(u.kids[j], h - 1, min, min, max) {
      assert u.kids[j] == if j < i then t.kids[j] else t.kids[j + 1];
    }
  }

  lemma {:induction false} TwoNodes(c: Tree, m: nat, q: Ptr)
    requires m < |c.keys| && (c.kids == [] || |c.kids| == |c.keys| + 1)
    ensures Nodes(Front(c, m)) + Nodes(Back(c, m, q)) == Nodes(c) + multiset{q}
  {
    var f, b := Front(c, m), Back(c, m, q);
    assert KidNodes(c) == KidNodes(f) + KidNodes(b);
    AllConcat(KidNodes(f), KidNodes(b));
  }

  lemma {:induction false} SplitNodes(t: Tree, i: nat, m: nat, q: Ptr)
    requires i < |t.kids| && i <= |t.keys| && m < |t.kids[i].keys|
    requires t.kids[i].kids == [] || |t.kids[i].kids| == |t.kids[i].keys| + 1
    ensures Nodes(Split(t, i, m, q)) == Nodes(t) + multiset{q}
  {
    var c := t.kids[i];
    var f, b := Front(c, m), Back(c, m, q);
    TwoNodes(c, m, q);
    SplitKidNodes(t, i, m, q);
    ReplaceTwo(KidNodes(t), i, Nodes(f), Nodes(b), multiset{q});
  }

  lemma {:induction false} SplitKidNodes(t: Tree, i: nat, m: nat, q: Ptr)
    requires i < |t.kids| && i <= |t.keys| && m < |t.kids[i].keys|
    requires t.kids[i].kids == [] || |t.kids[i].kids| == |t.kids[i].keys| + 1
    ensures var c := t.kids[i];
      KidNodes(Split(t, i, m, q))
      == KidNodes(t)[..i] + [Nodes(Front(c, m)), Nodes(Back(c, m, q))] + KidNodes(t)[i + 1..]
  {
    var c := t.kids[i];
    var u := Split(t, i, m, q);
    ReplacedKids(t, u, i, Front(c, m), Back(c, m, q));
  }

  lemma {:induction false} ReplacedKids(t: Tree, u: Tree, i: nat, f: Tree, b: Tree)
    requires i < |t.kids| && u.kids == t.kids[..i] + [f, b] + t.kids[i + 1..]
    ensures KidNodes(u) == KidNodes(t)[..i] + [Nodes(f), Nodes(b)] + KidNodes(t)[i + 1..]
  {
    hide Nodes;
    var ms, ns := KidNodes(u), KidNodes(t)[..i] + [Nodes(f), Nodes(b)] + KidNodes(t)[i + 1..];
    forall j | 0 <= j < |ns| ensures ms[j] == ns[j] {
      assert u.kids[j] == if j < i then t.kids[j] else if j == i then f else if j == i + 1 then b else t.kids[j - 1];
    }
  }

  lemma {:induction false} ReplaceTwo(ms: seq<multiset<Ptr>>, i: nat, a: multiset<Ptr>, b: multiset<Ptr>, extra: multiset<Ptr>)
    requires i < |ms| && a + b == ms[i] + extra
    ensures All(ms[..i] + [a, b] + ms[i + 1..]) == All(ms) + extra
  {
    var x, y := ms[..i], ms[i + 1..];
    AllAt(ms, i);
    AllConcat(x + [a, b], y);
    AllConcat(x, [a, b]);
    AllPair(a, b);
  }

  lemma {:induction false} AllPair(a: multiset<Ptr>, b: multiset<Ptr>)
    ensures All([a, b]) == a + b
  {
    assert [a, b][1..] == [b] && [b][1..] == [];
    assert All([b]) == b + All([]);
  }

  lemma {:induction false} MergeNodes(t: Tree, i: nat)
    requires i + 1 < |t.kids| == |t.keys| + 1
    requires var l, r := t.kids[i], t.kids[i + 1];
      || (l.kids == [] && r.kids == [])
      || (|l.kids| == |l.keys| + 1 && |r.kids| == |r.keys| + 1)
    ensures Nodes(Merge(t, i)) + multiset{t.kids[i + 1].ptr} == Nodes(t)
  {
    SplitUndoesMerge(t, i);
    SplitNodes(Merge(t, i), i, |t.kids[i].keys|, t.kids[i + 1].ptr);
  }

  // ---------- making room for a removal ----------

  /** Both leaves, or both with children. */
  predicate Alike(l: Tree, r: Tree) {
    || (l.kids == [] && r.kids == [])
    || (|l.kids| == |l.keys| + 1 && |r.kids| == |r.keys| + 1)
  }

  /** Key i - 1 goes down to the right and the last of child i - 1 comes up. */
  function StealLeft(t: Tree, i: nat): Tree
    requires 0 < i < |t.kids| == |t.keys| + 1 && |t.kids[i - 1].keys| > 0 && Alike(t.kids[i - 1], t.kids[i])
  {
    Split(Merge(t, i - 1), i - 1, |t.kids[i - 1].keys| - 1, t.kids[i].ptr)
  }

  /** Key i goes down to the left and the first of child i + 1 comes up. */
  function StealRight(t: Tree, i: nat): Tree
    requires i + 1 < |t.kids| == |t.keys| + 1 && |t.kids[i + 1].keys| > 0 && Alike(t.kids[i], t.kids[i + 1])
  {
    Split(Merge(t, i), i, |t.kids[i].keys| + 1, t.kids[i + 1].ptr)
  }

  predicate KidsAlike(t: Tree) { forall i | 0 <= i < |t.kids| - 1 :: Alike(t.kids[i], t.kids[i + 1]) }

  lemma {:induction false} KidsAreAlike(t: Tree, h: nat, min: nat, max: nat)
    requires Kids(t, h, min, max)
    ensures KidsAlike(t)
  {
    forall i | 0 <= i < |t.kids| - 1 ensures Alike(t.kids[i], t.kids[i + 1]) {
      KidsAt(t, h, min, max, i);
      KidsAt(t, h, min, max, i + 1);
    }
  }

  /** ensureChildRemove: the tree after it, and where the child is now. */
  function Ensure(t: Tree, i: nat, min: nat): (Tree, nat)
    requires i < |t.kids| == |t.keys| + 1 && |t.keys| > 0 && KidsAlike(t)
  {
    assert i > 0 ==> Alike(t.kids[i - 1], t.kids[i - 1 + 1]);
    assert i < |t.keys| ==> Alike(t.kids[i], t.kids[i + 1]);
    if |t.kids[i].keys| > min then (t, i)
    else if i > 0 && |t.kids[i - 1].keys| > min then (StealLeft(t, i), i)
    else if i < |t.keys| && |t.kids[i + 1].keys| > min then (StealRight(t, i), i)
    else if i > 0 then (Merge(t, i - 1), i - 1)
    else (Merge(t, i), i)
  }

  /** Merging two children and splitting them again elsewhere only moves keys between them. */
  lemma {:induction false} Rotate(t: Tree, i: nat, m: nat, h: nat, min: nat, max: nat)
    requires h > 0 && Kids(t, h, min, max) && Distinct(t) && i + 1 < |t.kids|
    requires var n := |t.kids[i].keys| + 1 + |t.kids[i + 1].keys|; min <= m <= max && min + m < n <= m + 1 + max
    ensures |t.kids| == |t.keys| + 1 && Alike(t.kids[i], t.kids[i + 1]) && Whole(t)
    ensures var u := Split(Merge(t, i), i, m, t.kids[i + 1].ptr);
      && Kids(u, h, min, max) && |u.keys| == |t.keys| && |u.kids| == |t.kids|
      && |u.kids[i].keys| == m && |u.kids[i + 1].keys| == |t.kids[i].keys| + |t.kids[i + 1].keys| - m
      && Whole(u) && Flat(u) == Flat(t) && Nodes(u) == Nodes(t)
  {
    hide Flat, Nodes;
    KidsWhole(t, h, min, max);
    KidsAt(t, h, min, max, i);
    KidsAt(t, h, min, max, i + 1);
    MergeOk(t, h, min, max, i);
    MergeFlat(t, i);
    MergeNodes(t, i);
    var v := Merge(t, i);
    SplitOk(v, h, min, max, i, m, t.kids[i + 1].ptr);
    SplitFlat(v, i, m, t.kids[i + 1].ptr);
    SplitNodes(v, i, m, t.kids[i + 1].ptr);
  }

  lemma {:induction false} LeftRotates(t: Tree, i: nat)
    requires 0 < i < |t.kids| == |t.keys| + 1 && |t.kids[i - 1].keys| > 0 && Alike(t.kids[i - 1], t.kids[i])
    ensures StealLeft(t, i) == Split(Merge(t, i - 1), i - 1, |t.kids[i - 1].keys| - 1, t.kids[i].ptr)
  {
  }

  lemma {:induction false} RightRotates(t: Tree, i: nat)
    requires i + 1 < |t.kids| == |t.keys| + 1 && |t.kids[i + 1].keys| > 0 && Alike(t.kids[i], t.kids[i + 1])
    ensures StealRight(t, i) == Split(Merge(t, i), i, |t.kids[i].keys| + 1, t.kids[i + 1].ptr)
  {
  }

  lemma {:induction false} StealLeftKeeps(t: Tree, i: nat, h: nat, min: nat, max: nat)
    requires h > 0 && Kids(t, h, min, max) && Distinct(t)
    requires 0 < i < |t.kids| && |t.kids[i - 1].keys| > min && |t.kids[i].keys| == min < max
    ensures Alike(t.kids[i - 1], t.kids[i]) && Whole(t)
    ensures var u := StealLeft(t, i);
      && Kids(u, h, min, max) && |u.keys| == |t.keys| && |u.kids[i].keys| == min + 1
      && Whole(u) && Flat(u) == Flat(t) && Nodes(u) == Nodes(t)
  {
    hide Increasing, KidsAlike, Pre, Ensure;
    KidsAt(t, h, min, max, i - 1);
    hide *;
    var j: nat := i - 1;
    Rotate(t, j, |t.kids[j].keys| - 1, h, min, max);
    LeftRotates(t, i);
  }

  lemma {:induction false} StealRightKeeps(t: Tree, i: nat, h: nat, min: nat, max: nat)
    requires h > 0 && Kids(t, h, min, max) && Distinct(t)
    requires i + 1 < |t.kids| && |t.kids[i + 1].keys| > min && |t.kids[i].keys| == min < max
    ensures Alike(t.kids[i], t.kids[i + 1]) && Whole(t)
    ensures var u := StealRight(t, i);
      && Kids(u, h, min, max) && |u.keys| == |t.keys| && |u.kids[i].keys| == min + 1
      && Whole(u) && Flat(u) == Flat(t) && Nodes(u) == Nodes(t)
  {
    KidsAt(t, h, min, max, i + 1);
    hide *;
    Rotate(t, i, min + 1, h, min, max);
    RightRotates(t, i);
  }

  lemma {:induction false} MergeKeeps(t: Tree, i: nat, h: nat, min: nat, max: nat)
    requires h > 0 && Kids(t, h, min, max) && i + 1 < |t.kids|
    requires |t.kids[i].keys| == |t.kids[i + 1].keys| == min && max == 2 * min + 1
    ensures Alike(t.kids[i], t.kids[i + 1]) && Whole(t)
    ensures var u := Merge(t, i);
      && Kids(u, h, min, max) && |u.keys| == |t.keys| - 1 && |u.kids[i].keys| == max
      && Whole(u) && Flat(u) == Flat(t) && Nodes(u) + multiset{t.kids[i + 1].ptr} == Nodes(t)
  {
    KidsWhole(t, h, min, max);
    KidsAt(t, h, min, max, i);
    KidsAt(t, h, min, max, i + 1);
    MergeOk(t, h, min, max, i);
    MergeFlat(t, i);
    MergeNodes(t, i);
  }

  /** The child now has a key to spare, at the cost of at most one key here; nothing else shows. */
  lemma {:induction false} EnsureKeeps(t: Tree, i: nat, h: nat, min: nat, max: nat)
    requires h > 0 && Kids(t, h, min, max) && Distinct(t) && i < |t.kids| && |t.keys| > 0 && max == 2 * min + 1
    ensures KidsAlike(t) && Whole(t)
    ensures var (u, j) := Ensure(t, i, min);
      && Kids(u, h, min, max) && |t.keys| - 1 <= |u.keys| <= |t.keys| && j < |u.kids| && min < |u.kids[j].keys|
      && (i == 0 ==> j == 0) && (i == |t.keys| ==> j == |u.keys|) && u.ptr == t.ptr
      && Whole(u) && Flat(u) == Flat(t) && Nodes(u) <= Nodes(t)
  {
    hide Flat, Nodes;
    KidsAreAlike(t, h, min, max);
    KidsWhole(t, h, min, max);
    KidsAt(t, h, min, max, i);
    if i > 0 { KidsAt(t, h, min, max, i - 1); }
    if i < |t.keys| { KidsAt(t, h, min, max, i + 1); }
    if |t.kids[i].keys| > min {
    } else if i > 0 && |t.kids[i - 1].keys| > min {
      StealLeftKeeps(t, i, h, min, max);
    } else if i < |t.keys| && |t.kids[i + 1].keys| > min {
      StealRightKeeps(t, i, h, min, max);
    } else {
      MergeKeeps(t, if i > 0 then i - 1 else i, h, min, max);
    }
  }
}
