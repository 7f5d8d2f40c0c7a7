/** What stores to a node's slots make of the tree: a key put in, halves split off, two nodes joined. */
module BTreeNodes {
  import opened BTree
  import opened BTreeMemory

  /** After stores to a node and two of its children, everything below and beside them still holds. */
  lemma {:induction false} BesideTwo(m: Memory, m': Memory, t: Tree, a: nat, b: nat)
    requires Holds(m, t) && Distinct(t) && a < |t.kids| && b < |t.kids| && a != b
    requires forall r <- m | r != t.ptr && r != t.kids[a].ptr && r != t.kids[b].ptr :: r in m' && m'[r] == m[r]
    ensures forall j | 0 <= j < |t.kids| && j != a && j != b :: Holds(m', t.kids[j])
    ensures forall j | 0 <= j < |t.kids[a].kids| :: Holds(m', t.kids[a].kids[j])
    ensures forall j | 0 <= j < |t.kids[b].kids| :: Holds(m', t.kids[b].kids[j])
  {
    hide Nodes, All, RecIs;
    var stored := {t.ptr, t.kids[a].ptr, t.kids[b].ptr};
    StoredApart(t, a, b);
    forall j: nat | j < |t.kids| && j != a && j != b ensures Holds(m', t.kids[j]) {
      Untouched(m, m', t.kids[j], stored);
    }
    forall j: nat | j < |t.kids[a].kids| ensures Holds(m', t.kids[a].kids[j]) {
      BelowKid(m, m', t, a, j, stored);
    }
    forall j: nat | j < |t.kids[b].kids| ensures Holds(m', t.kids[b].kids[j]) {
      BelowKid(m, m', t, b, j, stored);
    }
  }

  lemma {:induction false} StoredApart(t: Tree, a: nat, b: nat)
    requires Distinct(t) && a < |t.kids| && b < |t.kids| && a != b
    ensures t.ptr !in Nodes(t.kids[a]) && t.ptr !in Nodes(t.kids[b])
    ensures t.kids[a].ptr !in Nodes(t.kids[b]) && t.kids[b].ptr !in Nodes(t.kids[a])
    ensures forall j: nat | j < |t.kids| && j != a && j != b ::
      t.ptr !in Nodes(t.kids[j]) && t.kids[a].ptr !in Nodes(t.kids[j]) && t.kids[b].ptr !in Nodes(t.kids[j])
  {
    DistinctKids(t, a);
    DistinctKids(t, b);
    assert t.kids[a].ptr in Nodes(t.kids[a]) && t.kids[b].ptr in Nodes(t.kids[b]);
    forall j: nat | j < |t.kids| && j != a && j != b ensures t.ptr !in Nodes(t.kids[j]) {
      DistinctKids(t, j);
    }
  }

  lemma {:induction false} Untouched(m: Memory, m': Memory, t: Tree, stored: set<Ptr>)
    requires Holds(m, t) && (forall p <- stored :: p !in Nodes(t))
    requires forall r <- m | r !in stored :: r in m' && m'[r] == m[r]
    ensures Holds(m', t)
  {
    forall p <- Nodes(t) ensures p in m' && (p in m ==> m'[p] == m[p]) {
      InMemory(m, t, p);
    }
    Stays(m, m', t);
  }

  lemma {:induction false} BelowKid(m: Memory, m': Memory, t: Tree, a: nat, j: nat, stored: set<Ptr>)
    requires Holds(m, t) && Distinct(t) && a < |t.kids| && j < |t.kids[a].kids|
    requires forall p <- stored :: p == t.ptr || p == t.kids[a].ptr || p !in Nodes(t.kids[a])
    requires forall r <- m | r !in stored :: r in m' && m'[r] == m[r]
    ensures Holds(m', t.kids[a].kids[j])
  {
    var c := t.kids[a];
    DistinctKids(t, a);
    DistinctKids(c, j);
    forall p <- stored ensures p !in Nodes(c.kids[j]) {
      if p in Nodes(c.kids[j]) {
        InKid(c, j, p);
      }
    }
    Untouched(m, m', c.kids[j], stored);
  }

  // ---------- merging ----------

  /** r' is r without key i and the child after it. */
  predicate SlotClosed(r: Rec, r': Rec, i: nat) {
    && RecOk(r) && RecOk(r') && i < r.length && r'.length == r.length - 1
    && (forall k | 0 <= k < i :: r'.keys[k] == r.keys[k])
    && (forall k | i <= k < r'.length :: r'.keys[k] == r.keys[k + 1])
    && (forall k | 0 <= k <= i :: r'.children[k] == r.children[k])
    && (forall k | i < k <= r'.length :: r'.children[k] == r.children[k + 1])
  }

  lemma {:induction false} IsMergedParent(r: Rec, r': Rec, t: Tree, i: nat)
    requires RecIs(r, t) && i + 1 < |t.kids| && SlotClosed(r, r', i)
    ensures RecIs(r', Merge(t, i))
  {
    var u := Merge(t, i);
    assert forall k | 0 <= k < |t.keys| :: r.keys[k] == t.keys[k];
    forall j | 0 <= j < |u.kids| ensures r'.children[j] == u.kids[j].ptr {
      assert j > i ==> u.kids[j] == t.kids[j + 1];
    }
  }

  /** r' is l followed by a key and r. */
  predicate Joined(l: Rec, r: Rec, r': Rec, key: Key, leaf: bool) {
    && RecOk(l) && RecOk(r) && RecOk(r') && r'.length == l.length + 1 + r.length && r'.keys[l.length] == key
    && (forall k | 0 <= k < l.length :: r'.keys[k] == l.keys[k])
    && (forall k | 0 <= k < r.length :: r'.keys[l.length + 1 + k] == r.keys[k])
    && (forall k | 0 <= k <= l.length :: r'.children[k] == l.children[k])
    && (!leaf ==> forall k | 0 <= k <= r.length :: r'.children[l.length + 1 + k] == r.children[k])
  }

  lemma {:induction false} IsJoined(l: Rec, r: Rec, r': Rec, tl: Tree, tr: Tree, key: Key)
    requires RecIs(l, tl) && RecIs(r, tr) && (tl.kids == [] <==> tr.kids == []) && Joined(l, r, r', key, tl.kids == [])
    ensures RecIs(r', Node(tl.ptr, tl.keys + [key] + tr.keys, tl.kids + tr.kids))
  {
    var keys, kids := tl.keys + [key] + tr.keys, tl.kids + tr.kids;
    JoinedKeys(l, r, r', tl, tr, key);
    if kids != [] {
      forall k | 0 <= k < |kids| ensures r'.children[k] == kids[k].ptr {
        if k > |tl.keys| {
          assert r'.children[l.length + 1 + (k - l.length - 1)] == r.children[k - l.length - 1];
        }
      }
    }
  }

  lemma {:induction false} JoinedKeys(l: Rec, r: Rec, r': Rec, tl: Tree, tr: Tree, key: Key)
    requires RecIs(l, tl) && RecIs(r, tr) && Joined(l, r, r', key, tl.kids == [])
    ensures r'.keys[..r'.length] == tl.keys + [key] + tr.keys
  {
    var keys := tl.keys + [key] + tr.keys;
    assert forall k | 0 <= k < |tl.keys| :: l.keys[k] == tl.keys[k];
    assert forall k | 0 <= k < |tr.keys| :: r.keys[k] == tr.keys[k];
    hide RecIs;
    forall k | 0 <= k < |keys| ensures r'.keys[k] == keys[k] {
      if k > |tl.keys| {
        assert r'.keys[l.length + 1 + (k - l.length - 1)] == r.keys[k - l.length - 1];
      }
    }
  }

  lemma {:induction false} MergeHolds(m: Memory, m': Memory, t: Tree, i: nat)
    requires Holds(m, t) && Distinct(t) && i + 1 < |t.kids| == |t.keys| + 1
    requires var l, r := t.kids[i], t.kids[i + 1];
      && t.ptr in m' && l.ptr in m' && RecIs(m'[t.ptr], Merge(t, i))
      && RecIs(m'[l.ptr], Node(l.ptr, l.keys + [t.keys[i]] + r.keys, l.kids + r.kids))
      && (forall q <- m | q != t.ptr && q != l.ptr && q != r.ptr :: q in m' && m'[q] == m[q])
    ensures Holds(m', Merge(t, i))
  {
    var u := Merge(t, i);
    var l, r := t.kids[i], t.kids[i + 1];
    BesideTwo(m, m', t, i, i + 1);
    var c := u.kids[i];
    assert forall j | 0 <= j < |c.kids| :: c.kids[j] == if j < |l.kids| then l.kids[j] else r.kids[j - |l.kids|];
    assert Holds(m, l);
    assert Holds(m', c);
    forall j | 0 <= j < |u.kids| ensures Holds(m', u.kids[j]) {
      assert u.kids[j] == if j < i then t.kids[j] else if j == i then c else t.kids[j + 1];
    }
  }

  // ---------- stealing ----------

  lemma {:induction false} StealLeftIs(t: Tree, i: nat)
    requires 0 < i < |t.kids| == |t.keys| + 1 && |t.kids[i - 1].keys| > 0 && Alike(t.kids[i - 1], t.kids[i])
    ensures var l, c := t.kids[i - 1], t.kids[i];
      var n := |l.keys|;
      StealLeft(t, i) ==
        Node(t.ptr, t.keys[i - 1 := l.keys[n - 1]],
             t.kids[i - 1 := Node(l.ptr, l.keys[..n - 1], if l.kids == [] then [] else l.kids[..n])]
               [i := Node(c.ptr, [t.keys[i - 1]] + c.keys, if l.kids == [] then [] else [l.kids[n]] + c.kids)])
  {
    var o: nat := i - 1;
    var l, c := t.kids[o], t.kids[i];
    var n := |l.keys|;
    var v := Merge(t, o);
    var j := v.kids[o];
    LastParts(l, c, t.keys[o]);
    KidsOfSteal(t, o, Front(j, n - 1), Back(j, n - 1, c.ptr));
    assert v.keys[..o] + [l.keys[n - 1]] + v.keys[o..] == t.keys[o := l.keys[n - 1]];
  }

  lemma {:induction false} LastParts(l: Tree, c: Tree, k: Key)
    requires Alike(l, c) && |l.keys| > 0
    ensures var j, n := Node(l.ptr, l.keys + [k] + c.keys, l.kids + c.kids), |l.keys|;
      && (j.kids == [] || |j.kids| == |j.keys| + 1) && j.keys[n - 1] == l.keys[n - 1]
      && Front(j, n - 1) == Node(l.ptr, l.keys[..n - 1], if l.kids == [] then [] else l.kids[..n])
      && Back(j, n - 1, c.ptr) == Node(c.ptr, [k] + c.keys, if l.kids == [] then [] else [l.kids[n]] + c.kids)
  {
    var j, n := Node(l.ptr, l.keys + [k] + c.keys, l.kids + c.kids), |l.keys|;
    assert j.keys[..n - 1] == l.keys[..n - 1];
    assert j.keys[n..] == [k] + c.keys;
    assert l.kids != [] ==> j.kids[..n] == l.kids[..n];
    assert l.kids != [] ==> j.kids[n..] == [l.kids[n]] + c.kids;
  }

  lemma {:induction false} StealRightIs(t: Tree, i: nat)
    requires i + 1 < |t.kids| == |t.keys| + 1 && |t.kids[i + 1].keys| > 0 && Alike(t.kids[i], t.kids[i + 1])
    ensures var c, r := t.kids[i], t.kids[i + 1];
      StealRight(t, i) ==
        Node(t.ptr, t.keys[i := r.keys[0]],
             t.kids[i := Node(c.ptr, c.keys + [t.keys[i]], if r.kids == [] then [] else c.kids + [r.kids[0]])]
               [i + 1 := Node(r.ptr, r.keys[1..], if r.kids == [] then [] else r.kids[1..])])
  {
    var c, r := t.kids[i], t.kids[i + 1];
    var n := |c.keys|;
    var v := Merge(t, i);
    var j := v.kids[i];
    JoinedParts(c, r, t.keys[i]);
    KidsOfSteal(t, i, Front(j, n + 1), Back(j, n + 1, r.ptr));
    assert v.keys[..i] + [r.keys[0]] + v.keys[i..] == t.keys[i := r.keys[0]];
  }

  lemma {:induction false} JoinedParts(c: Tree, r: Tree, k: Key)
    requires Alike(c, r) && |r.keys| > 0
    ensures var j, n := Node(c.ptr, c.keys + [k] + r.keys, c.kids + r.kids), |c.keys|;
      && (j.kids == [] || |j.kids| == |j.keys| + 1) && j.keys[n + 1] == r.keys[0]
      && Front(j, n + 1) == Node(c.ptr, c.keys + [k], if r.kids == [] then [] else c.kids + [r.kids[0]])
      && Back(j, n + 1, r.ptr) == Node(r.ptr, r.keys[1..], if r.kids == [] then [] else r.kids[1..])
  {
    var j, n := Node(c.ptr, c.keys + [k] + r.keys, c.kids + r.kids), |c.keys|;
    assert j.keys[..n + 1] == c.keys + [k];
    assert j.keys[n + 2..] == r.keys[1..];
    assert r.kids != [] ==> j.kids[..n + 2] == c.kids + [r.kids[0]];
    assert r.kids != [] ==> j.kids[n + 2..] == r.kids[1..];
  }

  lemma {:induction false} KidsOfSteal(t: Tree, i: nat, a: Tree, b: Tree)
    requires i + 1 < |t.kids| == |t.keys| + 1
    ensures Merge(t, i).kids[..i] + [a, b] + Merge(t, i).kids[i + 1..] == t.kids[i := a][i + 1 := b]
  {
  }

  /** A node and two neighbouring children stored to; their children only move between them. */
  lemma {:induction false} TwoHold(m: Memory, m': Memory, t: Tree, i: nat, keys: seq<Key>, a: Tree, b: Tree)
    requires Holds(m, t) && Distinct(t) && i + 1 < |t.kids| == |t.keys| + 1 && |keys| == |t.keys|
    requires a.ptr == t.kids[i].ptr && b.ptr == t.kids[i + 1].ptr
    requires forall j | 0 <= j < |a.kids| :: a.kids[j] in t.kids[i].kids || a.kids[j] in t.kids[i + 1].kids
    requires forall j | 0 <= j < |b.kids| :: b.kids[j] in t.kids[i].kids || b.kids[j] in t.kids[i + 1].kids
    requires var u := Node(t.ptr, keys, t.kids[i := a][i + 1 := b]);
      && t.ptr in m' && a.ptr in m' && b.ptr in m'
      && RecIs(m'[t.ptr], u) && RecIs(m'[a.ptr], a) && RecIs(m'[b.ptr], b)
    requires forall q <- m | q != t.ptr && q != a.ptr && q != b.ptr :: q in m' && m'[q] == m[q]
    ensures Holds(m', Node(t.ptr, keys, t.kids[i := a][i + 1 := b]))
  {
    var u := Node(t.ptr, keys, t.kids[i := a][i + 1 := b]);
    BesideTwo(m, m', t, i, i + 1);
    assert Holds(m, t.kids[i]) && Holds(m, t.kids[i + 1]);
    assert Holds(m', a) && Holds(m', b);
    forall j | 0 <= j < |u.kids| ensures Holds(m', u.kids[j]) {
      assert j != i && j != i + 1 ==> u.kids[j] == t.kids[j];
    }
  }

  /** A node, the child at i and the other children are different nodes. */
  lemma {:induction false} ApartHere(t: Tree, i: nat)
    requires Distinct(t) && i < |t.kids|
    ensures t.ptr != t.kids[i].ptr
    ensures forall j: nat | j < |t.kids| && j != i :: t.kids[j].ptr != t.kids[i].ptr
  {
    DistinctKids(t, i);
    assert forall j: nat | j < |t.kids| :: t.kids[j].ptr in Nodes(t.kids[j]);
  }

  // ---------- splitting ----------

  /** r' is r with a key at slot i and a child after it. */
  predicate SlotOpened(r: Rec, r': Rec, i: nat, key: Key, right: Ptr) {
    && RecOk(r) && RecOk(r') && i <= r.length && r'.length == r.length + 1
    && r'.keys[i] == key && r'.children[i + 1] == right
    && (forall k | 0 <= k < i :: r'.keys[k] == r.keys[k])
    && (forall k | i < k <= r.length :: r'.keys[k] == r.keys[k - 1])
    && (forall k | 0 <= k <= i :: r'.children[k] == r.children[k])
    && (forall k | i + 1 < k <= r.length + 1 :: r'.children[k] == r.children[k - 1])
  }

  lemma {:induction false} IsSplit(r: Rec, r': Rec, t: Tree, i: nat, m: nat, q: Ptr)
    requires RecIs(r, t) && i < |t.kids| && m < |t.kids[i].keys|
    requires t.kids[i].kids == [] || |t.kids[i].kids| == |t.kids[i].keys| + 1
    requires SlotOpened(r, r', i, t.kids[i].keys[m], q)
    ensures RecIs(r', Split(t, i, m, q))
  {
    var u := Split(t, i, m, q);
    InsertKey(r'.keys, r.keys, t.keys, i, t.kids[i].keys[m]);
    forall j | 0 <= j < |u.kids| ensures r'.children[j] == u.kids[j].ptr {
      assert j > i + 1 ==> u.kids[j] == t.kids[j - 1];
    }
  }

  lemma {:induction false} IsFront(r: Rec, r': Rec, c: Tree, m: nat)
    requires RecIs(r, c) && m < |c.keys| && r' == r.(length := m)
    ensures RecIs(r', Front(c, m))
  {
  }

  lemma {:induction false} IsBack(r: Rec, r': Rec, c: Tree, m: nat, q: Ptr)
    requires RecIs(r, c) && m < |c.keys| && RecOk(r') && r'.length == r.length - m - 1
    requires forall k | 0 <= k < r'.length :: r'.keys[k] == r.keys[m + 1 + k]
    requires c.kids == [] ==> r'.children[0] == 0
    requires c.kids != [] ==> forall k | 0 <= k <= r'.length :: r'.children[k] == r.children[m + 1 + k]
    ensures RecIs(r', Back(c, m, q))
  {
    assert forall k | 0 <= k < |c.keys| :: r.keys[k] == c.keys[k];
  }

  /** isLeaf looks at the first child slot. */
  lemma {:induction false} LeafBySlot(m: Memory, t: Tree)
    requires Holds(m, t)
    ensures m[t.ptr].children[0] == 0 <==> t.kids == []
  {
    if t.kids != [] {
      assert Holds(m, t.kids[0]);
    }
  }

  lemma {:induction false} InsertKey(slots: seq<Key>, was: seq<Key>, keys: seq<Key>, i: nat, k: Key)
    requires i <= |keys| < |slots| == |was| && was[..|keys|] == keys && slots[i] == k
    requires forall j | i < j <= |keys| :: slots[j] == was[j - 1]
    requires forall j | 0 <= j < i :: slots[j] == was[j]
    ensures slots[..|keys| + 1] == keys[..i] + [k] + keys[i..]
  {
    assert forall j | 0 <= j < |keys| :: was[j] == was[..|keys|][j];
  }

  /** The three nodes a split stores to, and all others as before. */
  lemma {:induction false} SplitHolds(m: Memory, m': Memory, t: Tree, i: nat, k: nat, q: Ptr)
    requires Holds(m, t) && Distinct(t) && i < |t.kids| == |t.keys| + 1 && k < |t.kids[i].keys| && q != 0 && q !in m
    requires t.kids[i].kids == [] || |t.kids[i].kids| == |t.kids[i].keys| + 1
    requires var c := t.kids[i];
      && t.ptr in m' && c.ptr in m' && q in m'
      && RecIs(m'[t.ptr], Split(t, i, k, q)) && RecIs(m'[c.ptr], Front(c, k)) && RecIs(m'[q], Back(c, k, q))
      && (forall r <- m | r != t.ptr && r != c.ptr :: r in m' && m'[r] == m[r])
    ensures Holds(m', Split(t, i, k, q))
  {
    var c := t.kids[i];
    var u, f, b := Split(t, i, k, q), Front(c, k), Back(c, k, q);
    forall j | 0 <= j < |c.kids| ensures Holds(m', c.kids[j]) {
      KidStays(m, m', t, i, j);
    }
    assert forall j | 0 <= j < |f.kids| :: f.kids[j] == c.kids[j];
    assert forall j | 0 <= j < |b.kids| :: b.kids[j] == c.kids[k + 1 + j];
    forall j: nat | j < |u.kids| ensures Holds(m', u.kids[j]) {
      assert u.kids[j] == if j < i then t.kids[j] else if j == i then f else if j == i + 1 then b else t.kids[j - 1];
      if j != i && j != i + 1 {
        SiblingStays(m, m', t, i, if j < i then j else j - 1);
      }
    }
  }

  lemma {:induction false} KidStays(m: Memory, m': Memory, t: Tree, i: nat, j: nat)
    requires Holds(m, t) && Distinct(t) && i < |t.kids| && j < |t.kids[i].kids|
    requires forall r <- m | r != t.ptr && r != t.kids[i].ptr :: r in m' && m'[r] == m[r]
    ensures Holds(m', t.kids[i].kids[j])
  {
    var c := t.kids[i];
    DistinctKids(t, i);
    DistinctKids(c, j);
    forall p <- Nodes(c.kids[j]) ensures p in m' && (p in m ==> m'[p] == m[p]) {
      InKid(c, j, p);
      InMemory(m, c.kids[j], p);
    }
    Stays(m, m', c.kids[j]);
  }

  lemma {:induction false} SiblingStays(m: Memory, m': Memory, t: Tree, i: nat, j: nat)
    requires Holds(m, t) && Distinct(t) && i < |t.kids| && j < |t.kids| && j != i
    requires forall r <- m | r != t.ptr && r != t.kids[i].ptr :: r in m' && m'[r] == m[r]
    ensures Holds(m', t.kids[j])
  {
    DistinctKids(t, i);
    DistinctKids(t, j);
    assert t.kids[i].ptr in Nodes(t.kids[i]);
    forall p <- Nodes(t.kids[j]) ensures p in m' && (p in m ==> m'[p] == m[p]) {
      InMemory(m, t.kids[j], p);
    }
    Stays(m, m', t.kids[j]);
  }

  // ---------- stealing, slot by slot ----------

  /** r' is r with a key, and unless a leaf a child, before the others. */
  predicate TookFront(r: Rec, r': Rec, key: Key, kid: Ptr) {
    && RecOk(r) && RecOk(r') && r'.length == r.length + 1 && r'.keys[0] == key
    && (forall k | 0 < k <= r.length :: r'.keys[k] == r.keys[k - 1])
    && (r.children[0] == 0 ==> r'.children == r.children)
    && (r.children[0] != 0 ==> r'.children[0] == kid && forall k | 0 < k <= r.length + 1 :: r'.children[k] == r.children[k - 1])
  }

  lemma {:induction false} IsTookFront(r: Rec, r': Rec, c: Tree, key: Key, kids: seq<Tree>)
    requires RecIs(r, c) && (r.children[0] == 0 <==> c.kids == []) && |kids| == (if c.kids == [] then 0 else 1)
    requires TookFront(r, r', key, if c.kids == [] then 0 else kids[0].ptr)
    ensures RecIs(r', Node(c.ptr, [key] + c.keys, kids + c.kids))
  {
    var u := Node(c.ptr, [key] + c.keys, kids + c.kids);
    assert forall k | 0 <= k < |c.keys| :: r.keys[k] == c.keys[k];
    assert forall k | 0 <= k < |u.keys| :: r'.keys[k] == u.keys[k];
    assert forall k | 0 < k < |u.kids| :: r'.children[k] == r.children[k - 1] && u.kids[k] == c.kids[k - 1];
  }

  lemma {:induction false} StolenLeft(m: Memory, m': Memory, t: Tree, i: nat)
    requires Holds(m, t) && Distinct(t) && 0 < i < |t.kids| == |t.keys| + 1
    requires Alike(t.kids[i - 1], t.kids[i]) && |t.kids[i - 1].keys| > 0 && t.ptr in m
    requires var l, c := t.kids[i - 1], t.kids[i];
      && l.ptr in m && c.ptr in m && m'.Keys == m.Keys
      && RecIs(m[l.ptr], l) && RecIs(m[c.ptr], c) && RecIs(m[t.ptr], t)
      && m'[l.ptr] == m[l.ptr].(length := |l.keys| - 1)
      && m'[t.ptr] == m[t.ptr].(keys := m[t.ptr].keys[i - 1 := m[l.ptr].keys[|l.keys| - 1]])
      && TookFront(m[c.ptr], m'[c.ptr], m[t.ptr].keys[i - 1], m[l.ptr].children[|l.keys|])
    requires forall q <- m | q != t.ptr && q != t.kids[i - 1].ptr && q != t.kids[i].ptr :: m'[q] == m[q]
    ensures Holds(m', StealLeft(t, i))
  {
    hide Holds;
    var l, c := t.kids[i - 1], t.kids[i];
    var n := |l.keys|;
    var last := if l.kids == [] then [] else [l.kids[n]];
    var a := Node(l.ptr, l.keys[..n - 1], if l.kids == [] then [] else l.kids[..n]);
    var b := Node(c.ptr, [t.keys[i - 1]] + c.keys, last + c.kids);
    var keys := t.keys[i - 1 := l.keys[n - 1]];
    AtKids(m, t, i - 1);
    NewKey(m[t.ptr], t, i - 1, l.keys[n - 1], a, b);
    IsTookFront(m[c.ptr], m'[c.ptr], c, t.keys[i - 1], last);
    IsLostBack(m[l.ptr], l);
    hide RecIs, TookFront, StealLeft;
    forall j | 0 <= j < |b.kids| ensures b.kids[j] in l.kids || b.kids[j] in c.kids {
      assert b.kids[j] == if j < |last| then last[j] else c.kids[j - |last|];
    }
    TwoHold(m, m', t, i - 1, keys, a, b);
    StealLeftIs(t, i);
  }

  lemma {:induction false} AtKids(m: Memory, t: Tree, i: nat)
    requires Holds(m, t) && i + 1 < |t.kids|
    ensures Holds(m, t.kids[i]) && Holds(m, t.kids[i + 1])
    ensures m[t.kids[i].ptr].children[0] == 0 <==> t.kids[i].kids == []
    ensures m[t.kids[i + 1].ptr].children[0] == 0 <==> t.kids[i + 1].kids == []
  {
    LeafBySlot(m, t.kids[i]);
    LeafBySlot(m, t.kids[i + 1]);
  }

  /** The child keeps its address, unless it was merged into its left neighbour. */
  lemma {:induction false} EnsureChild(t: Tree, i: nat, min: nat)
    requires i < |t.kids| == |t.keys| + 1 && |t.keys| > 0 && KidsAlike(t)
    ensures var (u, j) := Ensure(t, i, min); j < |u.kids| && j < |t.kids| && u.kids[j].ptr == t.kids[j].ptr
  {
    assert i > 0 ==> Alike(t.kids[i - 1], t.kids[i - 1 + 1]);
    assert i < |t.keys| ==> Alike(t.kids[i], t.kids[i + 1]);
    if i > 0 && |t.kids[i - 1].keys| > min {
      StealLeftIs(t, i);
    }
    if i < |t.keys| && |t.kids[i + 1].keys| > min {
      StealRightIs(t, i);
    }
  }

  lemma {:induction false} IsLostBack(r: Rec, l: Tree)
    requires RecIs(r, l) && |l.keys| > 0
    ensures var n := |l.keys|;
      && r.keys[n - 1] == l.keys[n - 1]
      && RecIs(r.(length := n - 1), Node(l.ptr, l.keys[..n - 1], if l.kids == [] then [] else l.kids[..n]))
  {
  }

  /** Another key between the same two children. */
  lemma {:induction false} NewKey(r: Rec, t: Tree, i: nat, key: Key, a: Tree, b: Tree)
    requires RecIs(r, t) && i + 1 < |t.kids| && a.ptr == t.kids[i].ptr && b.ptr == t.kids[i + 1].ptr
    ensures i < |r.keys| && r.keys[i] == t.keys[i]
    ensures RecIs(r.(keys := r.keys[i := key]), Node(t.ptr, t.keys[i := key], t.kids[i := a][i + 1 := b]))
  {
    assert forall k | 0 <= k < |t.keys| :: r.keys[k] == t.keys[k];
  }

  /** r' is r with a key, and unless a leaf a child, after the others. */
  predicate TookBack(r: Rec, r': Rec, key: Key, kid: Ptr) {
    && RecOk(r) && RecOk(r') && r'.length == r.length + 1 && r'.keys[r.length] == key
    && (forall k | 0 <= k < r.length :: r'.keys[k] == r.keys[k])
    && (forall k | 0 <= k <= r.length :: r'.children[k] == r.children[k])
    && (r.children[0] != 0 ==> r'.children[r.length + 1] == kid)
  }

  /** r' is r without its first key, and unless a leaf without its first child. */
  predicate LostFront(r: Rec, r': Rec) {
    && RecOk(r) && RecOk(r') && 0 < r.length && r'.length == r.length - 1
    && (forall k | 0 <= k < r'.length :: r'.keys[k] == r.keys[k + 1])
    && (r.children[0] == 0 ==> r'.children == r.children)
    && (r.children[0] != 0 ==> forall k | 0 <= k <= r'.length :: r'.children[k] == r.children[k + 1])
  }

  lemma {:induction false} IsTookBack(r: Rec, r': Rec, c: Tree, key: Key, kids: seq<Tree>)
    requires RecIs(r, c) && (r.children[0] == 0 <==> c.kids == []) && |kids| == (if c.kids == [] then 0 else 1)
    requires TookBack(r, r', key, if c.kids == [] then 0 else kids[0].ptr)
    ensures RecIs(r', Node(c.ptr, c.keys + [key], c.kids + kids))
  {
    var u := Node(c.ptr, c.keys + [key], c.kids + kids);
    assert forall k | 0 <= k < |c.keys| :: r.keys[k] == c.keys[k];
    assert forall k | 0 <= k < |u.keys| :: r'.keys[k] == u.keys[k];
  }

  lemma {:induction false} IsLostFront(r: Rec, r': Rec, c: Tree)
    requires RecIs(r, c) && (r.children[0] == 0 <==> c.kids == []) && |c.keys| > 0 && LostFront(r, r')
    ensures RecIs(r', Node(c.ptr, c.keys[1..], if c.kids == [] then [] else c.kids[1..]))
  {
    assert forall k | 0 <= k < |c.keys| :: r.keys[k] == c.keys[k];
  }

  lemma {:induction false} StolenRight(m: Memory, m': Memory, t: Tree, i: nat)
    requires Holds(m, t) && Distinct(t) && i + 1 < |t.kids| == |t.keys| + 1
    requires Alike(t.kids[i], t.kids[i + 1]) && |t.kids[i + 1].keys| > 0 && t.ptr in m
    requires var c, r := t.kids[i], t.kids[i + 1];
      && c.ptr in m && r.ptr in m && m'.Keys == m.Keys
      && RecIs(m[c.ptr], c) && RecIs(m[r.ptr], r) && RecIs(m[t.ptr], t)
      && TookBack(m[c.ptr], m'[c.ptr], m[t.ptr].keys[i], m[r.ptr].children[0]) && LostFront(m[r.ptr], m'[r.ptr])
      && m'[t.ptr] == m[t.ptr].(keys := m[t.ptr].keys[i := m[r.ptr].keys[0]])
    requires forall q <- m | q != t.ptr && q != t.kids[i].ptr && q != t.kids[i + 1].ptr :: m'[q] == m[q]
    ensures Holds(m', StealRight(t, i))
  {
    hide Split, All;
    var c, r := t.kids[i], t.kids[i + 1];
    var a := Node(c.ptr, c.keys + [t.keys[i]], if r.kids == [] then [] else c.kids + [r.kids[0]]);
    var b := Node(r.ptr, r.keys[1..], if r.kids == [] then [] else r.kids[1..]);
    StealRightIs(t, i);
    assert Holds(m, c) && Holds(m, r);
    LeafBySlot(m, c);
    LeafBySlot(m, r);
    assert m[t.ptr].keys[i] == t.keys[i] && m[r.ptr].keys[0] == r.keys[0];
    IsTookBack(m[c.ptr], m'[c.ptr], c, t.keys[i], if r.kids == [] then [] else [r.kids[0]]);
    assert a.kids == c.kids + (if r.kids == [] then [] else [r.kids[0]]);
    IsLostFront(m[r.ptr], m'[r.ptr], r);
    var keys := t.keys[i := r.keys[0]];
    assert RecIs(m'[t.ptr], Node(t.ptr, keys, t.kids[i := a][i + 1 := b]));
    TwoHold(m, m', t, i, keys, a, b);
  }
}
