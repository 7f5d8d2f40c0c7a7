/**
  What the map's nodes have besides lengths, keys and children: the value of each key, and the
  way back up, a parent pointer and the node's index among the parent's children.
*/
module BTreeMapNodes {
  import opened BTree
  import opened BTreeMemory
  import opened BTreeNodes

  type Val = int

  // ---------- parent pointers ----------

  predicate IsChild(parent: map<Ptr, Ptr>, childIndex: map<Ptr, nat>, q: Ptr, p: Ptr, i: nat) {
    q in parent && parent[q] == p && q in childIndex && childIndex[q] == i
  }

  predicate LinkOk(r: Rec, parent: map<Ptr, Ptr>, childIndex: map<Ptr, nat>, p: Ptr)
    requires RecOk(r)
  {
    r.children[0] != 0 ==> forall i: nat | i <= r.length :: IsChild(parent, childIndex, r.children[i], p, i)
  }

  /** Every child knows its parent and its place. */
  predicate LinksOk(m: Memory, parent: map<Ptr, Ptr>, childIndex: map<Ptr, nat>) {
    && 0 !in m && parent.Keys == m.Keys
    && forall p <- m :: RecOk(m[p]) && LinkOk(m[p], parent, childIndex, p)
  }

  /** Two slots never hold the same child. */
  lemma {:induction false} ChildrenDiffer(m: Memory, parent: map<Ptr, Ptr>, childIndex: map<Ptr, nat>, p: Ptr, i: nat,
                                           j: nat)
    requires LinksOk(m, parent, childIndex) && p in m && m[p].children[0] != 0 && i < j <= m[p].length
    ensures m[p].children[i] != m[p].children[j]
  {
    assert LinkOk(m[p], parent, childIndex, p);
    assert IsChild(parent, childIndex, m[p].children[i], p, i) && IsChild(parent, childIndex, m[p].children[j], p, j);
  }

  predicate ChildrenIn(r: Rec, s: set<Ptr>)
    requires RecOk(r)
  {
    forall i: nat | i <= r.length :: r.children[i] in s
  }

  lemma {:induction false} ChildrenInMore(r: Rec, s: set<Ptr>, s': set<Ptr>)
    requires RecOk(r) && ChildrenIn(r, s) && s <= s'
    ensures ChildrenIn(r, s')
  {
  }

  predicate ChildrenApart(r: Rec)
    requires RecOk(r)
  {
    forall i: nat, j: nat | i < j <= r.length :: r.children[i] != r.children[j]
  }

  /** x is one of the child slots lo to hi of r. */
  predicate InSlots(r: Rec, lo: nat, hi: nat, x: Ptr)
    requires RecOk(r)
  {
    exists i: nat :: lo <= i <= hi && i <= MAXKEYS && r.children[i] == x
  }

  /** Child slots from lo on are to come up by one, and their children know; q is not one of them. */
  predicate Renumbered(r: Rec, childIndex: map<Ptr, nat>, childIndex': map<Ptr, nat>, lo: nat, q: Ptr)
    requires RecOk(r)
  {
    && (forall i: nat | lo <= i <= r.length :: r.children[i] in childIndex' && childIndex'[r.children[i]] == i + 1)
    && (forall x <- childIndex | x != q && !InSlots(r, lo, r.length, x) :: x in childIndex' && childIndex'[x] == childIndex[x])
  }

  /** The children from slot lo on of r now belong to q, counted from zero. */
  predicate Adopted(r: Rec, q: Ptr, parent: map<Ptr, Ptr>, parent': map<Ptr, Ptr>, childIndex: map<Ptr, nat>,
                    childIndex': map<Ptr, nat>, lo: nat)
    requires RecOk(r)
  {
    && (forall i: nat | lo <= i <= r.length :: IsChild(parent', childIndex', r.children[i], q, i - lo))
    && (forall x <- parent | !InSlots(r, lo, r.length, x) :: x in parent' && parent'[x] == parent[x])
    && (forall x <- childIndex | !InSlots(r, lo, r.length, x) :: x in childIndex' && childIndex'[x] == childIndex[x])
  }

  /** The same for the children in slots lo to i - 1 so far. */
  predicate AdoptedTo(r: Rec, q: Ptr, parent: map<Ptr, Ptr>, parent': map<Ptr, Ptr>, childIndex: map<Ptr, nat>,
                      childIndex': map<Ptr, nat>, lo: nat, i: nat)
    requires RecOk(r) && i <= r.length + 1
  {
    && (forall x: nat | lo <= x < i :: IsChild(parent', childIndex', r.children[x], q, x - lo))
    && (forall x <- parent | !InSlots(r, lo, r.length, x) :: x in parent' && parent'[x] == parent[x])
    && (forall x <- childIndex | !InSlots(r, lo, r.length, x) :: x in childIndex' && childIndex'[x] == childIndex[x])
  }

  lemma {:induction false} AdoptNone(r: Rec, q: Ptr, parent: map<Ptr, Ptr>, childIndex: map<Ptr, nat>, lo: nat)
    requires RecOk(r) && lo <= r.length
    ensures AdoptedTo(r, q, parent, parent, childIndex, childIndex, lo, lo)
  {
  }

  lemma {:induction false} AdoptNext(r: Rec, q: Ptr, parent: map<Ptr, Ptr>, parent': map<Ptr, Ptr>,
                                     childIndex: map<Ptr, nat>, childIndex': map<Ptr, nat>, lo: nat, i: nat)
    requires RecOk(r) && ChildrenApart(r) && lo <= i <= r.length
    requires AdoptedTo(r, q, parent, parent', childIndex, childIndex', lo, i)
    ensures AdoptedTo(r, q, parent, parent'[r.children[i] := q], childIndex, childIndex'[r.children[i] := i - lo], lo, i + 1)
  {
    assert InSlots(r, lo, r.length, r.children[i]);
    assert forall x: nat | lo <= x < i :: r.children[x] != r.children[i];
  }

  lemma {:induction false} AdoptAll(r: Rec, q: Ptr, parent: map<Ptr, Ptr>, parent': map<Ptr, Ptr>,
                                    childIndex: map<Ptr, nat>, childIndex': map<Ptr, nat>, lo: nat)
    requires RecOk(r) && AdoptedTo(r, q, parent, parent', childIndex, childIndex', lo, r.length + 1)
    ensures Adopted(r, q, parent, parent', childIndex, childIndex', lo)
  {
  }

  lemma {:induction false} ChildIn(r: Rec, s: set<Ptr>, i: nat)
    requires RecOk(r) && ChildrenIn(r, s) && i <= r.length
    ensures r.children[i] in s
  {
  }

  /** The memory after child index of p has been split, q being its right half. */
  predicate HasSplit(m: Memory, m': Memory, p: Ptr, index: nat, k: nat, q: Ptr) {
    && p in m && RecOk(m[p]) && index <= m[p].length < MAXKEYS && m[p].children[0] != 0
    && var left := m[p].children[index];
    && left in m && left != p && RecOk(m[left]) && k < m[left].length && q !in m && q != 0
    && m'.Keys == m.Keys + {q}
    && SlotOpened(m[p], m'[p], index, m[left].keys[k], q)
    && m'[left] == m[left].(length := k)
    && (forall r <- m | r != p && r != left :: m'[r] == m[r])
    && RecOk(m'[q]) && m'[q].length == m[left].length - k - 1
    && (forall j | 0 <= j < m'[q].length :: m'[q].keys[j] == m[left].keys[k + 1 + j])
    && (m[left].children[0] == 0 ==> m'[q].children[0] == 0)
    && (m[left].children[0] != 0 ==> forall j | 0 <= j <= m'[q].length :: m'[q].children[j] == m[left].children[k + 1 + j])
  }

  /** Splitting keeps the way up exact at every node. */
  lemma {:induction false} SplitLinks(m: Memory, m': Memory, p: Ptr, index: nat, k: nat, q: Ptr, parent: map<Ptr, Ptr>,
                                      parent1: map<Ptr, Ptr>, parent': map<Ptr, Ptr>, childIndex: map<Ptr, nat>,
                                      childIndex1: map<Ptr, nat>, childIndex': map<Ptr, nat>)
    requires LinksOk(m, parent, childIndex) && HasSplit(m, m', p, index, k, q)
    requires parent1 == parent[q := p] && parent'.Keys == m'.Keys && IsChild(parent1, childIndex1, q, p, index + 1)
    requires Renumbered(m[p], childIndex, childIndex1, index + 1, q)
    requires var left := m[p].children[index];
      if m[left].children[0] == 0 then parent' == parent1 && childIndex' == childIndex1
      else Adopted(m[left], q, parent1, parent', childIndex1, childIndex', k + 1)
    ensures LinksOk(m', parent', childIndex')
  {
    hide HasSplit, LinksOk;
    SplitNames(m, m', p, index, k, q, parent, childIndex);
    forall r <- m' ensures RecOk(m'[r]) && LinkOk(m'[r], parent', childIndex', r) {
      if r == q {
        SplitLinksNew(m, m', p, index, k, q, parent, parent1, parent', childIndex, childIndex1, childIndex');
      } else if r == p {
        SplitLinksParent(m, m', p, index, k, q, parent, parent1, parent', childIndex, childIndex1, childIndex');
      } else {
        SplitLinksOther(m, m', p, index, k, q, parent, parent1, parent', childIndex, childIndex1, childIndex', r);
      }
    }
    AllLinks(m', parent', childIndex');
  }

  lemma {:induction false} AllLinks(m: Memory, parent: map<Ptr, Ptr>, childIndex: map<Ptr, nat>)
    requires 0 !in m && parent.Keys == m.Keys && forall p <- m :: RecOk(m[p]) && LinkOk(m[p], parent, childIndex, p)
    ensures LinksOk(m, parent, childIndex)
  {
  }

  lemma {:induction false} SplitNames(m: Memory, m': Memory, p: Ptr, index: nat, k: nat, q: Ptr, parent: map<Ptr, Ptr>,
                                      childIndex: map<Ptr, nat>)
    requires LinksOk(m, parent, childIndex) && HasSplit(m, m', p, index, k, q)
    ensures p in m && RecOk(m[p]) && index <= m[p].length && m[p].children[index] in m && RecOk(m[m[p].children[index]])
    ensures m'.Keys == m.Keys + {q} && 0 !in m' && q !in m && parent.Keys == m.Keys
  {
  }

  lemma {:induction false} SplitLinksNew(m: Memory, m': Memory, p: Ptr, index: nat, k: nat, q: Ptr, parent: map<Ptr, Ptr>,
                                         parent1: map<Ptr, Ptr>, parent': map<Ptr, Ptr>, childIndex: map<Ptr, nat>,
                                         childIndex1: map<Ptr, nat>, childIndex': map<Ptr, nat>)
    requires LinksOk(m, parent, childIndex) && HasSplit(m, m', p, index, k, q)
    requires var left := m[p].children[index];
      if m[left].children[0] == 0 then parent' == parent1 && childIndex' == childIndex1
      else Adopted(m[left], q, parent1, parent', childIndex1, childIndex', k + 1)
    ensures q in m' && RecOk(m'[q]) && LinkOk(m'[q], parent', childIndex', q)
  {
    var left := m[p].children[index];
    if m[left].children[0] != 0 {
      forall i: nat | i <= m'[q].length ensures IsChild(parent', childIndex', m'[q].children[i], q, i) {
        assert IsChild(parent', childIndex', m[left].children[k + 1 + i], q, k + 1 + i - (k + 1));
      }
    }
  }

  /** Before children move to the right half: the slots of p after the split know their numbers. */
  lemma {:induction false} SlotNumbered(m: Memory, m': Memory, p: Ptr, index: nat, k: nat, q: Ptr,
                                        parent: map<Ptr, Ptr>, parent1: map<Ptr, Ptr>,
                                        childIndex: map<Ptr, nat>, childIndex1: map<Ptr, nat>, i: nat)
    requires LinksOk(m, parent, childIndex) && HasSplit(m, m', p, index, k, q)
    requires parent1 == parent[q := p] && IsChild(parent1, childIndex1, q, p, index + 1)
    requires Renumbered(m[p], childIndex, childIndex1, index + 1, q) && p in m' && RecOk(m'[p]) && i <= m'[p].length
    ensures IsChild(parent1, childIndex1, m'[p].children[i], p, i)
  {
    assert LinkOk(m[p], parent, childIndex, p);
    var x := m'[p].children[i];
    if i != index + 1 {
      var o := if i <= index then i else i - 1;
      assert x == m[p].children[o] && IsChild(parent, childIndex, x, p, o);
      forall j: nat | index + 1 <= j <= m[p].length && j != o ensures m[p].children[j] != x {
        ChildrenDiffer(m, parent, childIndex, p, if j < o then j else o, if j < o then o else j);
      }
    }
  }

  /** A child of p is none of those that move. */
  lemma {:induction false} ChildStays(m: Memory, parent: map<Ptr, Ptr>, childIndex: map<Ptr, nat>, p: Ptr, left: Ptr,
                                      q: Ptr, x: Ptr, k: nat)
    requires LinksOk(m, parent, childIndex) && left in m && left != p && q !in m && RecOk(m[left])
    requires m[left].children[0] != 0 && parent.Keys == m.Keys && (x == q || (x in parent && parent[x] == p))
    ensures !InSlots(m[left], k + 1, m[left].length, x)
  {
    assert LinkOk(m[left], parent, childIndex, left);
    forall j: nat | k + 1 <= j <= m[left].length ensures m[left].children[j] != x {
      assert IsChild(parent, childIndex, m[left].children[j], left, j);
    }
  }

  lemma {:induction false} SplitLinksParent(m: Memory, m': Memory, p: Ptr, index: nat, k: nat, q: Ptr,
                                            parent: map<Ptr, Ptr>, parent1: map<Ptr, Ptr>, parent': map<Ptr, Ptr>,
                                            childIndex: map<Ptr, nat>, childIndex1: map<Ptr, nat>,
                                            childIndex': map<Ptr, nat>)
    requires LinksOk(m, parent, childIndex) && HasSplit(m, m', p, index, k, q)
    requires parent1 == parent[q := p] && IsChild(parent1, childIndex1, q, p, index + 1)
    requires Renumbered(m[p], childIndex, childIndex1, index + 1, q)
    requires var left := m[p].children[index];
      if m[left].children[0] == 0 then parent' == parent1 && childIndex' == childIndex1
      else Adopted(m[left], q, parent1, parent', childIndex1, childIndex', k + 1)
    ensures p in m' && RecOk(m'[p]) && LinkOk(m'[p], parent', childIndex', p)
  {
    var left := m[p].children[index];
    Opened(m, m', p, index, k, q);
    forall i: nat | i <= m'[p].length ensures IsChild(parent', childIndex', m'[p].children[i], p, i) {
      hide LinksOk, HasSplit;
      SlotNumbered(m, m', p, index, k, q, parent, parent1, childIndex, childIndex1, i);
      if m[left].children[0] != 0 {
        ChildStays(m, parent, childIndex, p, left, q, m'[p].children[i], k);
      }
    }
  }

  lemma {:induction false} Opened(m: Memory, m': Memory, p: Ptr, index: nat, k: nat, q: Ptr)
    requires HasSplit(m, m', p, index, k, q)
    ensures p in m' && RecOk(m'[p]) && RecOk(m[p]) && index <= m[p].length < MAXKEYS && m'[p].children[0] != 0
    ensures var left := m[p].children[index]; left in m && left != p && q !in m && RecOk(m[left])
  {
  }

  lemma {:induction false} SplitLinksOther(m: Memory, m': Memory, p: Ptr, index: nat, k: nat, q: Ptr,
                                           parent: map<Ptr, Ptr>, parent1: map<Ptr, Ptr>, parent': map<Ptr, Ptr>,
                                           childIndex: map<Ptr, nat>, childIndex1: map<Ptr, nat>,
                                           childIndex': map<Ptr, nat>, r: Ptr)
    requires LinksOk(m, parent, childIndex) && HasSplit(m, m', p, index, k, q) && r in m && r != p
    requires parent1 == parent[q := p]
    requires Renumbered(m[p], childIndex, childIndex1, index + 1, q)
    requires var left := m[p].children[index];
      if m[left].children[0] == 0 then parent' == parent1 && childIndex' == childIndex1
      else Adopted(m[left], q, parent1, parent', childIndex1, childIndex', k + 1)
    ensures r in m' && RecOk(m'[r]) && LinkOk(m'[r], parent', childIndex', r)
  {
    var left := m[p].children[index];
    assert LinkOk(m[r], parent, childIndex, r) && m'[r].children == m[r].children && m'[r].length <= m[r].length;
    assert LinkOk(m[p], parent, childIndex, p) && LinkOk(m[left], parent, childIndex, left);
    if m[r].children[0] != 0 {
      forall i: nat | i <= m'[r].length ensures IsChild(parent', childIndex', m'[r].children[i], r, i) {
        var x := m[r].children[i];
        assert IsChild(parent, childIndex, x, r, i);
        forall j: nat | index + 1 <= j <= m[p].length ensures m[p].children[j] != x {
          assert IsChild(parent, childIndex, m[p].children[j], p, j);
        }
        assert IsChild(parent1, childIndex1, x, r, i);
        forall j: nat | k + 1 <= j <= m[left].length && m[left].children[0] != 0 && r != left
          ensures m[left].children[j] != x
        {
          assert IsChild(parent, childIndex, m[left].children[j], left, j);
        }
        if r == left && m[left].children[0] != 0 {
          forall j: nat | k + 1 <= j <= m[left].length ensures m[left].children[j] != x {
            ChildrenDiffer(m, parent, childIndex, left, i, j);
          }
        }
      }
    }
  }

  /** Children that change parents had one, so the root keeps having none. */
  lemma {:induction false} SplitRoots(m: Memory, m': Memory, p: Ptr, index: nat, k: nat, q: Ptr, parent: map<Ptr, Ptr>,
                                      parent1: map<Ptr, Ptr>, parent': map<Ptr, Ptr>, childIndex: map<Ptr, nat>,
                                      childIndex1: map<Ptr, nat>, childIndex': map<Ptr, nat>, x: Ptr)
    requires LinksOk(m, parent, childIndex) && HasSplit(m, m', p, index, k, q) && parent1 == parent[q := p]
    requires var left := m[p].children[index];
      if m[left].children[0] == 0 then parent' == parent1
      else Adopted(m[left], q, parent1, parent', childIndex1, childIndex', k + 1)
    requires x in parent && parent[x] == 0
    ensures x in parent' && parent'[x] == 0
  {
    var left := m[p].children[index];
    assert LinkOk(m[left], parent, childIndex, left);
    forall j: nat | k + 1 <= j <= m[left].length && m[left].children[0] != 0 ensures m[left].children[j] != x {
      assert IsChild(parent, childIndex, m[left].children[j], left, j);
    }
  }

  /** The root becomes child 0 of a new node. */
  lemma {:induction false} RaiseLinks(m: Memory, q: Ptr, child: Ptr, parent: map<Ptr, Ptr>, childIndex: map<Ptr, nat>)
    requires LinksOk(m, parent, childIndex) && q in m && child in m && q != child && parent[child] == 0
    requires m[q].length == 0 && m[q].children[0] == 0
    ensures LinksOk(m[q := m[q].(children := m[q].children[0 := child])], parent[child := q], childIndex[child := 0])
  {
    var m', parent', childIndex' := m[q := m[q].(children := m[q].children[0 := child])], parent[child := q],
                                    childIndex[child := 0];
    forall r <- m' ensures RecOk(m'[r]) && LinkOk(m'[r], parent', childIndex', r) {
      assert LinkOk(m[r], parent, childIndex, r);
      if r != q && m[r].children[0] != 0 {
        forall i: nat | i <= m[r].length ensures IsChild(parent', childIndex', m[r].children[i], r, i) {
          assert IsChild(parent, childIndex, m[r].children[i], r, i);
        }
      }
    }
  }

  /** A leaf's slots may change. */
  lemma {:induction false} LeafLinks(m: Memory, m': Memory, p: Ptr, parent: map<Ptr, Ptr>, childIndex: map<Ptr, nat>)
    requires LinksOk(m, parent, childIndex) && p in m && p in m' && m' == m[p := m'[p]]
    requires RecOk(m'[p]) && m'[p].children[0] == 0
    ensures LinksOk(m', parent, childIndex)
  {
  }

  /** An empty node with no children. */
  function Fresh(): (r: Rec)
    ensures RecOk(r) && r.length == 0 && r.children[0] == 0
  {
    Rec(0, seq(MAXKEYS, i => 0), seq(MAXKEYS + 1, i => 0))
  }

  lemma {:induction false} FreshFields(m: Memory, q: Ptr, p: Ptr, parent: map<Ptr, Ptr>, childIndex: map<Ptr, nat>,
                                       vals: map<Ptr, seq<Val>>, v: seq<Val>, owner: map<Key, Ptr>, model: map<Key, Val>)
    requires LinksOk(m, parent, childIndex) && ValuesOk(m, vals, owner, model) && q != 0 && q !in m && |v| == MAXKEYS
    ensures LinksOk(m[q := Fresh()], parent[q := p], childIndex) && ValuesOk(m[q := Fresh()], vals[q := v], owner, model)
  {
    var m', parent' := m[q := Fresh()], parent[q := p];
    forall r <- m' ensures RecOk(m'[r]) && LinkOk(m'[r], parent', childIndex, r) {
      if r != q {
        assert LinkOk(m[r], parent, childIndex, r);
        if m[r].children[0] != 0 {
          forall i: nat | i <= m[r].length ensures IsChild(parent', childIndex, m[r].children[i], r, i) {
            assert IsChild(parent, childIndex, m[r].children[i], r, i);
          }
        }
      }
    }
    forall r <- m' ensures RecOk(m'[r]) && ValueOk(m'[r], vals[q := v][r], owner, model, r) {
      assert r != q ==> ValueOk(m[r], vals[r], owner, model, r);
    }
  }

  /** What splitting child index of t starts from. */
  lemma {:induction false} AtSplit(m: Memory, t: Tree, index: nat, q: Ptr, parent: map<Ptr, Ptr>, childIndex: map<Ptr, nat>)
    requires Holds(m, t) && Distinct(t) && LinksOk(m, parent, childIndex) && index < |t.kids| && |t.keys| < MAXKEYS
    requires q !in m && |t.kids[index].keys| > 0
    ensures t.ptr in m && RecIs(m[t.ptr], t) && m[t.ptr].children[0] != 0 && index <= m[t.ptr].length < MAXKEYS
    ensures !InSlots(m[t.ptr], 0, m[t.ptr].length, q) && ChildrenApart(m[t.ptr])
    ensures var c := t.kids[index];
      && m[t.ptr].children[index] == c.ptr && c.ptr in m && c.ptr != t.ptr && RecIs(m[c.ptr], c)
      && (m[c.ptr].children[0] == 0 <==> c.kids == [])
      && (c.kids != [] ==> ChildrenApart(m[c.ptr]) && ChildrenIn(m[c.ptr], m.Keys))
  {
    var p, c := t.ptr, t.kids[index];
    ApartHere(t, index);
    assert Holds(m, c);
    LeafBySlot(m, t);
    LeafBySlot(m, c);
    assert LinkOk(m[p], parent, childIndex, p) && LinkOk(m[c.ptr], parent, childIndex, c.ptr);
    forall i: nat | i <= m[p].length ensures m[p].children[i] != q {
      assert IsChild(parent, childIndex, m[p].children[i], p, i);
    }
    forall i: nat, j: nat | i < j <= m[p].length ensures m[p].children[i] != m[p].children[j] {
      ChildrenDiffer(m, parent, childIndex, p, i, j);
    }
    if c.kids != [] {
      forall i: nat | i <= m[c.ptr].length ensures m[c.ptr].children[i] in m {
        assert IsChild(parent, childIndex, m[c.ptr].children[i], c.ptr, i);
      }
      forall i: nat, j: nat | i < j <= m[c.ptr].length ensures m[c.ptr].children[i] != m[c.ptr].children[j] {
        ChildrenDiffer(m, parent, childIndex, c.ptr, i, j);
      }
    }
  }

  // ---------- values ----------

  /** Key k has value x and is stored at node p. */
  predicate Stored(k: Key, x: Val, owner: map<Key, Ptr>, model: map<Key, Val>, p: Ptr) {
    k in owner && owner[k] == p && k in model && model[k] == x
  }

  predicate ValueOk(r: Rec, v: seq<Val>, owner: map<Key, Ptr>, model: map<Key, Val>, p: Ptr)
    requires RecOk(r)
  {
    |v| == MAXKEYS && forall i | 0 <= i < r.length :: Stored(r.keys[i], v[i], owner, model, p)
  }

  /** Every slot holds the value its key is mapped to, and each key is stored at one node. */
  predicate ValuesOk(m: Memory, vals: map<Ptr, seq<Val>>, owner: map<Key, Ptr>, model: map<Key, Val>) {
    && vals.Keys == m.Keys
    && forall p <- m :: RecOk(m[p]) && ValueOk(m[p], vals[p], owner, model, p)
  }

  /** The keys after slot k of r now belong to q, and that at slot k to p. */
  function MovedOwner(owner: map<Key, Ptr>, r: Rec, k: nat, p: Ptr, q: Ptr): map<Key, Ptr>
    requires RecOk(r) && k < r.length
  {
    map x | x in owner :: if x == r.keys[k] then p else if x in r.keys[k + 1..r.length] then q else owner[x]
  }

  lemma {:induction false} OwnersStay(owner: map<Key, Ptr>, r: Rec, k: nat, p: Ptr, q: Ptr)
    requires RecOk(r) && k < r.length
    ensures MovedOwner(owner, r, k, p, q).Keys == owner.Keys
  {
  }

  /** The values go where their keys go. */
  predicate ValuesSplit(m: Memory, vals: map<Ptr, seq<Val>>, vals': map<Ptr, seq<Val>>, p: Ptr, index: nat, k: nat, q: Ptr)
    requires p in m && RecOk(m[p]) && index <= m[p].length < MAXKEYS && m[p].children[index] in m
    requires vals.Keys == m.Keys && RecOk(m[m[p].children[index]]) && k < m[m[p].children[index]].length
    requires |vals[p]| == |vals[m[p].children[index]]| == MAXKEYS
  {
    var left := m[p].children[index];
    && vals'.Keys == m.Keys + {q} && |vals'[p]| == |vals'[q]| == MAXKEYS
    && vals'[p][index] == vals[left][k]
    && (forall i | 0 <= i < index :: vals'[p][i] == vals[p][i])
    && (forall i | index < i <= m[p].length :: vals'[p][i] == vals[p][i - 1])
    && (forall j | 0 <= j < m[left].length - k - 1 :: vals'[q][j] == vals[left][k + 1 + j])
    && (forall r <- m | r != p :: vals'[r] == vals[r])
  }

  lemma {:induction false} SplitValues(m: Memory, m': Memory, p: Ptr, index: nat, k: nat, q: Ptr,
                                       vals: map<Ptr, seq<Val>>, vals': map<Ptr, seq<Val>>, owner: map<Key, Ptr>,
                                       model: map<Key, Val>)
    requires ValuesOk(m, vals, owner, model) && HasSplit(m, m', p, index, k, q)
    requires |vals[p]| == |vals[m[p].children[index]]| == MAXKEYS
    requires ValuesSplit(m, vals, vals', p, index, k, q)
    requires Increasing(m[m[p].children[index]].keys[..m[m[p].children[index]].length])
    ensures ValuesOk(m', vals', MovedOwner(owner, m[m[p].children[index]], k, p, q), model)
  {
    var left := m[p].children[index];
    var l := m[left];
    var owner' := MovedOwner(owner, l, k, p, q);
    assert forall i | 0 <= i < l.length :: l.keys[..l.length][i] == l.keys[i];
    assert ValueOk(l, vals[left], owner, model, left);
    forall r <- m' ensures RecOk(m'[r]) && ValueOk(m'[r], vals'[r], owner', model, r) {
      if r == q {
        forall i | 0 <= i < m'[q].length ensures Stored(m'[q].keys[i], vals'[q][i], owner', model, q) {
          assert Stored(l.keys[k + 1 + i], vals[left][k + 1 + i], owner, model, left);
          assert l.keys[k + 1..l.length][i] == l.keys[k + 1 + i];
        }
      } else {
        assert ValueOk(m[r], vals[r], owner, model, r);
        forall i | 0 <= i < m'[r].length ensures Stored(m'[r].keys[i], vals'[r][i], owner', model, r) {
          if r == p && i == index {
            assert Stored(l.keys[k], vals[left][k], owner, model, left);
          } else {
            var o := if r == p && i > index then i - 1 else i;
            assert m'[r].keys[i] == m[r].keys[o];
            assert Stored(m[r].keys[o], vals[r][o], owner, model, r);
            NotMoved(l, k, if r == left then o else 0, m[r].keys[o], owner, model, vals[left], left, r);
          }
        }
      }
    }
  }

  /** A key of another node, or before slot k, is none of those moved. */
  lemma {:induction false} NotMoved(l: Rec, k: nat, i: nat, x: Key, owner: map<Key, Ptr>, model: map<Key, Val>,
                                    v: seq<Val>, left: Ptr, r: Ptr)
    requires RecOk(l) && k < l.length && Increasing(l.keys[..l.length]) && ValueOk(l, v, owner, model, left)
    requires x in owner && owner[x] == r && (r == left ==> i < k && x == l.keys[i])
    ensures x != l.keys[k] && x !in l.keys[k + 1..l.length]
  {
    assert forall j | 0 <= j < l.length :: l.keys[..l.length][j] == l.keys[j];
    assert Stored(l.keys[k], v[k], owner, model, left);
    var moved := l.keys[k + 1..l.length];
    forall j | 0 <= j < |moved| ensures moved[j] != x {
      assert Stored(l.keys[k + 1 + j], v[k + 1 + j], owner, model, left);
    }
  }

  /** A new key in a leaf. */
  lemma {:induction false} InsertValues(m: Memory, m': Memory, p: Ptr, index: nat, key: Key, val: Val,
                                        vals: map<Ptr, seq<Val>>, vals': map<Ptr, seq<Val>>, owner: map<Key, Ptr>,
                                        model: map<Key, Val>)
    requires ValuesOk(m, vals, owner, model) && p in m && index <= m[p].length < MAXKEYS
    requires key !in model && p in m' && RecOk(m'[p]) && m' == m[p := m'[p]] && m'[p].length == m[p].length + 1
    requires m'[p].keys[index] == key && (forall i | 0 <= i < index :: m'[p].keys[i] == m[p].keys[i])
    requires forall i | index < i <= m[p].length :: m'[p].keys[i] == m[p].keys[i - 1]
    requires p in vals' && vals' == vals[p := vals'[p]] && |vals'[p]| == MAXKEYS
    requires vals'[p][index] == val && (forall i | 0 <= i < index :: vals'[p][i] == vals[p][i])
    requires forall i | index < i <= m[p].length :: vals'[p][i] == vals[p][i - 1]
    ensures ValuesOk(m', vals', owner[key := p], model[key := val])
  {
    forall r <- m' ensures RecOk(m'[r]) && ValueOk(m'[r], vals'[r], owner[key := p], model[key := val], r) {
      assert ValueOk(m[r], vals[r], owner, model, r);
      forall i | 0 <= i < m'[r].length
        ensures Stored(m'[r].keys[i], vals'[r][i], owner[key := p], model[key := val], r)
      {
        if r != p || i != index {
          var o := if r == p && i > index then i - 1 else i;
          assert Stored(m[r].keys[o], vals[r][o], owner, model, r);
        }
      }
    }
  }

  /** A new value for a key that is there. */
  lemma {:induction false} ReplaceValues(m: Memory, p: Ptr, index: nat, val: Val, vals: map<Ptr, seq<Val>>,
                                         owner: map<Key, Ptr>, model: map<Key, Val>)
    requires ValuesOk(m, vals, owner, model) && p in m && index < m[p].length && Increasing(m[p].keys[..m[p].length])
    ensures |vals[p]| == MAXKEYS && m[p].keys[index] in model
    ensures ValuesOk(m, vals[p := vals[p][index := val]], owner, model[m[p].keys[index] := val])
  {
    assert ValueOk(m[p], vals[p], owner, model, p);
    assert Stored(m[p].keys[index], vals[p][index], owner, model, p);
    assert forall i | 0 <= i < m[p].length :: m[p].keys[..m[p].length][i] == m[p].keys[i];
    var vals', model' := vals[p := vals[p][index := val]], model[m[p].keys[index] := val];
    forall r <- m ensures RecOk(m[r]) && ValueOk(m[r], vals'[r], owner, model', r) {
      assert ValueOk(m[r], vals[r], owner, model, r);
      forall i | 0 <= i < m[r].length ensures Stored(m[r].keys[i], vals'[r][i], owner, model', r) {
        assert Stored(m[r].keys[i], vals[r][i], owner, model, r);
      }
    }
  }

  /** The value at a slot is that of its key. */
  lemma {:induction false} ValueAt(m: Memory, t: Tree, i: nat, vals: map<Ptr, seq<Val>>, owner: map<Key, Ptr>,
                                   model: map<Key, Val>)
    requires t.ptr in m && RecIs(m[t.ptr], t) && i < |t.keys| && ValuesOk(m, vals, owner, model)
    ensures t.ptr in vals && |vals[t.ptr]| == MAXKEYS && t.keys[i] in model && vals[t.ptr][i] == model[t.keys[i]]
    ensures i < MAXKEYS
  {
    assert m[t.ptr].keys[..m[t.ptr].length][i] == m[t.ptr].keys[i];
    assert ValueOk(m[t.ptr], vals[t.ptr], owner, model, t.ptr);
    assert Stored(m[t.ptr].keys[i], vals[t.ptr][i], owner, model, t.ptr);
  }

  lemma {:induction false} ValueSizes(m: Memory, vals: map<Ptr, seq<Val>>, owner: map<Key, Ptr>, model: map<Key, Val>)
    requires ValuesOk(m, vals, owner, model)
    ensures vals.Keys == m.Keys && forall p <- m :: RecOk(m[p]) && |vals[p]| == MAXKEYS
  {
    forall p <- m ensures |vals[p]| == MAXKEYS {
      assert ValueOk(m[p], vals[p], owner, model, p);
    }
  }

  lemma {:induction false} LinkSizes(m: Memory, parent: map<Ptr, Ptr>, childIndex: map<Ptr, nat>)
    requires LinksOk(m, parent, childIndex)
    ensures parent.Keys == m.Keys && 0 !in m && forall p <- m :: RecOk(m[p])
  {
  }

  /** The children of a node without keys do not matter to the values. */
  lemma {:induction false} ChildrenOnly(m: Memory, m': Memory, q: Ptr, vals: map<Ptr, seq<Val>>, owner: map<Key, Ptr>,
                                        model: map<Key, Val>)
    requires ValuesOk(m, vals, owner, model) && q in m && q in m' && m' == m[q := m'[q]] && RecOk(m'[q])
    requires m'[q].keys == m[q].keys && m'[q].length == m[q].length
    ensures ValuesOk(m', vals, owner, model)
  {
    forall p <- m' ensures RecOk(m'[p]) && ValueOk(m'[p], vals[p], owner, model, p) {
      assert ValueOk(m[p], vals[p], owner, model, p);
    }
  }
}
