/** The B-tree set: loops over nodes linked in memory, one pass from the root for each operation. */
module BTreeSet {
  import opened BTree
  import opened BTreeMemory
  import opened BTreeNodes
  import opened BTreeOrder
  import opened BTreeFocus
  import opened BTreeRemoval

  // ---------- the loops over a node's slots ----------

  /** Slots lo to hi take the value of the slot before. */
  method ShiftUp<T>(s: seq<T>, lo: nat, hi: nat) returns (r: seq<T>)
    requires 0 < lo <= hi + 1 <= |s|
    ensures |r| == |s|
    ensures forall k | lo <= k <= hi :: r[k] == s[k - 1]
    ensures forall k | 0 <= k < |s| && !(lo <= k <= hi) :: r[k] == s[k]
  {
    r := s;
    var i := hi;
    while i >= lo
      invariant lo - 1 <= i <= hi && |r| == |s|
      invariant forall k | i < k <= hi :: r[k] == s[k - 1]
      invariant forall k | 0 <= k < |s| && !(i < k <= hi) :: r[k] == s[k]
    {
      r := r[i := r[i - 1]];
      i := i - 1;
    }
  }

  lemma {:induction false} FrontGone<T>(s: seq<T>, r: seq<T>, n: nat)
    requires 0 < n <= |s| && n <= |r| + 1 && r[..n - 1] == s[..0] + s[1..n]
    ensures forall i | 0 <= i < n - 1 :: r[i] == s[i + 1]
  {
    assert forall i | 0 <= i < n - 1 :: r[i] == r[..n - 1][i];
  }

  lemma {:induction false} ShiftedDown<T>(s: seq<T>, r: seq<T>, lo: nat, hi: nat)
    requires lo <= hi < |s| == |r| && (forall k | lo <= k < hi :: r[k] == s[k + 1])
    requires forall k | 0 <= k < |s| && !(lo <= k < hi) :: r[k] == s[k]
    ensures r[..hi] == s[..lo] + s[lo + 1..hi + 1]
  {
  }

  /** Slots lo up to hi take the value of the slot after. */
  method ShiftDown<T>(s: seq<T>, lo: nat, hi: nat) returns (r: seq<T>)
    requires hi < |s|
    ensures |r| == |s|
    ensures forall k | lo <= k < hi :: r[k] == s[k + 1]
    ensures forall k | 0 <= k < |s| && !(lo <= k < hi) :: r[k] == s[k]
  {
    r := s;
    var i := lo;
    while i < hi
      invariant lo <= i && (lo <= hi ==> i <= hi) && |r| == |s|
      invariant forall k | lo <= k < i && k < hi :: r[k] == s[k + 1]
      invariant forall k | 0 <= k < |s| && !(lo <= k < i && k < hi) :: r[k] == s[k]
    {
      r := r[i := r[i + 1]];
      i := i + 1;
    }
  }

  /** Slots from up to to of src, stored from slot at on. */
  method CopySlots<T>(src: seq<T>, from: nat, to: nat, dst: seq<T>, at: nat) returns (r: seq<T>)
    requires from <= to <= |src| && at + (to - from) <= |dst|
    ensures |r| == |dst|
    ensures forall k | at <= k < at + (to - from) :: r[k] == src[k - at + from]
    ensures forall k | 0 <= k < |dst| && !(at <= k < at + (to - from)) :: r[k] == dst[k]
  {
    r := dst;
    for i := from to to
      invariant |r| == |dst|
      invariant forall k | at <= k < at + (i - from) :: r[k] == src[k - at + from]
      invariant forall k | 0 <= k < |dst| && !(at <= k < at + (i - from)) :: r[k] == dst[k]
    {
      r := r[at + i - from := src[i]];
    }
  }

  class BTreeSet {
    var mem: Memory
    var root: Ptr
    const minKeys: nat
    const maxKeys: nat
    ghost var tree: Tree
    ghost var height: nat

    ghost predicate Valid()
      reads this
    {
      && Sizes() && Holds(mem, tree) && tree.ptr == root && Distinct(tree)
      && RootOk(tree, height, minKeys, maxKeys) && Whole(tree) && Increasing(Flat(tree))
    }

    /** The set's keys. */
    ghost function Contents(): set<Key>
      requires Whole(tree)
      reads this
    {
      KeySet(Flat(tree))
    }

    ghost predicate Sizes() { 0 < minKeys && maxKeys == 2 * minKeys + 1 <= MAXKEYS }

    /** A new node at address q. */
    method TmNew(q: Ptr)
      modifies `mem
      ensures mem == old(mem)[q := Rec(0, seq(MAXKEYS, i => 0), seq(MAXKEYS + 1, i => 0))]
    {
      mem := mem[q := Rec(0, seq(MAXKEYS, i => 0), seq(MAXKEYS + 1, i => 0))];
    }

    /** The key at slot i, or the child to look at for it. */
    method Search(p: Ptr, val: Key, ghost t: Tree) returns (found: bool, i: nat)
      requires Holds(mem, t) && t.ptr == p && Increasing(t.keys)
      ensures i <= |t.keys| && (found <==> val in t.keys) && (found ==> i < |t.keys| && t.keys[i] == val)
      ensures !found ==> (forall k | 0 <= k < i :: t.keys[k] < val) && (forall k | i <= k < |t.keys| :: val < t.keys[k])
    {
      i := 0;
      while i < mem[p].length
        invariant i <= |t.keys| && forall k | 0 <= k < i :: t.keys[k] < val
      {
        assert mem[p].keys[i] == mem[p].keys[..mem[p].length][i];
        if val == mem[p].keys[i] {
          return true, i;
        } else if val > mem[p].keys[i] {
          i := i + 1;
        } else {
          return false, i;
        }
      }
      return false, i;
    }

    /** Makes room in the parent for a key and the child after it. */
    method OpenSlot(p: Ptr, index: nat, key: Key, right: Ptr)
      requires p in mem && RecOk(mem[p]) && index <= mem[p].length < MAXKEYS
      modifies `mem
      ensures p in mem && mem == old(mem)[p := mem[p]] && SlotOpened(old(mem)[p], mem[p], index, key, right)
    {
      var pc := ShiftUp(mem[p].children, index + 2, mem[p].length + 1);
      mem := mem[p := mem[p].(children := pc[index + 1 := right])];
      var pk := ShiftUp(mem[p].keys, index + 1, mem[p].length);
      mem := mem[p := mem[p].(keys := pk[index := key])];
      mem := mem[p := mem[p].(length := mem[p].length + 1)];
    }

    /** Splits the full child at index; q is the address of its new right half. */
    method SplitChild(p: Ptr, index: nat, q: Ptr, ghost t: Tree)
      requires Sizes() && Holds(mem, t) && t.ptr == p && Distinct(t) && KidsAlike(t)
      requires index < |t.kids| && |t.keys| < maxKeys && |t.kids[index].keys| == maxKeys && q != 0 && q !in mem
      requires t.kids[index].kids == [] || |t.kids[index].kids| == maxKeys + 1
      modifies `mem
      ensures Holds(mem, Split(t, index, minKeys, q)) && q in mem
      ensures forall r <- old(mem) | r != p && r != t.kids[index].ptr :: r in mem && mem[r] == old(mem)[r]
    {
      var left := mem[p].children[index];
      var right := q;
      ghost var c := t.kids[index];
      ghost var m0 := mem;
      ApartHere(t, index);
      LeafBySlot(m0, c);
      TmNew(q);
      // keys and children of the right half
      var rk := CopySlots(mem[left].keys, minKeys + 1, mem[left].length, mem[right].keys, 0);
      mem := mem[right := mem[right].(keys := rk)];
      OpenSlot(p, index, mem[left].keys[minKeys], right);
      if mem[left].children[0] != 0 {
        var rc := CopySlots(mem[left].children, minKeys + 1, mem[left].length + 1, mem[right].children, 0);
        mem := mem[right := mem[right].(children := rc)];
      }
      mem := mem[right := mem[right].(length := mem[left].length - minKeys - 1)];
      mem := mem[left := mem[left].(length := minKeys)];
      IsBack(m0[left], mem[right], c, minKeys, q);
      IsFront(m0[left], mem[left], c, minKeys);
      IsSplit(m0[p], mem[p], t, index, minKeys, q);
      SplitHolds(m0, mem, t, index, minKeys, q);
    }

    /** Key index and child index + 1 go into child index. */
    method MergeChildren(p: Ptr, index: nat, ghost t: Tree)
      requires Sizes() && Holds(mem, t) && t.ptr == p && Distinct(t) && index + 1 < |t.kids|
      requires Alike(t.kids[index], t.kids[index + 1])
      requires |t.kids[index].keys| == |t.kids[index + 1].keys| == minKeys
      modifies `mem
      ensures Holds(mem, Merge(t, index)) && mem.Keys == old(mem.Keys) - {t.kids[index + 1].ptr}
      ensures forall r <- mem | r != p && r != t.kids[index].ptr :: mem[r] == old(mem)[r]
    {
      var left, right := mem[p].children[index], mem[p].children[index + 1];
      ghost var m0, l, r := mem, t.kids[index], t.kids[index + 1];
      ApartHere(t, index);
      ApartHere(t, index + 1);
      LeafBySlot(m0, l);
      assert Holds(m0, r);
      JoinInto(left, right, mem[p].keys[index]);
      CloseSlot(p, index);
      IsJoined(m0[left], m0[right], mem[left], l, r, t.keys[index]);
      IsMergedParent(m0[p], mem[p], t, index);
      MergeHolds(m0, mem, t, index);
    }

    method JoinInto(left: Ptr, right: Ptr, key: Key)
      requires left != right && left in mem && right in mem && RecOk(mem[left]) && RecOk(mem[right])
      requires mem[left].length + mem[right].length + 1 <= MAXKEYS
      modifies `mem
      ensures left in mem && mem == old(mem)[left := mem[left]]
      ensures Joined(old(mem)[left], old(mem)[right], mem[left], key, old(mem)[left].children[0] == 0)
    {
      hide Alike;
      var n := mem[left].length;
      if mem[left].children[0] != 0 {
        var lc := CopySlots(mem[right].children, 0, mem[right].length + 1, mem[left].children, n + 1);
        mem := mem[left := mem[left].(children := lc)];
      }
      mem := mem[left := mem[left].(keys := mem[left].keys[n := key])];
      var lk := CopySlots(mem[right].keys, 0, mem[right].length, mem[left].keys, n + 1);
      mem := mem[left := mem[left].(keys := lk)];
      mem := mem[left := mem[left].(length := n + mem[right].length + 1)];
    }

    /** Removes key index, and child index + 1 from memory. */
    method CloseSlot(p: Ptr, index: nat)
      requires p in mem && RecOk(mem[p]) && index < mem[p].length && mem[p].children[index + 1] != p
      modifies `mem
      ensures p in mem && mem == (old(mem) - {old(mem)[p].children[index + 1]})[p := mem[p]]
      ensures SlotClosed(old(mem)[p], mem[p], index)
    {
      var n := mem[p].length;
      var pk := ShiftDown(mem[p].keys, index, n - 1);
      mem := mem[p := mem[p].(keys := pk)];
      mem := mem - {mem[p].children[index + 1]};
      var pc := ShiftDown(mem[p].children, index + 1, n);
      mem := mem[p := mem[p].(children := pc[n := 0])];
      mem := mem[p := mem[p].(length := n - 1)];
    }

    /** Removes the key at a slot of a leaf, or of a node whose first child has moved away. */
    method RemoveKey(p: Ptr, index: nat) returns (ret: Key)
      requires p in mem && RecOk(mem[p]) && index < mem[p].length
      modifies `mem
      ensures p in mem && mem == old(mem)[p := mem[p]] && ret == old(mem)[p].keys[index]
      ensures RecOk(mem[p]) && mem[p].length == old(mem)[p].length - 1 && mem[p].children == old(mem)[p].children
      ensures mem[p].keys[..mem[p].length]
              == old(mem)[p].keys[..index] + old(mem)[p].keys[index + 1..old(mem)[p].length]
    {
      ret := mem[p].keys[index];
      ghost var was := mem[p].keys;
      var pk := ShiftDown(mem[p].keys, index, mem[p].length - 1);
      ShiftedDown(was, pk, index, mem[p].length - 1);
      mem := mem[p := mem[p].(keys := pk)];
      mem := mem[p := mem[p].(length := mem[p].length - 1)];
    }

    /** The degree is the fewest children of a node other than the root. */
    constructor (degree: nat)
      requires 2 <= degree && 2 * degree - 1 <= MAXKEYS
      ensures Valid() && Contents() == {}
    {
      minKeys, maxKeys := degree - 1, degree * 2 - 1;
      mem := map[1 := Rec(0, seq(MAXKEYS, i => 0), seq(MAXKEYS + 1, i => 0))];
      root, tree, height := 1, Node(1, [], []), 0;
      new;
      assert KidNodes(tree) == [];
    }

    method SeqContains(val: Key) returns (r: bool)
      requires Valid()
      ensures r <==> val in Contents()
    {
      hide Distinct;
      hide PathOk;
      hide Plug;
      hide Flat;
      hide Whole;
      var node := root;
      ghost var c: Path, t: Tree, h: nat := [], tree, height;
      FocusStart(mem, tree, height, RootLow(height), minKeys, maxKeys, val);
      while true
        invariant Focus(mem, c, t, h, RootLow(height), minKeys, maxKeys) && node == t.ptr && tree == Plug(c, t)
        invariant Between(c, val)
        decreases h
      {
        AtSearch(mem, c, t, h, RootLow(height), minKeys, maxKeys, val);
        var found, i := Search(node, val, t);
        if found {
          return true;
        } else if mem[node].children[0] == 0 {
          return false;
        }
        node := mem[node].children[i];
        FocusDown(mem, c, t, h, RootLow(height), minKeys, maxKeys, i);
        BetweenDown(c, t, i, val);
        c, t, h := c + [FrameOf(t, i)], t.kids[i], h - 1;
      }
    }

    // ---------- insertion ----------

    /** A full root gets a new root above it. */
    method SplitRoot()
      requires Valid() && |tree.keys| == maxKeys
      modifies this
      ensures Valid() && Flat(tree) == old(Flat(tree)) && |tree.keys| == 1
    {
      hide Distinct;
      hide Flat;
      hide Whole;
      ghost var t := RaiseRoot();
      var q := Unused(mem);
      NewNode(mem, t, q);
      SplitChild(root, 0, q, t);
      RootSplit(t, height, minKeys, maxKeys, q);
      tree, height := Split(t, 0, minKeys, q), height + 1;
    }

    /** The root becomes the only child of a new node without keys. */
    method RaiseRoot() returns (ghost t: Tree)
      requires Valid() && |tree.keys| == maxKeys
      modifies `mem, `root
      ensures t == Node(root, [], [tree]) && Holds(mem, t) && Distinct(t) && KidsAlike(t)
      ensures tree.kids == [] || |tree.kids| == |tree.keys| + 1
    {
      var child := root;
      root := Unused(mem);
      TmNew(root);
      mem := mem[root := mem[root].(children := mem[root].children[0 := child])];
      t := Node(root, [], [tree]);
      RootAbove(old(mem), mem, tree, root, height, minKeys, maxKeys);
    }

    /** Splits a full child below the focus; the keys from left to right stay as they are. */
    method SplitBelow(node: Ptr, i: nat, ghost c: Path, ghost t: Tree, ghost h: nat) returns (ghost u: Tree)
      requires Sizes() && Focus(mem, c, t, h, RootLow(height), minKeys, maxKeys) && node == t.ptr
      requires h > 0 && i < |t.kids|
      requires |t.kids| == |t.keys| + 1 <= maxKeys && |t.kids[i].keys| == maxKeys
      modifies `mem
      ensures Focus(mem, c, u, h, RootLow(height), minKeys, maxKeys) && u.ptr == node && |u.keys| == |t.keys| + 1
      ensures u.keys[..i] == t.keys[..i] && u.keys[i + 1..] == t.keys[i..]
      ensures |u.kids| == |t.kids| + 1 && |u.kids[i].keys| == |u.kids[i + 1].keys| == minKeys
      ensures u.kids[i].ptr == t.kids[i].ptr
      ensures Whole(Plug(c, u)) && Whole(Plug(c, t)) && Flat(Plug(c, u)) == Flat(Plug(c, t))
      ensures Plug(c, u).ptr == Plug(c, t).ptr
    {
      hide Flat, RecIs;
      var q := Unused(mem);
      AtFocus(mem, c, t, h, RootLow(height), minKeys, maxKeys);
      KidsAt(t, h, minKeys, maxKeys, i);
      PathApart(c, t);
      ghost var m := mem;
      SplitChild(node, i, q, t);
      SplitFocus(m, mem, c, t, h, RootLow(height), minKeys, maxKeys, i, q);
      u := Split(t, i, minKeys, q);
    }

    /** Simple insertion into a leaf. */
    method InsertIntoLeaf(node: Ptr, index: nat, val: Key, ghost c: Path, ghost t: Tree)
      requires Sizes() && Focus(mem, c, t, 0, RootLow(height), minKeys, maxKeys) && node == t.ptr
      requires index <= |t.keys| < maxKeys
      requires (forall k | 0 <= k < index :: t.keys[k] < val) && (forall k | index <= k < |t.keys| :: val < t.keys[k])
      requires tree == Plug(c, t) && tree.ptr == root && height == |c| && Whole(tree) && Increasing(Flat(tree))
      requires Between(c, val)
      modifies `mem, `tree
      ensures Valid() && val !in old(Contents()) && Contents() == old(Contents()) + {val}
    {
      hide Distinct;
      hide Holds;
      AtFocus(mem, c, t, 0, RootLow(height), minKeys, maxKeys);
      ghost var u := Node(t.ptr, t.keys[..index] + [val] + t.keys[index..], []);
      PutKey(c, t, index, val);
      PlugPtr(c, t, u);
      StoreKey(node, index, val, c, t);
      FocusRoot(mem, c, u, 0, RootLow(height), minKeys, maxKeys);
      tree := Plug(c, u);
    }

    /** The slots of the leaf. */
    method StoreKey(node: Ptr, index: nat, val: Key, ghost c: Path, ghost t: Tree)
      requires Sizes() && Focus(mem, c, t, 0, RootLow(height), minKeys, maxKeys) && node == t.ptr
      requires index <= |t.keys| < maxKeys
      modifies `mem
      ensures Focus(mem, c, Node(t.ptr, t.keys[..index] + [val] + t.keys[index..], []), 0, RootLow(height), minKeys,
        maxKeys)
    {
      hide Fill, Flat, Low, All, RootLow, KidsAlike, Weave, FrameOk, Alike, AllAbove;
      AtFocus(mem, c, t, 0, RootLow(height), minKeys, maxKeys);
      hide Plug;
      hide Distinct;
      hide PathOk;
      ghost var m, u := mem, Node(t.ptr, t.keys[..index] + [val] + t.keys[index..], []);
      var ks := ShiftUp(mem[node].keys, index + 1, mem[node].length);
      mem := mem[node := mem[node].(keys := ks[index := val])];
      mem := mem[node := mem[node].(length := mem[node].length + 1)];
      InsertKey(mem[node].keys, m[node].keys, t.keys, index, val);
      assert KidNodes(u) == KidNodes(t) && node in Nodes(t);
      Refocus(m, mem, c, t, u, 0, RootLow(height), minKeys, maxKeys, node);
    }

    /** The insertion's walk has come to t, with room for one more key and all others in place. */
    ghost predicate Walk(c: Path, t: Tree, h: nat, val: Key)
      reads this
    {
      && Sizes() && Focus(mem, c, t, h, RootLow(height), minKeys, maxKeys) && |t.keys| < maxKeys && Between(c, val)
      && tree == Plug(c, t) && tree.ptr == root && height == h + |c| && Whole(tree) && Increasing(Flat(tree))
    }

    /** The child to go on to, split if it was full; or else the key that came up is val. */
    method ChildForInsert(node: Ptr, index: nat, val: Key, ghost c: Path, ghost t: Tree, ghost h: nat)
      returns (present: bool, child: Ptr, ghost c': Path, ghost t': Tree)
      requires Walk(c, t, h, val) && node == t.ptr && h > 0 && index < |t.kids| && index <= |t.keys|
      requires (forall k | 0 <= k < index :: t.keys[k] < val) && (forall k | index <= k < |t.keys| :: val < t.keys[k])
      modifies `mem, `tree
      ensures if present then Valid() && val in Contents() else Walk(c', t', h - 1, val) && child == t'.ptr
      ensures Whole(tree) && Flat(tree) == old(Flat(tree))
    {
      hide FrameParts, Focus;
      hide Between;
      hide Increasing;
      hide Holds;
      hide FrameOf;
      hide Distinct;
      hide PathOk;
      hide Plug;
      hide Flat;
      hide Whole;
      AtSearch(mem, c, t, h, RootLow(height), minKeys, maxKeys, val);
      present, child := false, mem[node].children[index];
      t' := t;
      ghost var j := index;
      if mem[child].length == maxKeys {
        t' := SplitBelow(node, index, c, t, h);
        tree := Plug(c, t');
        AtSearch(mem, c, t', h, RootLow(height), minKeys, maxKeys, val);
        assert mem[node].keys[index] == t'.keys[index];
        var middleKey := mem[node].keys[index];
        assert index + 1 < |t'.keys| ==> t'.keys[index + 1] == t'.keys[index + 1..][0] == t.keys[index..][0];
        assert index > 0 ==> t'.keys[index - 1] == t'.keys[..index][index - 1] == t.keys[..index][index - 1];
        if val == middleKey {
          FocusRoot(mem, c, t', h, RootLow(height), minKeys, maxKeys);
          c' := c;
          return true, child, c', t';
        } else if val > middleKey {
          child := mem[node].children[index + 1];
          j := index + 1;
        }
      }
      FocusDown(mem, c, t', h, RootLow(height), minKeys, maxKeys, j);
      BetweenDown(c, t', j, val);
      c', t' := c + [FrameOf(t', j)], t'.kids[j];
    }

    /** False if the key was there already. */
    method Insert(val: Key) returns (added: bool)
      requires Valid()
      modifies this
      ensures Valid() && added == (val !in old(Contents())) && Contents() == old(Contents()) + {val}
    {
      hide Focus;
      hide Between;
      hide Increasing;
      hide Holds;
      hide Distinct;
      hide PathOk;
      hide Plug;
      hide Flat;
      hide Whole;
      AtNode(mem, tree);
      if mem[root].length == maxKeys {
        SplitRoot();
      }
      var node := root;
      ghost var c: Path, t: Tree, h: nat := [], tree, height;
      FocusStart(mem, tree, height, RootLow(height), minKeys, maxKeys, val);
      while true
        invariant Walk(c, t, h, val) && node == t.ptr && Flat(tree) == old(Flat(tree))
        decreases h
      {
        AtSearch(mem, c, t, h, RootLow(height), minKeys, maxKeys, val);
        assert mem[node].length < maxKeys && (node == root || mem[node].length >= minKeys);
        var found, index := Search(node, val, t);
        if found {
          FocusRoot(mem, c, t, h, RootLow(height), minKeys, maxKeys);
          return false;
        }
        if mem[node].children[0] == 0 {
          InsertIntoLeaf(node, index, val, c, t);
          return true;
        }
        var present;
        present, node, c, t := ChildForInsert(node, index, val, c, t, h);
        if present {
          return false;
        }
        h := h - 1;
      }
    }

    // ---------- removal ----------

    method StealFromLeft(p: Ptr, index: nat, ghost t: Tree)
      requires Sizes() && Holds(mem, t) && t.ptr == p && Distinct(t) && 0 < index < |t.kids| == |t.keys| + 1
      requires Alike(t.kids[index - 1], t.kids[index])
      requires |t.kids[index - 1].keys| > minKeys && |t.kids[index].keys| == minKeys
      modifies `mem
      ensures Holds(mem, StealLeft(t, index)) && mem.Keys == old(mem.Keys)
      ensures forall r <- mem | r != p && r != t.kids[index - 1].ptr && r != t.kids[index].ptr :: mem[r] == old(mem)[r]
    {
      AtNode(mem, t);
      ApartHere(t, index - 1);
      ApartHere(t, index);
      ghost var m0, l, c := mem, t.kids[index - 1], t.kids[index];
      LeafBySlot(mem, c);
      var child, left := mem[p].children[index], mem[p].children[index - 1];
      TakeFront(child, mem[p].keys[index - 1], mem[left].children[mem[left].length]);
      mem := mem[p := mem[p].(keys := mem[p].keys[index - 1 := mem[left].keys[mem[left].length - 1]])];
      mem := mem[left := mem[left].(length := mem[left].length - 1)];
      StolenLeft(m0, mem, t, index);
    }

    /** Puts a key, and a child unless this is a leaf, in front of the others. */
    method TakeFront(child: Ptr, key: Key, kid: Ptr)
      requires child in mem && RecOk(mem[child]) && mem[child].length < MAXKEYS
      modifies `mem
      ensures child in mem && mem == old(mem)[child := mem[child]]
      ensures TookFront(old(mem)[child], mem[child], key, kid)
    {
      var n := mem[child].length;
      if mem[child].children[0] != 0 {
        var cc := ShiftUp(mem[child].children, 1, n + 1);
        mem := mem[child := mem[child].(children := cc[0 := kid])];
      }
      var ck := ShiftUp(mem[child].keys, 1, n);
      mem := mem[child := mem[child].(keys := ck[0 := key])];
      mem := mem[child := mem[child].(length := n + 1)];
    }

    method StealFromRight(p: Ptr, index: nat, ghost t: Tree)
      requires Sizes() && Holds(mem, t) && t.ptr == p && Distinct(t) && index + 1 < |t.kids| == |t.keys| + 1
      requires Alike(t.kids[index], t.kids[index + 1])
      requires |t.kids[index + 1].keys| > minKeys && |t.kids[index].keys| == minKeys
      modifies `mem
      ensures Holds(mem, StealRight(t, index)) && mem.Keys == old(mem.Keys)
      ensures forall r <- mem | r != p && r != t.kids[index].ptr && r != t.kids[index + 1].ptr :: mem[r] == old(mem)[r]
    {
      AtNode(mem, t);
      ApartHere(t, index);
      ApartHere(t, index + 1);
      ghost var m0, c, r := mem, t.kids[index], t.kids[index + 1];
      LeafBySlot(mem, c);
      LeafBySlot(mem, r);
      var child, right := mem[p].children[index], mem[p].children[index + 1];
      TakeBack(child, mem[p].keys[index], mem[right].children[0]);
      var k := DropFront(right);
      mem := mem[p := mem[p].(keys := mem[p].keys[index := k])];
      StolenRight(m0, mem, t, index);
    }

    /** Puts a key, and a child unless this is a leaf, after the others. */
    method TakeBack(child: Ptr, key: Key, kid: Ptr)
      requires child in mem && RecOk(mem[child]) && mem[child].length < MAXKEYS
      modifies `mem
      ensures child in mem && mem == old(mem)[child := mem[child]]
      ensures TookBack(old(mem)[child], mem[child], key, kid)
    {
      var n := mem[child].length;
      if mem[child].children[0] != 0 {
        mem := mem[child := mem[child].(children := mem[child].children[n + 1 := kid])];
      }
      mem := mem[child := mem[child].(keys := mem[child].keys[n := key])];
      mem := mem[child := mem[child].(length := n + 1)];
    }

    /** Takes off the first key, and the first child unless this is a leaf. */
    method DropFront(right: Ptr) returns (k: Key)
      requires right in mem && RecOk(mem[right]) && 0 < mem[right].length
      modifies `mem
      ensures right in mem && mem == old(mem)[right := mem[right]] && k == old(mem)[right].keys[0]
      ensures LostFront(old(mem)[right], mem[right])
    {
      ghost var r := mem[right];
      if mem[right].children[0] != 0 {
        var rc := ShiftDown(mem[right].children, 0, mem[right].length);
        mem := mem[right := mem[right].(children := rc)];
      }
      k := RemoveKey(right, 0);
      FrontGone(r.keys, mem[right].keys, r.length);
    }

    /** Child index has no key to spare: it gets one from a neighbour, or is merged with one. */
    method StealOrMerge(p: Ptr, index: nat, ghost t: Tree, ghost h: nat) returns (child: Ptr)
      requires Sizes() && Holds(mem, t) && t.ptr == p && Distinct(t) && Kids(t, h, minKeys, maxKeys) && KidsAlike(t)
      requires h > 0 && index < |t.kids| == |t.keys| + 1 && |t.keys| > 0 && |t.kids[index].keys| == minKeys
      modifies `mem
      ensures var (u, j) := Ensure(t, index, minKeys);
        Holds(mem, u) && j < |t.kids| && child == t.kids[j].ptr && mem.Keys <= old(mem.Keys)
      ensures forall r <- old(mem) | r !in Nodes(t) :: r in mem && mem[r] == old(mem)[r]
    {
      hide Holds, Distinct, Whole, Flat, Kids, Merge, StealLeft, StealRight, Nodes;
      AtNode(mem, t);
      KidPtrs(t, index);
      KidsAt(t, h, minKeys, maxKeys, index);
      child := mem[p].children[index];
      if index >= 1 {
        KidPtrs(t, index - 1);
        assert Alike(t.kids[index - 1], t.kids[index - 1 + 1]);
      }
      if index < mem[p].length {
        KidPtrs(t, index + 1);
        assert Alike(t.kids[index], t.kids[index + 1]);
      }
      if index >= 1 && mem[mem[p].children[index - 1]].length > minKeys {
        StealFromLeft(p, index, t);
      } else if index < mem[p].length && mem[mem[p].children[index + 1]].length > minKeys {
        StealFromRight(p, index, t);
      } else if index >= 1 {
        child := mem[p].children[index - 1];
        KidsAt(t, h, minKeys, maxKeys, index - 1);
        MergeChildren(p, index - 1, t);
      } else {
        KidsAt(t, h, minKeys, maxKeys, index + 1);
        MergeChildren(p, index, t);
      }
    }

    /** Makes sure that the child has a key to spare; it may be a different node afterwards. */
    method EnsureChildRemove(p: Ptr, index: nat, ghost t: Tree, ghost h: nat)
      returns (child: Ptr, ghost u: Tree, ghost j: nat)
      requires Sizes() && Holds(mem, t) && t.ptr == p && Distinct(t)
      requires h > 0 && Kids(t, h, minKeys, maxKeys) && |t.keys| > 0 && index < |t.kids|
      modifies `mem
      ensures KidsAlike(t) && (u, j) == Ensure(t, index, minKeys)
      ensures Holds(mem, u) && j < |u.kids| && child == u.kids[j].ptr && mem.Keys <= old(mem.Keys)
      ensures forall r <- old(mem) | r !in Nodes(t) :: r in mem && mem[r] == old(mem)[r]
    {
      hide Nodes, Holds;
      hide Distinct;
      hide Whole;
      hide Flat;
      hide Kids;
      hide Merge;
      hide StealLeft;
      hide StealRight;
      KidCount(t, h, minKeys, maxKeys);
      KidsAt(t, h, minKeys, maxKeys, index);
      EnsureKeeps(t, index, h, minKeys, maxKeys);
      EnsureChild(t, index, minKeys);
      AtNode(mem, t);
      ghost var e := Ensure(t, index, minKeys);
      u, j := e.0, e.1;
      KidPtrs(t, index);
      child := mem[p].children[index];
      if mem[child].length > minKeys {
        return;
      }
      child := StealOrMerge(p, index, t, h);
      AtNode(mem, u);
    }

    /** Removes the first key of the subtree at p, which has a key to spare. */
    method RemoveMin(p: Ptr, ghost t0: Tree, ghost h0: nat) returns (ret: Key, ghost u: Tree)
      requires Sizes() && Holds(mem, t0) && t0.ptr == p && Distinct(t0) && Kids(t0, h0, minKeys, maxKeys)
      requires minKeys < |t0.keys| <= maxKeys
      modifies `mem
      ensures Holds(mem, u) && u.ptr == p && Ok(u, h0, minKeys, minKeys, maxKeys) && Nodes(u) <= Nodes(t0)
      ensures Whole(t0) && Whole(u) && Flat(t0) == [ret] + Flat(u)
      ensures mem.Keys <= old(mem.Keys) && forall r <- old(mem) | r !in Nodes(t0) :: r in mem && mem[r] == old(mem)[r]
    {
      hide EdgeWalk;
      hide Holds;
      hide Distinct;
      hide Whole;
      hide Flat;
      hide Plug;
      hide Ensure;
      hide FrameOf;
      var node := p;
      ghost var c: Path, t, h := [], t0, h0;
      EdgeStart(mem, t0, h0, minKeys, maxKeys, true);
      while true
        invariant EdgeWalk(mem, c, t, h, minKeys, maxKeys, t0, h0, true) && node == t.ptr && minKeys < |t.keys|
        invariant mem.Keys <= old(mem.Keys)
        invariant forall r <- old(mem) | r !in Nodes(t0) :: r in mem && mem[r] == old(mem)[r]
        decreases h
      {
        AtEdge(mem, c, t, h, minKeys, maxKeys, t0, h0, true);
        ghost var m := mem;
        if mem[node].children[0] == 0 {
          ret := RemoveKey(node, 0);
          LeafHolds(m, mem, t, WithoutEdge(t, true));
          EdgeTake(m, mem, c, t, minKeys, maxKeys, t0, h0, true);
          u := Plug(c, WithoutEdge(t, true));
          return;
        }
        ghost var v, j;
        node, v, j := EnsureChildRemove(node, 0, t, h);
        EdgeEnsure(m, mem, c, t, h, minKeys, maxKeys, t0, h0, true, 0, v, j);
        EdgeSpare(mem, c + [FrameOf(v, j)], v.kids[j], h - 1, minKeys, maxKeys, t0, h0, true);
        c, t, h := c + [FrameOf(v, j)], v.kids[j], h - 1;
      }
    }

    /** Removes the last key of the subtree at p, which has a key to spare. */
    method RemoveMax(p: Ptr, ghost t0: Tree, ghost h0: nat) returns (ret: Key, ghost u: Tree)
      requires Sizes() && Holds(mem, t0) && t0.ptr == p && Distinct(t0) && Kids(t0, h0, minKeys, maxKeys)
      requires minKeys < |t0.keys| <= maxKeys
      modifies `mem
      ensures Holds(mem, u) && u.ptr == p && Ok(u, h0, minKeys, minKeys, maxKeys) && Nodes(u) <= Nodes(t0)
      ensures Whole(t0) && Whole(u) && Flat(t0) == Flat(u) + [ret]
      ensures mem.Keys <= old(mem.Keys) && forall r <- old(mem) | r !in Nodes(t0) :: r in mem && mem[r] == old(mem)[r]
    {
      hide EdgeWalk;
      hide Holds;
      hide Distinct;
      hide Whole;
      hide Flat;
      hide Plug;
      hide Ensure;
      hide FrameOf;
      var node := p;
      ghost var c: Path, t, h := [], t0, h0;
      EdgeStart(mem, t0, h0, minKeys, maxKeys, false);
      while true
        invariant EdgeWalk(mem, c, t, h, minKeys, maxKeys, t0, h0, false) && node == t.ptr && minKeys < |t.keys|
        invariant mem.Keys <= old(mem.Keys)
        invariant forall r <- old(mem) | r !in Nodes(t0) :: r in mem && mem[r] == old(mem)[r]
        decreases h
      {
        AtEdge(mem, c, t, h, minKeys, maxKeys, t0, h0, false);
        ghost var m := mem;
        if mem[node].children[0] == 0 {
          mem := mem[node := mem[node].(length := mem[node].length - 1)];
          ret := mem[node].keys[mem[node].length];
          LeafHolds(m, mem, t, WithoutEdge(t, false));
          EdgeTake(m, mem, c, t, minKeys, maxKeys, t0, h0, false);
          u := Plug(c, WithoutEdge(t, false));
          return;
        }
        ghost var v, j;
        node, v, j := EnsureChildRemove(node, mem[node].length, t, h);
        EdgeEnsure(m, mem, c, t, h, minKeys, maxKeys, t0, h0, false, |t.keys|, v, j);
        EdgeSpare(mem, c + [FrameOf(v, j)], v.kids[j], h - 1, minKeys, maxKeys, t0, h0, false);
        c, t, h := c + [FrameOf(v, j)], v.kids[j], h - 1;
      }
    }

    /** The removal's walk has come to t, which has a key to spare unless it is the root. */
    ghost predicate EraseWalk(c: Path, t: Tree, h: nat, val: Key)
      reads this
    {
      && Sizes() && Focus(mem, c, t, h, RootLow(height), minKeys, maxKeys) && Between(c, val)
      && (c != [] ==> minKeys < |t.keys|)
      && tree == Plug(c, t) && tree.ptr == root && height == h + |c| && Whole(tree) && Increasing(Flat(tree))
    }

    /** What search returned for the node. */
    predicate Searched(t: Tree, val: Key, found: bool, index: nat) {
      && index <= |t.keys| && (found <==> val in t.keys) && (found ==> index < |t.keys| && t.keys[index] == val)
      && (!found ==>
           (forall k | 0 <= k < index :: t.keys[k] < val) && (forall k | index <= k < |t.keys| :: val < t.keys[k]))
    }

    /** Simple removal from a leaf. */
    method EraseFromLeaf(node: Ptr, index: nat, val: Key, ghost c: Path, ghost t: Tree)
      requires EraseWalk(c, t, 0, val) && node == t.ptr && index < |t.keys| && t.keys[index] == val
      modifies `mem, `tree
      ensures Valid() && val in old(Contents()) && Contents() == old(Contents()) - {val}
    {
      hide Post, FrameParts, Right, Left, Weave, AllAbove, Pre, Between, Distinct;
      hide Holds;
      AtFocus(mem, c, t, 0, RootLow(height), minKeys, maxKeys);
      ghost var v := Node(t.ptr, t.keys[..index] + t.keys[index + 1..], []);
      assert t.keys == t.keys[..index] + [val] + t.keys[index + 1..];
      CutAtFocus(c, t, v, t.keys[..index], val, t.keys[index + 1..]);
      PlugPtr(c, t, v);
      DropKey(node, index, c, t);
      FocusRoot(mem, c, v, 0, RootLow(height), minKeys, maxKeys);
      tree := Plug(c, v);
    }

    /** The slots of the leaf. */
    method DropKey(node: Ptr, index: nat, ghost c: Path, ghost t: Tree)
      requires Sizes() && Focus(mem, c, t, 0, RootLow(height), minKeys, maxKeys) && node == t.ptr
      requires index < |t.keys| && Low(c, RootLow(height), minKeys) < |t.keys|
      modifies `mem
      ensures Focus(mem, c, Node(t.ptr, t.keys[..index] + t.keys[index + 1..], []), 0, RootLow(height), minKeys, maxKeys)
    {
      AtFocus(mem, c, t, 0, RootLow(height), minKeys, maxKeys);
      AtNode(mem, t);
      hide Plug;
      hide Distinct;
      hide PathOk;
      ghost var m, v := mem, Node(t.ptr, t.keys[..index] + t.keys[index + 1..], []);
      var k := RemoveKey(node, index);
      assert KidNodes(v) == KidNodes(t) && t.ptr in Nodes(t);
      assert mem[node].keys[..mem[node].length] == v.keys by {
        assert forall i | 0 <= i < |t.keys| :: m[node].keys[i] == t.keys[i];
      }
      LeafHolds(m, mem, t, v);
      Refocus(m, mem, c, t, v, 0, RootLow(height), minKeys, maxKeys, t.ptr);
    }

    /** Replaces a key by its predecessor or its successor, taken from a child with a key to spare. */
    method ReplaceKey(node: Ptr, index: nat, val: Key, fromLeft: bool, ghost c: Path, ghost t: Tree, ghost h: nat)
      requires EraseWalk(c, t, h, val) && node == t.ptr && h > 0 && index < |t.keys| && t.keys[index] == val
      requires |t.kids| == |t.keys| + 1 && minKeys < |t.kids[if fromLeft then index else index + 1].keys|
      modifies `mem, `tree
      ensures Valid() && val in old(Contents()) && Contents() == old(Contents()) - {val}
    {
      hide Holds;
      hide Distinct;
      hide Whole;
      hide Flat;
      hide Plug;
      hide Focus;
      SubtreeFacts(mem, c, t, h, RootLow(height), minKeys, maxKeys, if fromLeft then index else index + 1);
      ghost var k, u := TakeNeighbour(node, index, fromLeft, c, t, h);
      ghost var v := Swap(t, index, k, if fromLeft then index else index + 1, u);
      ghost var a, b;
      if fromLeft {
        a, b := SwapLeft(t, index, k, u);
      } else {
        a, b := SwapRight(t, index, k, u);
      }
      CutAtFocus(c, t, v, a, val, b);
      PlugPtr(c, t, v);
      FocusRoot(mem, c, v, h, RootLow(height), minKeys, maxKeys);
      tree := Plug(c, v);
    }

    /** Moves the last key of child index, or the first of the next, up to slot index. */
    method TakeNeighbour(node: Ptr, index: nat, fromLeft: bool, ghost c: Path, ghost t: Tree, ghost h: nat)
      returns (ghost k: Key, ghost u: Tree)
      requires Sizes() && Focus(mem, c, t, h, RootLow(height), minKeys, maxKeys) && node == t.ptr && h > 0
      requires index < |t.keys| && |t.kids| == |t.keys| + 1 && Whole(t)
      requires minKeys < |t.kids[if fromLeft then index else index + 1].keys|
      modifies `mem
      ensures var j := if fromLeft then index else index + 1;
        && Focus(mem, c, Swap(t, index, k, j, u), h, RootLow(height), minKeys, maxKeys)
        && Whole(u) && Whole(t.kids[j]) && Flat(t.kids[j]) == if fromLeft then Flat(u) + [k] else [k] + Flat(u)
    {
      hide Nodes, Holds;
      hide Distinct;
      hide Whole;
      hide Flat;
      hide Plug;
      hide Focus;
      ghost var j := if fromLeft then index else index + 1;
      ghost var m := mem;
      SubtreeFacts(mem, c, t, h, RootLow(height), minKeys, maxKeys, j);
      var key;
      if fromLeft {
        key, u := RemoveMax(mem[node].children[index], t.kids[j], h - 1);
      } else {
        key, u := RemoveMin(mem[node].children[index + 1], t.kids[j], h - 1);
      }
      k := key;
      ghost var m1 := mem;
      mem := mem[node := mem[node].(keys := mem[node].keys[index := key])];
      SwapHolds(m, m1, mem, t, index, k, j, u);
      SwapFocus(m, m1, mem, c, t, h, RootLow(height), minKeys, maxKeys, index, k, j, u);
    }

    /** The node at the focus has been rebalanced to u; a root without keys gives way to its child. */
    method GoDown(node: Ptr, val: Key, ghost m: Memory, ghost c: Path, ghost t: Tree, ghost h: nat, ghost u: Tree,
                  ghost j: nat)
      returns (ghost c': Path)
      requires Sizes() && Focus(m, c, t, h, RootLow(height), minKeys, maxKeys) && Between(c, val) && h > 0
      requires tree == Plug(c, t) && tree.ptr == root && height == h + |c| && Whole(tree) && Increasing(Flat(tree))
      requires node == t.ptr == u.ptr && Holds(mem, u) && Kids(u, h, minKeys, maxKeys) && |u.keys| <= maxKeys
      requires Nodes(u) <= Nodes(t) && Whole(u) && Whole(t) && Flat(u) == Flat(t)
      requires mem.Keys <= m.Keys && forall r <- m | r !in Nodes(t) :: r in mem && mem[r] == m[r]
      requires j < |u.kids| && minKeys < |u.kids[j].keys| && Belongs(u, j, val) && (c != [] ==> minKeys <= |u.keys|)
      modifies this
      ensures EraseWalk(c', u.kids[j], h - 1, val) && Flat(tree) == old(Flat(tree))
    {
      NotRoot(c, t);
      AtNode(mem, u);
      if node == root && mem[root].length == 0 {
        GoDownRoot(m, t, h, u);
        c' := [];
        return;
      }
      PushDown(m, mem, c, t, h, RootLow(height), minKeys, maxKeys, u, j, val);
      c' := c + [FrameOf(u, j)];
      tree := Plug(c', u.kids[j]);
    }

    /** The tree loses a level. */
    method GoDownRoot(ghost m: Memory, ghost t: Tree, ghost h: nat, ghost u: Tree)
      requires Sizes() && Holds(mem, u) && Distinct(t) && Nodes(u) <= Nodes(t) && Kids(u, h, minKeys, maxKeys) && h > 0
      requires root == u.ptr && u.keys == [] && Whole(u) && |u.kids| > 0 && minKeys < |u.kids[0].keys|
      requires Increasing(Flat(u)) && height == h
      modifies this
      ensures |u.kids| == 1 && tree == u.kids[0] && root == tree.ptr && height == h - 1
      ensures Focus(mem, [], tree, h - 1, RootLow(height), minKeys, maxKeys) && Whole(tree) && Flat(tree) == Flat(u)
    {
      assert Distinct(u) by {
        forall p ensures Nodes(u)[p] <= 1 {
          assert Nodes(t)[p] <= 1;
        }
      }
      Collapse(mem, u, h, minKeys, maxKeys);
      AtNode(mem, u);
      var next := mem[root].children[0];
      mem := mem - {root};
      root := next;
      tree, height := u.kids[0], h - 1;
    }

    /** Returns 1 if the key was there, 0 if not. */
    method Erase(val: Key) returns (n: nat)
      requires Valid()
      modifies this
      ensures Valid() && n == (if val in old(Contents()) then 1 else 0) && Contents() == old(Contents()) - {val}
    {
      hide Sizes, RootLow, Low, Focus;
      hide Between;
      hide Increasing;
      hide Holds;
      hide Distinct;
      hide PathOk;
      hide Plug;
      hide Flat;
      hide Whole;
      var node := root;
      ghost var c: Path, t: Tree, h: nat := [], tree, height;
      FocusStart(mem, tree, height, RootLow(height), minKeys, maxKeys, val);
      AtSearch(mem, c, t, h, RootLow(height), minKeys, maxKeys, val);
      var found, index := Search(node, val, t);
      while true
        invariant EraseWalk(c, t, h, val) && node == t.ptr && Flat(tree) == old(Flat(tree))
        invariant Searched(t, val, found, index)
        decreases h
      {
        AtSearch(mem, c, t, h, RootLow(height), minKeys, maxKeys, val);
        assert mem[node].length <= maxKeys && (node == root || mem[node].length > minKeys);
        if mem[node].children[0] == 0 {
          if found {
            EraseFromLeaf(node, index, val, c, t);
            return 1;
          } else {
            FocusRoot(mem, c, t, h, RootLow(height), minKeys, maxKeys);
            return 0;
          }
        } else if found {
          var left, right := mem[node].children[index], mem[node].children[index + 1];
          if mem[left].length > minKeys {
            ReplaceKey(node, index, val, true, c, t, h);
            return 1;
          } else if mem[right].length > minKeys {
            ReplaceKey(node, index, val, false, c, t, h);
            return 1;
          }
          c, t := MergeAndGoDown(node, index, val, c, t, h);
          h := h - 1;
          node, index := left, minKeys;
        } else {
          node, c, t := EnsureAndGoDown(node, index, val, c, t, h);
          h := h - 1;
          AtSearch(mem, c, t, h, RootLow(height), minKeys, maxKeys, val);
          found, index := Search(node, val, t);
        }
      }
    }

    /** The key and both its children become one node, which is looked at next. */
    method MergeAndGoDown(node: Ptr, index: nat, val: Key, ghost c: Path, ghost t: Tree, ghost h: nat)
      returns (ghost c': Path, ghost t': Tree)
      requires EraseWalk(c, t, h, val) && node == t.ptr && h > 0 && index < |t.keys| && t.keys[index] == val
      requires |t.kids| == |t.keys| + 1 && |t.kids[index].keys| <= minKeys && |t.kids[index + 1].keys| <= minKeys
      modifies this
      ensures EraseWalk(c', t', h - 1, val) && Flat(tree) == old(Flat(tree))
      ensures t'.ptr == t.kids[index].ptr && minKeys < |t'.keys| && t'.keys[minKeys] == val
    {
      hide KidNodes, Post, Weave, Fill, FrameParts, Nodes, Parts, AllAbove, Right, All;
      SubtreeFacts(mem, c, t, h, RootLow(height), minKeys, maxKeys, index);
      SubtreeFacts(mem, c, t, h, RootLow(height), minKeys, maxKeys, index + 1);
      KidsAt(t, h, minKeys, maxKeys, index);
      KidsAt(t, h, minKeys, maxKeys, index + 1);
      MergeKeeps(t, index, h, minKeys, maxKeys);
      FocusIncreasing(mem, c, t, h, RootLow(height), minKeys, maxKeys);
      MergeAround(t, index, val);
      hide Holds;
      hide Distinct;
      hide Whole;
      hide Flat;
      hide Plug;
      hide Focus;
      hide Between;
      hide Increasing;
      hide Kids;
      ghost var m, u := mem, Merge(t, index);
      KidPtrs(t, index);
      KidPtrs(t, index + 1);
      MergeChildren(node, index, t);
      c' := GoDown(node, val, m, c, t, h, u, index);
      t' := u.kids[index];
    }

    /** The child where the key may be gets a key to spare and is looked at next. */
    method EnsureAndGoDown(node: Ptr, index: nat, val: Key, ghost c: Path, ghost t: Tree, ghost h: nat)
      returns (child: Ptr, ghost c': Path, ghost t': Tree)
      requires EraseWalk(c, t, h, val) && node == t.ptr && h > 0 && index < |t.kids| && Belongs(t, index, val)
      modifies this
      ensures EraseWalk(c', t', h - 1, val) && Flat(tree) == old(Flat(tree)) && child == t'.ptr
    {
      hide Nodes;
      SubtreeFacts(mem, c, t, h, RootLow(height), minKeys, maxKeys, index);
      FocusIncreasing(mem, c, t, h, RootLow(height), minKeys, maxKeys);
      EnsureKeeps(t, index, h, minKeys, maxKeys);
      EnsureBelongs(t, index, h, minKeys, maxKeys, val);
      hide Holds;
      hide Distinct;
      hide Whole;
      hide Flat;
      hide Plug;
      hide Focus;
      hide Between;
      hide Increasing;
      hide Kids;
      hide Ensure;
      ghost var m := mem;
      ghost var u, j;
      child, u, j := EnsureChildRemove(node, index, t, h);
      c' := GoDown(node, val, m, c, t, h, u, j);
      t' := u.kids[j];
    }
  }
}
