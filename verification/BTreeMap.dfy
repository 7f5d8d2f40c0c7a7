/** The B-tree map: one pass from the root for each operation, and every node knows its parent. */
module BTreeMap {
  import opened BTree
  import opened BTreeMemory
  import opened BTreeNodes
  import opened BTreeOrder
  import opened BTreeFocus
  import opened BTreeMapNodes
  import Loops = BTreeSet

  class BTreeMap {
    // the nodes, field by field
    var mem: Memory
    var vals: map<Ptr, seq<Val>>
    var parent: map<Ptr, Ptr>
    var childIndex: map<Ptr, nat>
    var root: Ptr
    const minKeys: nat
    const maxKeys: nat
    ghost var tree: Tree
    ghost var height: nat
    /** The node each key is stored at. */
    ghost var owner: map<Key, Ptr>
    /** The map. */
    ghost var model: map<Key, Val>

    ghost predicate Sizes() { 0 < minKeys && maxKeys == 2 * minKeys + 1 <= MAXKEYS }

    ghost predicate Fields()
      reads this
    {
      && LinksOk(mem, parent, childIndex) && ValuesOk(mem, vals, owner, model)
      && root in parent && parent[root] == 0
    }

    ghost predicate KeysAre(t: Tree)
      reads this
    {
      Whole(t) && Increasing(Flat(t)) && model.Keys == owner.Keys == KeySet(Flat(t))
    }

    ghost predicate Valid()
      reads this
    {
      && Sizes() && Holds(mem, tree) && tree.ptr == root && Distinct(tree)
      && RootOk(tree, height, minKeys, maxKeys) && KeysAre(tree) && Fields()
    }

    /** The degree is the fewest children of a node other than the root. */
    constructor (degree: nat)
      requires 2 <= degree && 2 * degree - 1 <= MAXKEYS
      ensures Valid() && model == map[]
    {
      minKeys, maxKeys := degree - 1, degree * 2 - 1;
      mem, vals := map[1 := Fresh()], map[1 := seq(MAXKEYS, i => 0)];
      parent, childIndex := map[1 := 0], map[];
      root, tree, height := 1, Node(1, [], []), 0;
      owner, model := map[], map[];
      new;
      assert KidNodes(tree) == [];
    }

    /** The slot of the key by bisection, or the child to look at for it. */
    method Search(p: Ptr, key: Key, ghost t: Tree) returns (found: bool, i: nat)
      requires Holds(mem, t) && t.ptr == p && Increasing(t.keys)
      ensures i <= |t.keys| && (found <==> key in t.keys) && (found ==> i < |t.keys| && t.keys[i] == key)
      ensures !found ==> (forall k | 0 <= k < i :: t.keys[k] < key) && (forall k | i <= k < |t.keys| :: key < t.keys[k])
    {
      hide Adopted, Alike, All;
      if mem[p].length == 0 {
        return false, 0;
      }
      var max, min := mem[p].length, 0;
      while true
        invariant 0 <= min < max <= |t.keys|
        invariant (min > 0 ==> t.keys[min] < key) && (max < |t.keys| ==> key < t.keys[max])
        decreases max - min
      {
        i := min + (max - min) / 2;
        assert mem[p].keys[i] == mem[p].keys[..mem[p].length][i];
        if mem[p].keys[i] == key {
          return true, i;
        } else if mem[p].keys[i] < key {
          if i == mem[p].length - 1 || max - min <= 1 {
            return false, i + 1;
          }
          min := i;
        } else {
          if i == 0 || max - min <= 1 {
            return false, i;
          }
          max := i;
        }
      }
    }

    /** A new node at address q. */
    method NewNode(q: Ptr, p: Ptr)
      modifies `mem, `vals, `parent
      ensures mem == old(mem)[q := Fresh()] && parent == old(parent)[q := p]
      ensures q in vals && |vals[q]| == MAXKEYS && vals == old(vals)[q := vals[q]]
    {
      mem := mem[q := Fresh()];
      vals := vals[q := seq(MAXKEYS, i => 0)];
      parent := parent[q := p];
    }

    /** Children from slot index + 1 on come up by one. */
    method ShiftChildren(p: Ptr, index: nat, ghost q: Ptr)
      requires p in mem && RecOk(mem[p]) && ChildrenApart(mem[p]) && index <= mem[p].length < MAXKEYS
      modifies `mem, `childIndex
      ensures p in mem && mem == old(mem)[p := mem[p]] && mem[p] == old(mem)[p].(children := mem[p].children)
      ensures RecOk(mem[p]) && Renumbered(old(mem)[p], old(childIndex), childIndex, index + 1, q)
      ensures forall k | index + 1 < k <= mem[p].length + 1 :: mem[p].children[k] == old(mem)[p].children[k - 1]
      ensures forall k | 0 <= k <= index :: mem[p].children[k] == old(mem)[p].children[k]
    {
      ghost var r := mem[p];
      var i := mem[p].length + 1;
      while i >= index + 2
        invariant index + 1 <= i <= r.length + 1 && p in mem && mem == old(mem)[p := mem[p]]
        invariant mem[p] == r.(children := mem[p].children) && |mem[p].children| == MAXKEYS + 1
        invariant forall k | i < k <= r.length + 1 :: mem[p].children[k] == r.children[k - 1]
        invariant forall k | 0 <= k <= i && k <= MAXKEYS :: mem[p].children[k] == r.children[k]
        invariant forall k: nat | i <= k <= r.length :: r.children[k] in childIndex && childIndex[r.children[k]] == k + 1
        invariant forall x <- old(childIndex) | !InSlots(r, index + 1, r.length, x) ::
            x in childIndex && childIndex[x] == old(childIndex)[x]
      {
        assert forall k: nat | i <= k <= r.length :: r.children[i - 1] != r.children[k];
        assert InSlots(r, index + 1, r.length, r.children[i - 1]);
        mem := mem[p := mem[p].(children := mem[p].children[i := mem[p].children[i - 1]])];
        childIndex := childIndex[mem[p].children[i] := i];
        i := i - 1;
      }
    }

    /** Makes room in the parent for a child. */
    method OpenChildSlot(p: Ptr, index: nat, right: Ptr)
      requires p in mem && RecOk(mem[p]) && ChildrenApart(mem[p]) && index <= mem[p].length < MAXKEYS
      requires !InSlots(mem[p], 0, mem[p].length, right)
      modifies `mem, `parent, `childIndex
      ensures p in mem && mem == old(mem)[p := mem[p]] && mem[p] == old(mem)[p].(children := mem[p].children)
      ensures RecOk(mem[p]) && mem[p].children[index + 1] == right
      ensures forall k | 0 <= k <= index :: mem[p].children[k] == old(mem)[p].children[k]
      ensures forall k | index + 1 < k <= mem[p].length + 1 :: mem[p].children[k] == old(mem)[p].children[k - 1]
      ensures parent == old(parent)[right := p] && IsChild(parent, childIndex, right, p, index + 1)
      ensures Renumbered(old(mem)[p], old(childIndex), childIndex, index + 1, right)
    {
      ghost var r := mem[p];
      ShiftChildren(p, index, right);
      assert forall i: nat | index + 1 <= i <= r.length :: r.children[i] != right;
      mem := mem[p := mem[p].(children := mem[p].children[index + 1 := right])];
      parent := parent[right := p];
      childIndex := childIndex[right := index + 1];
    }

    /** Makes room for a key with its value, and counts it. */
    method OpenKeySlot(p: Ptr, index: nat, key: Key, val: Val)
      requires p in mem && RecOk(mem[p]) && index <= mem[p].length < MAXKEYS && p in vals && |vals[p]| == MAXKEYS
      modifies `mem, `vals
      ensures p in mem && mem == old(mem)[p := mem[p]] && RecOk(mem[p])
      ensures mem[p].children == old(mem)[p].children && mem[p].length == old(mem)[p].length + 1
      ensures mem[p].keys[index] == key && forall i | 0 <= i < index :: mem[p].keys[i] == old(mem)[p].keys[i]
      ensures forall i | index < i <= old(mem)[p].length :: mem[p].keys[i] == old(mem)[p].keys[i - 1]
      ensures p in vals && vals == old(vals)[p := vals[p]] && |vals[p]| == MAXKEYS
      ensures vals[p][index] == val && forall i | 0 <= i < index :: vals[p][i] == old(vals)[p][i]
      ensures forall i | index < i <= old(mem)[p].length :: vals[p][i] == old(vals)[p][i - 1]
    {
      var pk := Loops.ShiftUp(mem[p].keys, index + 1, mem[p].length);
      var pv := Loops.ShiftUp(vals[p], index + 1, mem[p].length);
      mem := mem[p := mem[p].(keys := pk[index := key])];
      vals := vals[p := pv[index := val]];
      mem := mem[p := mem[p].(length := mem[p].length + 1)];
    }

    /** Makes room in the parent for a key with its value and the child after it. */
    method OpenSlot(p: Ptr, index: nat, left: Ptr, right: Ptr)
      requires p in mem && RecOk(mem[p]) && ChildrenApart(mem[p]) && index <= mem[p].length < MAXKEYS
      requires left in mem && left != p && RecOk(mem[left]) && minKeys < mem[left].length
      requires !InSlots(mem[p], 0, mem[p].length, right)
      requires p in vals && left in vals && |vals[p]| == |vals[left]| == MAXKEYS
      modifies `mem, `vals, `parent, `childIndex
      ensures p in mem && mem == old(mem)[p := mem[p]]
      ensures SlotOpened(old(mem)[p], mem[p], index, old(mem)[left].keys[minKeys], right)
      ensures parent == old(parent)[right := p] && IsChild(parent, childIndex, right, p, index + 1)
      ensures Renumbered(old(mem)[p], old(childIndex), childIndex, index + 1, right)
      ensures p in vals && vals == old(vals)[p := vals[p]] && |vals[p]| == MAXKEYS
      ensures vals[p][index] == old(vals)[left][minKeys]
      ensures forall i | 0 <= i < index :: vals[p][i] == old(vals)[p][i]
      ensures forall i | index < i <= old(mem)[p].length :: vals[p][i] == old(vals)[p][i - 1]
    {
      hide Renumbered, ChildrenApart, InSlots, IsChild;
      OpenChildSlot(p, index, right);
      OpenKeySlot(p, index, mem[left].keys[minKeys], vals[left][minKeys]);
    }

    /** The children after slot minKeys of left go to right. */
    method Adopt(left: Ptr, right: Ptr)
      requires left in mem && right in mem && left != right && RecOk(mem[left]) && RecOk(mem[right])
      requires minKeys < mem[left].length && ChildrenApart(mem[left])
      requires ChildrenIn(mem[left], parent.Keys)
      modifies `mem, `parent, `childIndex
      ensures right in mem && mem == old(mem)[right := mem[right]]
      ensures mem[right] == old(mem)[right].(children := mem[right].children) && RecOk(mem[right])
      ensures forall j | 0 <= j < mem[left].length - minKeys :: mem[right].children[j] == mem[left].children[minKeys + 1 + j]
      ensures parent.Keys == old(parent).Keys
      ensures Adopted(mem[left], right, old(parent), parent, old(childIndex), childIndex, minKeys + 1)
    {
      hide ChildrenIn, AdoptedTo, Adopted, ChildrenApart;
      ghost var l, k := mem[left], minKeys + 1;
      AdoptNone(l, right, parent, childIndex, k);
      var j := 0;
      for i := minKeys + 1 to mem[left].length + 1
        invariant j == i - k && right in mem && mem == old(mem)[right := mem[right]]
        invariant mem[right] == old(mem)[right].(children := mem[right].children) && RecOk(mem[right])
        invariant forall x | 0 <= x < j :: mem[right].children[x] == l.children[k + x]
        invariant parent.Keys == old(parent).Keys
        invariant AdoptedTo(l, right, old(parent), parent, old(childIndex), childIndex, k, i)
      {
        var child := mem[left].children[i];
        assert child in parent by { ChildIn(l, parent.Keys, i); }
        AdoptNext(l, right, old(parent), parent, old(childIndex), childIndex, k, i);
        mem := mem[right := mem[right].(children := mem[right].children[j := child])];
        parent := parent[child := right];
        childIndex := childIndex[child := j];
        j := j + 1;
      }
      AdoptAll(l, right, old(parent), parent, old(childIndex), childIndex, k);
    }

    /** Copies the keys after slot minKeys of left, and their values, to right. */
    method CopyRight(left: Ptr, right: Ptr)
      requires left in mem && right in mem && left != right && RecOk(mem[left]) && RecOk(mem[right])
      requires minKeys < mem[left].length && left in vals && right in vals && |vals[left]| == |vals[right]| == MAXKEYS
      modifies `mem, `vals
      ensures right in mem && mem == old(mem)[right := mem[right]]
      ensures mem[right] == old(mem)[right].(keys := mem[right].keys) && RecOk(mem[right])
      ensures forall j | 0 <= j < mem[left].length - minKeys - 1 :: mem[right].keys[j] == mem[left].keys[minKeys + 1 + j]
      ensures right in vals && vals == old(vals)[right := vals[right]] && |vals[right]| == MAXKEYS
      ensures forall j | 0 <= j < mem[left].length - minKeys - 1 :: vals[right][j] == vals[left][minKeys + 1 + j]
    {
      var rk := Loops.CopySlots(mem[left].keys, minKeys + 1, mem[left].length, mem[right].keys, 0);
      var rv := Loops.CopySlots(vals[left], minKeys + 1, mem[left].length, vals[right], 0);
      mem := mem[right := mem[right].(keys := rk)];
      vals := vals[right := rv];
    }

    /** Splits the full child at index; q is the address of its new right half. */
    method SplitChild(p: Ptr, index: nat, q: Ptr, ghost t: Tree)
      requires Sizes() && Holds(mem, t) && t.ptr == p && Distinct(t) && KidsAlike(t)
      requires index < |t.kids| && |t.keys| < maxKeys && |t.kids[index].keys| == maxKeys && q != 0 && q !in mem
      requires t.kids[index].kids == [] || |t.kids[index].kids| == maxKeys + 1
      requires Increasing(t.kids[index].keys) && LinksOk(mem, parent, childIndex) && ValuesOk(mem, vals, owner, model)
      modifies `mem, `vals, `parent, `childIndex, `owner
      ensures Holds(mem, Split(t, index, minKeys, q)) && q in mem
      ensures forall r <- old(mem) | r != p && r != t.kids[index].ptr :: r in mem && mem[r] == old(mem)[r]
      ensures LinksOk(mem, parent, childIndex) && ValuesOk(mem, vals, owner, model) && owner.Keys == old(owner).Keys
      ensures forall x <- old(parent) | old(parent)[x] == 0 :: x in parent && parent[x] == 0
    {
      hide LinksOk, ValuesOk, Holds, KidsAlike, Distinct, Adopted, Renumbered, HasSplit, ValuesSplit, Split, MovedOwner;
      ghost var m, v0, pa0, ci0 := mem, vals, parent, childIndex;
      AtSplit(mem, t, index, q, parent, childIndex);
      ValueSizes(mem, vals, owner, model);
      LinkSizes(mem, parent, childIndex);
      ghost var left := mem[p].children[index];
      ghost var pa1, ci1 := SplitSlots(p, index, q);
      OwnersStay(owner, m[left], minKeys, p, q);
      owner := MovedOwner(owner, m[left], minKeys, p, q);
      SplitDone(m, mem, t, index, minKeys, q);
      SplitLinks(m, mem, p, index, minKeys, q, pa0, pa1, parent, ci0, ci1, childIndex);
      SplitValues(m, mem, p, index, minKeys, q, v0, vals, old(owner), model);
      forall x <- pa0 | pa0[x] == 0 ensures x in parent && parent[x] == 0 {
        SplitRoots(m, mem, p, index, minKeys, q, pa0, pa1, parent, ci0, ci1, childIndex, x);
      }
    }

    /** The new node with its keys, and its slot in the parent. */
    method StartSplit(p: Ptr, index: nat, left: Ptr, right: Ptr)
      requires p in mem && left in mem && left != p && right !in mem && p in vals && left in vals
      requires RecOk(mem[p]) && RecOk(mem[left]) && ChildrenApart(mem[p]) && !InSlots(mem[p], 0, mem[p].length, right)
      requires index <= mem[p].length < MAXKEYS && minKeys < mem[left].length && |vals[p]| == |vals[left]| == MAXKEYS
      modifies `mem, `vals, `parent, `childIndex
      ensures p in mem && right in mem && mem == old(mem)[right := mem[right]][p := mem[p]]
      ensures SlotOpened(old(mem)[p], mem[p], index, old(mem)[left].keys[minKeys], right)
      ensures RecOk(mem[right]) && mem[right].children == Fresh().children
      ensures forall j | 0 <= j < mem[left].length - minKeys - 1 :: mem[right].keys[j] == mem[left].keys[minKeys + 1 + j]
      ensures parent == old(parent)[right := p] && IsChild(parent, childIndex, right, p, index + 1)
      ensures Renumbered(old(mem)[p], old(childIndex), childIndex, index + 1, right)
      ensures vals.Keys == old(vals).Keys + {right} && |vals[p]| == |vals[right]| == MAXKEYS
      ensures forall r <- old(vals) | r != p && r != right :: vals[r] == old(vals)[r]
      ensures forall j | 0 <= j < mem[left].length - minKeys - 1 :: vals[right][j] == old(vals)[left][minKeys + 1 + j]
      ensures vals[p][index] == old(vals)[left][minKeys]
      ensures forall i | 0 <= i < index :: vals[p][i] == old(vals)[p][i]
      ensures forall i | index < i <= old(mem)[p].length :: vals[p][i] == old(vals)[p][i - 1]
    {
      hide Renumbered, ChildrenApart, InSlots, SlotOpened, IsChild;
      NewNode(right, p);
      CopyRight(left, right);
      OpenSlot(p, index, left, right);
    }

    /** The stores of a split. */
    method SplitSlots(p: Ptr, index: nat, q: Ptr) returns (ghost pa1: map<Ptr, Ptr>, ghost ci1: map<Ptr, nat>)
      requires p in mem && vals.Keys == parent.Keys == mem.Keys && q != 0 && q !in mem
      requires RecOk(mem[p]) && |vals[p]| == MAXKEYS && ChildrenApart(mem[p])
      requires index <= mem[p].length < MAXKEYS && mem[p].children[0] != 0
      requires !InSlots(mem[p], 0, mem[p].length, q)
      requires var left := mem[p].children[index];
        && left in mem && left != p && RecOk(mem[left]) && |vals[left]| == MAXKEYS && minKeys < mem[left].length
        && (mem[left].children[0] != 0 ==> ChildrenApart(mem[left]) && ChildrenIn(mem[left], parent.Keys))
      modifies `mem, `vals, `parent, `childIndex
      ensures HasSplit(old(mem), mem, p, index, minKeys, q)
      ensures ValuesSplit(old(mem), old(vals), vals, p, index, minKeys, q)
      ensures pa1 == old(parent)[q := p] && parent.Keys == mem.Keys && IsChild(pa1, ci1, q, p, index + 1)
      ensures Renumbered(old(mem)[p], old(childIndex), ci1, index + 1, q)
      ensures var left := old(mem)[p].children[index];
        if old(mem)[left].children[0] == 0 then parent == pa1 && childIndex == ci1
        else Adopted(old(mem)[left], q, pa1, parent, ci1, childIndex, minKeys + 1)
    {
      hide Alike, Adopted, Renumbered, ChildrenApart, ChildrenIn, InSlots, SlotOpened, HasSplit;
      var left, right := mem[p].children[index], q;
      StartSplit(p, index, left, right);
      ghost var m1 := mem;
      pa1, ci1 := parent, childIndex;
      if mem[left].children[0] != 0 {
        ChildrenInMore(mem[left], old(parent).Keys, parent.Keys);
        Adopt(left, right);
      }
      ghost var m2 := mem;
      mem := mem[right := mem[right].(length := mem[left].length - minKeys - 1)];
      mem := mem[left := mem[left].(length := minKeys)];
      SplitStores(old(mem), m1, m2, mem, p, index, minKeys, right);
    }

    /** A full root gets a new root above it. */
    method SplitRoot()
      requires Valid() && |tree.keys| == maxKeys
      modifies this
      ensures Valid() && |tree.keys| == 1 && model == old(model)
    {
      hide Holds, Distinct;
      hide Flat;
      hide Whole;
      hide LinksOk, ValuesOk;
      KeysIncreasing(tree);
      ghost var t := RaiseRoot();
      var q := Unused(mem);
      BTreeFocus.NewNode(mem, t, q);
      SplitChild(root, 0, q, t);
      RootSplit(t, height, minKeys, maxKeys, q);
      tree, height := Split(t, 0, minKeys, q), height + 1;
    }

    /** The root becomes the only child of a new node without keys. */
    method RaiseRoot() returns (ghost t: Tree)
      requires Valid() && |tree.keys| == maxKeys
      modifies `mem, `vals, `parent, `childIndex, `root
      ensures t == Node(root, [], [tree]) && Holds(mem, t) && Distinct(t) && KidsAlike(t)
      ensures tree.kids == [] || |tree.kids| == |tree.keys| + 1
      ensures Fields()
    {
      hide Holds, Distinct, Whole, Flat, Increasing, KeySet, LinksOk, ValuesOk, KidsAlike;
      ghost var m := mem;
      AtNode(mem, tree);
      LinkSizes(mem, parent, childIndex);
      var child := root;
      root := Unused(mem);
      NewNode(root, 0);
      FreshFields(m, root, 0, old(parent), childIndex, old(vals), vals[root], owner, model);
      ghost var m1, pa1 := mem, parent;
      parent := parent[child := root];
      mem := mem[root := mem[root].(children := mem[root].children[0 := child])];
      childIndex := childIndex[child := 0];
      t := Node(root, [], [tree]);
      RaiseLinks(m1, root, child, pa1, old(childIndex));
      ChildrenOnly(m1, mem, root, vals, owner, model);
      RootAbove(m, mem, tree, root, height, minKeys, maxKeys);
    }

    /** Splits a full child below the focus; the keys from left to right stay as they are. */
    method SplitBelow(node: Ptr, i: nat, ghost c: Path, ghost t: Tree, ghost h: nat) returns (ghost u: Tree)
      requires Sizes() && Focus(mem, c, t, h, RootLow(height), minKeys, maxKeys) && node == t.ptr
      requires h > 0 && i < |t.kids| && Increasing(t.kids[i].keys)
      requires |t.kids| == |t.keys| + 1 <= maxKeys && |t.kids[i].keys| == maxKeys && Fields()
      modifies `mem, `vals, `parent, `childIndex, `owner
      ensures Focus(mem, c, u, h, RootLow(height), minKeys, maxKeys) && u.ptr == node && |u.keys| == |t.keys| + 1
      ensures u.keys[..i] == t.keys[..i] && u.keys[i + 1..] == t.keys[i..]
      ensures |u.kids| == |t.kids| + 1 && |u.kids[i].keys| == |u.kids[i + 1].keys| == minKeys
      ensures u.kids[i].ptr == t.kids[i].ptr
      ensures Whole(Plug(c, u)) && Whole(Plug(c, t)) && Flat(Plug(c, u)) == Flat(Plug(c, t))
      ensures Plug(c, u).ptr == Plug(c, t).ptr
      ensures Fields() && owner.Keys == old(owner).Keys
    {
      hide Plug, Flat, Whole, PathOk, Holds, Distinct, LinksOk, ValuesOk, KidsAlike, Increasing, PathWhole;
      var q := Unused(mem);
      BelowFocus(mem, c, t, h, RootLow(height), minKeys, maxKeys, i);
      ghost var m := mem;
      SplitChild(node, i, q, t);
      SplitFocus(m, mem, c, t, h, RootLow(height), minKeys, maxKeys, i, q);
      u := Split(t, i, minKeys, q);
    }

    /** The insertion's walk has come to t, with room for one more key and all others in place. */
    ghost predicate Walk(c: Path, t: Tree, h: nat, key: Key)
      reads this
    {
      && Sizes() && Focus(mem, c, t, h, RootLow(height), minKeys, maxKeys) && |t.keys| < maxKeys && Between(c, key)
      && tree == Plug(c, t) && tree.ptr == root && height == h + |c| && KeysAre(tree) && Fields()
    }

    /** Simple insertion into a leaf. */
    method InsertIntoLeaf(node: Ptr, index: nat, key: Key, val: Val, ghost c: Path, ghost t: Tree)
      requires Walk(c, t, 0, key) && node == t.ptr && index <= |t.keys|
      requires (forall k | 0 <= k < index :: t.keys[k] < key) && (forall k | index <= k < |t.keys| :: key < t.keys[k])
      modifies `mem, `vals, `tree, `owner, `model
      ensures Valid() && key !in old(model) && model == old(model)[key := val]
    {
      hide Focus, Between, Increasing, Holds, Distinct, PathOk, Plug, Flat, Whole, LinksOk, ValuesOk, KeySet;
      AtFocus(mem, c, t, 0, RootLow(height), minKeys, maxKeys);
      ghost var u := Node(t.ptr, t.keys[..index] + [key] + t.keys[index..], []);
      PutKey(c, t, index, key);
      PlugPtr(c, t, u);
      InKeys(Flat(tree), key);
      assert key !in model;
      StoreKey(node, index, key, val, c, t);
      FocusRoot(mem, c, u, 0, RootLow(height), minKeys, maxKeys);
      tree := Plug(c, u);
    }

    /** The slots of the leaf. */
    method StoreKey(node: Ptr, index: nat, key: Key, val: Val, ghost c: Path, ghost t: Tree)
      requires Sizes() && Focus(mem, c, t, 0, RootLow(height), minKeys, maxKeys) && node == t.ptr
      requires index <= |t.keys| < maxKeys && Fields() && key !in model
      modifies `mem, `vals, `owner, `model
      ensures Focus(mem, c, Node(t.ptr, t.keys[..index] + [key] + t.keys[index..], []), 0, RootLow(height), minKeys,
        maxKeys)
      ensures Fields() && owner == old(owner)[key := node] && model == old(model)[key := val]
    {
      hide Focus, Plug, Distinct, PathOk, LinksOk, ValuesOk, Flat, Whole, KidsAlike, Holds, PathWhole;
      AtFocus(mem, c, t, 0, RootLow(height), minKeys, maxKeys);
      AtNode(mem, t);
      LeafBySlot(mem, t);
      ValueSizes(mem, vals, owner, model);
      ghost var m, v0, u := mem, vals, Node(t.ptr, t.keys[..index] + [key] + t.keys[index..], []);
      OpenKeySlot(node, index, key, val);
      InsertKey(mem[node].keys, m[node].keys, t.keys, index, key);
      LeafFocus(m, mem, c, t, u, RootLow(height), minKeys, maxKeys);
      LeafLinks(m, mem, node, parent, childIndex);
      InsertValues(m, mem, node, index, key, val, v0, vals, owner, model);
      owner, model := owner[key := node], model[key := val];
    }

    /** The key is there: its value changes. */
    method ReplaceVal(node: Ptr, index: nat, val: Val, ghost t: Tree)
      requires Holds(mem, t) && node == t.ptr && index < |t.keys| && Increasing(t.keys) && Fields()
      requires t.keys[index] in model
      modifies `vals, `model
      ensures Fields() && model == old(model)[t.keys[index] := val]
    {
      AtNode(mem, t);
      LinkSizes(mem, parent, childIndex);
      hide LinksOk;
      assert mem[node].keys[..mem[node].length][index] == mem[node].keys[index];
      ReplaceValues(mem, node, index, val, vals, owner, model);
      vals := vals[node := vals[node][index := val]];
      model := model[t.keys[index] := val];
    }

    /** On the walk to the key, at a node whose child j, not full, the key belongs in. */
    ghost predicate Chosen(c: Path, t: Tree, h: nat, key: Key, j: nat)
      reads this
    {
      && Sizes() && Focus(mem, c, t, h, RootLow(height), minKeys, maxKeys) && Between(c, key) && h > 0
      && tree == Plug(c, t) && tree.ptr == root && height == h + |c| && KeysAre(tree) && Fields()
      && j < |t.kids| == |t.keys| + 1 && |t.kids[j].keys| < maxKeys
      && (j > 0 ==> t.keys[j - 1] < key) && (j < |t.keys| ==> key < t.keys[j])
    }

    /** The child to go on with is full: it is split, and the key is in one half or has come up. */
    method SplitForPut(node: Ptr, index: nat, key: Key, val: Val, ghost c: Path, ghost t: Tree, ghost h: nat)
      returns (present: bool, child: Ptr, ghost u: Tree, ghost j: nat)
      requires Walk(c, t, h, key) && node == t.ptr && h > 0 && index < |t.kids| == |t.keys| + 1
      requires (index > 0 ==> t.keys[index - 1] < key) && (index < |t.keys| ==> key < t.keys[index])
      requires |t.kids[index].keys| == maxKeys && Increasing(t.kids[index].keys)
      modifies `mem, `vals, `parent, `childIndex, `owner, `tree, `model
      ensures if present then Valid() && key in old(model) && model == old(model)[key := val]
        else Chosen(c, u, h, key, j) && child == u.kids[j].ptr && model == old(model)
    {
      hide AllAbove, Focus, Increasing, Holds, FrameOf, Distinct, PathOk, Plug, Flat, Whole, LinksOk,
        ValuesOk, KeySet, Between, RecIs;
      j := index;
      u := SplitBelow(node, index, c, t, h);
      tree := Plug(c, u);
      AtSearch(mem, c, u, h, RootLow(height), minKeys, maxKeys, key);
      Slots(mem[node], u, index);
      KeysBeside(t.keys, u.keys, index, key);
      present, child := false, mem[node].children[index];
      var middleKey := mem[node].keys[index];
      if middleKey == key {
        FocusRoot(mem, c, u, h, RootLow(height), minKeys, maxKeys);
        InKeys(Flat(tree), key);
        ReplaceVal(node, index, val, u);
        present := true;
      } else if middleKey < key {
        child, j := mem[node].children[index + 1], index + 1;
      }
    }

    /** The child to go on to, split if it was full; or else the key that came up is the one to put. */
    method ChildForPut(node: Ptr, index: nat, key: Key, val: Val, ghost c: Path, ghost t: Tree, ghost h: nat)
      returns (present: bool, child: Ptr, ghost c': Path, ghost t': Tree)
      requires Walk(c, t, h, key) && node == t.ptr && h > 0 && index < |t.kids| && index <= |t.keys|
      requires (forall k | 0 <= k < index :: t.keys[k] < key) && (forall k | index <= k < |t.keys| :: key < t.keys[k])
      modifies `mem, `vals, `parent, `childIndex, `owner, `tree, `model
      ensures if present then Valid() && key in old(model) && model == old(model)[key := val]
        else Walk(c', t', h - 1, key) && child == t'.ptr && model == old(model)
    {
      hide AllAbove, Focus, Between, Increasing, Holds, FrameOf, Distinct, PathOk, Plug, Flat, Whole, LinksOk,
        ValuesOk, KeySet, RecIs, Fields;
      AtSearch(mem, c, t, h, RootLow(height), minKeys, maxKeys, key);
      KidKeys(t, index);
      Slots(mem[node], t, index);
      present, child := false, mem[node].children[index];
      ghost var u, j := t, index;
      if mem[child].length == maxKeys {
        RecLength(mem[child], t.kids[index]);
        present, child, u, j := SplitForPut(node, index, key, val, c, t, h);
        if present {
          return present, child, c, t;
        }
        AtSearch(mem, c, u, h, RootLow(height), minKeys, maxKeys, key);
      } else {
        RecLength(mem[child], t.kids[index]);
      }
      FocusDown(mem, c, u, h, RootLow(height), minKeys, maxKeys, j);
      BetweenDown(c, u, j, key);
      c', t' := c + [FrameOf(u, j)], u.kids[j];
    }

    /** True if there was no value for the key. */
    method InnerPut(key: Key, val: Val) returns (added: bool)
      requires Valid()
      modifies this
      ensures Valid() && added == (key !in old(model)) && model == old(model)[key := val]
    {
      hide Fields, Focus, Between, Increasing, Holds, Distinct, PathOk, Plug, Flat, Whole, LinksOk, ValuesOk, KeySet;
      AtRoot(key);
      if mem[root].length == maxKeys {
        SplitRoot();
        AtRoot(key);
      }
      var node := root;
      ghost var c: Path, t: Tree, h: nat := [], tree, height;
      while true
        invariant Walk(c, t, h, key) && node == t.ptr && model == old(model)
        decreases h
      {
        AtSearch(mem, c, t, h, RootLow(height), minKeys, maxKeys, key);
        assert mem[node].length < maxKeys && (node == root || mem[node].length >= minKeys);
        var found, index := Search(node, key, t);
        if found {
          FocusRoot(mem, c, t, h, RootLow(height), minKeys, maxKeys);
          InKeys(Flat(tree), key);
          ReplaceVal(node, index, val, t);
          return false;
        }
        if mem[node].children[0] == 0 {
          InsertIntoLeaf(node, index, key, val, c, t);
          return true;
        }
        var present;
        present, node, c, t := ChildForPut(node, index, key, val, c, t, h);
        if present {
          return false;
        }
        h := h - 1;
      }
    }

    /** Where every walk begins. */
    lemma {:induction false} AtRoot(key: Key)
      requires Valid()
      ensures Sizes() && Focus(mem, [], tree, height, RootLow(height), minKeys, maxKeys) && Between([], key)
      ensures tree.ptr == root && tree == Plug([], tree) && KeysAre(tree) && Fields()
      ensures root in mem && RecIs(mem[root], tree) && |tree.keys| <= maxKeys
      ensures mem[root].children[0] == 0 <==> height == 0
      ensures Whole(tree) && Increasing(Flat(tree)) && (key in model <==> key in Flat(tree))
      ensures ValuesOk(mem, vals, owner, model)
    {
      hide LinksOk, ValuesOk;
      FocusStart(mem, tree, height, RootLow(height), minKeys, maxKeys, key);
      LeafBySlot(mem, tree);
      assert Kids(tree, height, minKeys, maxKeys);
      InKeys(Flat(tree), key);
    }

    /** The value of the key, if it has one. */
    method InnerGet(key: Key) returns (found: bool, val: Val)
      requires Valid()
      ensures found == (key in model) && (found ==> val == model[key])
    {
      hide *;
      AtRoot(key);
      var node := root;
      ghost var c: Path, t: Tree, h: nat := [], tree, height;
      while true
        invariant Focus(mem, c, t, h, RootLow(height), minKeys, maxKeys) && node == t.ptr && tree == Plug(c, t)
        invariant Between(c, key)
        decreases h
      {
        AtGet(mem, c, t, h, RootLow(height), minKeys, maxKeys, key);
        var i;
        found, i := Search(node, key, t);
        if found {
          ValueAt(mem, t, i, vals, owner, model);
          return true, vals[node][i];
        } else if mem[node].children[0] == 0 {
          return false, 0;
        }
        node := mem[node].children[i];
        FocusDown(mem, c, t, h, RootLow(height), minKeys, maxKeys, i);
        BetweenDown(c, t, i, key);
        c, t, h := c + [FrameOf(t, i)], t.kids[i], h - 1;
      }
    }
  }

  /** The stores of a split, all together. */
  lemma {:induction false} SplitDone(m: Memory, m': Memory, t: Tree, index: nat, k: nat, q: Ptr)
    requires Holds(m, t) && Distinct(t) && index < |t.kids| == |t.keys| + 1 && k < |t.kids[index].keys|
    requires t.kids[index].kids == [] || |t.kids[index].kids| == |t.kids[index].keys| + 1
    requires HasSplit(m, m', t.ptr, index, k, q)
    ensures Holds(m', Split(t, index, k, q)) && q in m'
    ensures forall r <- m | r != t.ptr && r != t.kids[index].ptr :: r in m' && m'[r] == m[r]
  {
    var c := t.kids[index];
    AtNode(m, t);
    assert Holds(m, c);
    LeafBySlot(m, c);
    IsBack(m[c.ptr], m'[q], c, k, q);
    IsFront(m[c.ptr], m'[c.ptr], c, k);
    IsSplit(m[t.ptr], m'[t.ptr], t, index, k, q);
    SplitHolds(m, m', t, index, k, q);
  }

  lemma {:induction false} BelowFocus(m: Memory, c: Path, t: Tree, h: nat, lo: nat, min: nat, max: nat, i: nat)
    requires Focus(m, c, t, h, lo, min, max) && h > 0 && i < |t.kids| && |t.kids[i].keys| == max
    ensures Holds(m, t) && Distinct(t) && KidsAlike(t) && (t.kids[i].kids == [] || |t.kids[i].kids| == max + 1)
  {
    AtFocus(m, c, t, h, lo, min, max);
    KidsAt(t, h, min, max, i);
  }

  /** A leaf at the focus has taken a key. */
  lemma {:induction false} LeafFocus(m: Memory, m': Memory, c: Path, t: Tree, u: Tree, lo: nat, min: nat, max: nat)
    requires Focus(m, c, t, 0, lo, min, max) && t.ptr in m' && m' == m[t.ptr := m'[t.ptr]] && RecIs(m'[t.ptr], u)
    requires u.ptr == t.ptr && u.kids == t.kids == [] && |t.keys| < |u.keys| <= max
    ensures Focus(m', c, u, 0, lo, min, max)
  {
    AtFocus(m, c, t, 0, lo, min, max);
    assert KidNodes(u) == KidNodes(t) && t.ptr in Nodes(t);
    Refocus(m, m', c, t, u, 0, lo, min, max, t.ptr);
  }

  /** What a lookup at the focus needs to know. */
  lemma {:induction false} AtGet(m: Memory, c: Path, t: Tree, h: nat, lo: nat, min: nat, max: nat, v: Key)
    requires Focus(m, c, t, h, lo, min, max) && Between(c, v) && Whole(Plug(c, t)) && Increasing(Flat(Plug(c, t)))
    ensures Holds(m, t) && t.ptr in m && RecIs(m[t.ptr], t) && Whole(t) && Increasing(Flat(t)) && Increasing(t.keys)
    ensures |m[t.ptr].children| == MAXKEYS + 1 && |t.keys| <= MAXKEYS
    ensures m[t.ptr].children[0] == 0 <==> h == 0
    ensures (v in t.keys ==> v in Flat(Plug(c, t))) && (h == 0 && v !in t.keys ==> v !in Flat(Plug(c, t)))
    ensures h > 0 ==> |t.kids| == |t.keys| + 1 && forall i | 0 <= i <= |t.keys| :: m[t.ptr].children[i] == t.kids[i].ptr
  {
    AtSearch(m, c, t, h, lo, min, max, v);
  }

  /** Opening a slot, filling the right half and cutting both to length make the split. */
  lemma {:induction false} SplitStores(m: Memory, m1: Memory, m2: Memory, m3: Memory, p: Ptr, i: nat, k: nat, q: Ptr)
    requires p in m && RecOk(m[p]) && i <= m[p].length < MAXKEYS && m[p].children[0] != 0 && q != 0 && q !in m
    requires var left := m[p].children[i];
      && left in m && left != p && RecOk(m[left]) && k < m[left].length
      && p in m1 && q in m1 && m1 == m[q := m1[q]][p := m1[p]] && SlotOpened(m[p], m1[p], i, m[left].keys[k], q)
      && RecOk(m1[q]) && m1[q].children[0] == 0
      && (forall j | 0 <= j < m[left].length - k - 1 :: m1[q].keys[j] == m[left].keys[k + 1 + j])
      && q in m2 && m2 == m1[q := m2[q]] && RecOk(m2[q]) && m2[q] == m1[q].(children := m2[q].children)
      && (if m[left].children[0] == 0 then m2 == m1
          else forall j | 0 <= j < m[left].length - k :: m2[q].children[j] == m[left].children[k + 1 + j])
      && m3 == m2[q := m2[q].(length := m[left].length - k - 1)][left := m2[left].(length := k)]
    ensures HasSplit(m, m3, p, i, k, q)
  {
    hide SlotOpened;
  }

  lemma {:induction false} RecLength(r: Rec, t: Tree)
    requires RecIs(r, t)
    ensures r.length == |t.keys|
  {
  }

  lemma {:induction false} Slots(r: Rec, t: Tree, i: nat)
    requires RecIs(r, t) && i < |t.kids| == |t.keys| + 1
    ensures RecOk(r) && r.children[i] == t.kids[i].ptr
    ensures i < |t.keys| ==> r.keys[i] == t.keys[i] && r.children[i + 1] == t.kids[i + 1].ptr
  {
    assert i < |t.keys| ==> r.keys[..r.length][i] == r.keys[i];
  }

  /** The keys on both sides of one that has come up at slot i. */
  lemma {:induction false} KeysBeside(ks: seq<Key>, us: seq<Key>, i: nat, v: Key)
    requires |us| == |ks| + 1 && i <= |ks| && us[..i] == ks[..i] && us[i + 1..] == ks[i..]
    requires (i > 0 ==> ks[i - 1] < v) && (i < |ks| ==> v < ks[i])
    ensures (i > 0 ==> us[i - 1] < v) && (i + 1 < |us| ==> v < us[i + 1])
  {
    assert i > 0 ==> us[i - 1] == us[..i][i - 1] == ks[..i][i - 1];
    assert i < |ks| ==> us[i + 1] == us[i + 1..][0] == ks[i..][0];
  }
}
