/** EsLoco2's free lists: singly linked through the blocks, with a count and a tail. */
module EsLocoLists {
  import opened EsLocoBytes

  datatype FList = FList(count: nat, head: Addr, tail: Addr)

  const EMPTY: FList := FList(0, 0, 0)
  const MAX_LIST_SIZE: nat := 64

  predicate Chain(mem: Memory, head: Addr, s: seq<Addr>)
    decreases |s|
  {
    if s == [] then head == 0 else head == s[0] && head != 0 && Chain(mem, Next(mem, head), s[1..])
  }

  predicate NoDup(s: seq<Addr>) { forall i, j | 0 <= i < j < |s| :: s[i] != s[j] }

  /** The list holds exactly the blocks s, in that order. */
  predicate ListIs(mem: Memory, f: FList, s: seq<Addr>) {
    && Chain(mem, f.head, s) && NoDup(s) && f.count == |s|
    && f.tail == if s == [] then 0 else s[|s| - 1]
  }

  lemma {:induction false} ChainStays(mem: Memory, mem': Memory, head: Addr, s: seq<Addr>)
    requires Chain(mem, head, s) && forall a <- s :: Next(mem', a) == Next(mem, a)
    ensures Chain(mem', head, s)
    decreases |s|
  {
    if s != [] {
      ChainStays(mem, mem', Next(mem, head), s[1..]);
    }
  }

  /** Linking the end of one chain to the head of another. */
  lemma {:induction false} ChainAppend(mem: Memory, mem': Memory, head: Addr, s: seq<Addr>, head2: Addr, u: seq<Addr>)
    requires Chain(mem, head, s) && s != [] && NoDup(s) && Chain(mem', head2, u)
    requires Next(mem', s[|s| - 1]) == head2 && forall a <- s | a != s[|s| - 1] :: Next(mem', a) == Next(mem, a)
    ensures Chain(mem', head, s + u)
    decreases |s|
  {
    hide Next;
    assert (s + u)[1..] == s[1..] + u;
    if |s| == 1 {
      assert s[1..] + u == u;
    } else {
      assert s[1..][|s[1..]| - 1] == s[|s| - 1];
      assert s[0] != s[|s| - 1];
      assert forall a <- s[1..] :: a in s;
      ChainAppend(mem, mem', Next(mem, head), s[1..], head2, u);
    }
  }

  lemma {:induction false} NonNull(mem: Memory, head: Addr, s: seq<Addr>)
    requires Chain(mem, head, s)
    ensures forall i | 0 <= i < |s| :: s[i] != 0
    decreases |s|
  {
    if s != [] {
      NonNull(mem, Next(mem, head), s[1..]);
      assert forall i | 0 < i < |s| :: s[i] == s[1..][i - 1];
    }
  }

  lemma {:induction false} JoinNoDup(s: seq<Addr>, u: seq<Addr>)
    requires NoDup(s) && NoDup(u) && forall a <- s :: a !in u
    ensures NoDup(s + u)
  {
    forall i, j | 0 <= i < j < |s + u| ensures (s + u)[i] != (s + u)[j] {
      if i < |s| <= j {
        assert s[i] in s && u[j - |s|] in u;
      }
    }
  }

  lemma {:induction false} NoBlocksListed(mem: Memory)
    ensures ListIs(mem, EMPTY, [])
  {
  }

  method PushBlock(mem: Memory, f: FList, myblock: Addr, ghost s: seq<Addr>) returns (mem': Memory, f': FList)
    requires ListIs(mem, f, s) && myblock != 0 && f.head < WORD_LIMIT
    requires myblock !in s && forall a <- s :: Clear(a, HEADER, myblock, HEADER)
    ensures mem' == PutNext(mem, myblock, f.head) && ListIs(mem', f', [myblock] + s)
  {
    hide Next, PutNext;
    f' := f;
    var lhead := f.head;
    if lhead == 0 {
      assert f.count == 0;
      f' := f'.(tail := myblock);
    }
    mem' := PutNext(mem, myblock, lhead);
    NextPut(mem, myblock, lhead);
    forall a <- s ensures Next(mem', a) == Next(mem, a) {
      assert SameHeader(mem, mem', a);
    }
    f' := f'.(head := myblock);
    f' := f'.(count := f'.count + 1);
    ChainStays(mem, mem', lhead, s);
    assert ([myblock] + s)[1..] == s;
  }

  method PopBlock(mem: Memory, f: FList, ghost s: seq<Addr>) returns (f': FList, myblock: Addr)
    requires ListIs(mem, f, s) && f.count != 0
    ensures myblock == s[0] && ListIs(mem, f', s[1..])
  {
    NonNull(mem, f.head, s);
    assert f.tail != 0;
    f' := f.(count := f.count - 1);
    myblock := f'.head;
    f' := f'.(head := Next(mem, myblock));
    if f'.head == 0 {
      f' := f'.(tail := 0);
    }
  }

  /** Moves a whole list in front of another, by their ends. */
  method Transfer(mem: Memory, f: FList, o: FList, ghost s: seq<Addr>, ghost u: seq<Addr>)
    returns (mem': Memory, f': FList, o': FList)
    requires ListIs(mem, f, s) && ListIs(mem, o, u) && f.count != 0
    requires o.head < WORD_LIMIT && forall a <- s :: a !in u
    requires forall a | a in s + u && a != s[|s| - 1] :: Clear(a, HEADER, s[|s| - 1], HEADER)
    ensures mem' == PutNext(mem, s[|s| - 1], o.head)
    ensures f' == EMPTY && ListIs(mem', f', []) && ListIs(mem', o', s + u)
  {
    hide Next, PutNext, NoDup;
    NonNull(mem, f.head, s);
    NonNull(mem, o.head, u);
    assert f.tail != 0;
    o' := o;
    if o.tail == 0 {
      assert o.head == 0;
      o' := o'.(tail := f.tail);
    }
    mem' := PutNext(mem, f.tail, o'.head);
    NextPut(mem, f.tail, o.head);
    forall a | a in s + u && a != s[|s| - 1] ensures Next(mem', a) == Next(mem, a) {
      assert SameHeader(mem, mem', a);
    }
    assert forall a :: a in s || a in u ==> a in s + u;
    o' := o'.(head := f.head);
    o' := o'.(count := o'.count + f.count);
    f' := FList(0, 0, 0);
    NoBlocksListed(mem');
    ChainStays(mem, mem', o.head, u);
    ChainAppend(mem, mem', f.head, s, o.head, u);
    JoinNoDup(s, u);
  }
}
