/** What the callers of EsLoco2 see: objects of their own, each keeping what was last stored to it. */
module EsLocoClient {
  import opened EsLocoBytes
  import opened EsLoco
  import opened EsLocoCode

  /** The objects handed out, by address, and what their holders stored there. */
  type Objects = map<Addr, seq<Byte>>

  datatype Op =
    | Malloc(tid: nat, size: nat)
    | Free(tid: nat, ptr: Addr)
    | Store(ptr: Addr, at: nat, s: seq<Byte>)

  /** Callers free, and store within, objects that they hold. */
  predicate Allowed(objects: Objects, threads: nat, op: Op) {
    match op
    case Malloc(tid, size) => tid < threads && size + HEADER <= Pow(MAX_BLOCK_SIZE - 1)
    case Free(tid, ptr) => tid < threads && ptr in objects
    case Store(ptr, at, s) => ptr in objects && at + |s| <= |objects[ptr]|
  }

  function Spliced(data: seq<Byte>, at: nat, s: seq<Byte>): seq<Byte>
    requires at + |s| <= |data|
  {
    data[..at] + s + data[at + |s|..]
  }

  /** What an operation means for the objects: no more than this happens to them. */
  ghost predicate Means(objects: Objects, op: Op, objects': Objects)
    requires op.Store? ==> op.ptr in objects && op.at + |op.s| <= |objects[op.ptr]|
  {
    match op
    case Malloc(tid, size) =>
      objects' == objects || exists p: Addr | p in objects' ::
        p != 0 && p !in objects && |objects'[p]| == size && objects' == objects[p := objects'[p]]
    case Free(tid, ptr) => objects' == objects - {ptr}
    case Store(ptr, at, s) => objects' == objects[ptr := Spliced(objects[ptr], at, s)]
  }

  /** The object at p has a live block of its own and reads as data. */
  ghost predicate Held(v: View, mem: Memory, p: Addr, data: seq<Byte>) {
    && HEADER <= p && p - HEADER in v.blocks && v.blocks[p - HEADER].place == Live
    && HEADER + |data| <= Pow(v.blocks[p - HEADER].exp)
    && Slice(mem, p, |data|) == data
  }

  ghost predicate AllHeld(v: View, mem: Memory, objects: Objects) {
    forall p <- objects :: Held(v, mem, p, objects[p])
  }

  /** No two objects share a byte. */
  lemma {:induction false} ObjectsApart(m: Meta, v: View, start: Addr, mem: Memory, objects: Objects, p: Addr, q: Addr)
    requires Good(m, v, start) && AllHeld(v, mem, objects) && p in objects && q in objects && p != q
    ensures Clear(p, |objects[p]|, q, |objects[q]|)
  {
    hide TilesOk, ListsOk, Pow, Slice;
    assert Held(v, mem, p, objects[p]) && Held(v, mem, q, objects[q]);
    BlocksClear(m, v, start, p - HEADER, q - HEADER);
  }

  lemma {:induction false} HeldStays(v: View, v': View, mem: Memory, mem': Memory, p: Addr, data: seq<Byte>)
    requires Held(v, mem, p, data) && p - HEADER in LiveBlocks(v')
    requires LiveBlocks(v')[p - HEADER] == v.blocks[p - HEADER].exp
    requires BlockDataStays(p - HEADER, Pow(v.blocks[p - HEADER].exp), mem, mem')
    ensures Held(v', mem', p, data)
  {
    hide Pow;
    assert Slice(mem', p, |data|) == Slice(mem, p, |data|);
  }

  /** Objects whose blocks stay handed out keep their data when the allocator has run. */
  lemma {:induction false} AllStay(v: View, v': View, mem: Memory, mem': Memory, objects: Objects, objects': Objects)
    requires AllHeld(v, mem, objects) && DataStays(v.blocks, mem, mem') && objects'.Keys <= objects.Keys
    requires forall p <- objects' :: objects'[p] == objects[p]
    requires forall p <- objects' | p >= HEADER && p - HEADER in LiveBlocks(v) ::
      p - HEADER in LiveBlocks(v') && LiveBlocks(v')[p - HEADER] == LiveBlocks(v)[p - HEADER]
    ensures AllHeld(v', mem', objects')
  {
    hide Pow, Slice, BlockDataStays;
    forall p <- objects' ensures Held(v', mem', p, objects'[p]) {
      assert Held(v, mem, p, objects[p]);
      HeldStays(v, v', mem, mem', p, objects[p]);
    }
  }

  /** The new object is one more. */
  lemma {:induction false} Gained(v: View, v': View, mem: Memory, mem': Memory, objects: Objects,
                                  ptr: Addr, b: nat, data: seq<Byte>)
    requires AllHeld(v, mem, objects) && DataStays(v.blocks, mem, mem') && ptr >= HEADER
    requires Allocated(v, v', ptr - HEADER, b) && |data| + HEADER <= Pow(b) && Slice(mem', ptr, |data|) == data
    ensures ptr !in objects && AllHeld(v', mem', objects[ptr := data])
  {
    hide Pow, Slice, DataStays;
    assert ptr in objects ==> Held(v, mem, ptr, objects[ptr]);
    AllStay(v, v', mem, mem', objects, objects);
    HandedOut(v, v', ptr - HEADER, b);
    LiveIs(v', ptr - HEADER);
    var objects' := objects[ptr := data];
    forall p <- objects' ensures Held(v', mem', p, objects'[p]) {
      assert p != ptr ==> Held(v', mem', p, objects[p]);
    }
  }

  /** A store shows in its own object, where it was made, and in no other. */
  lemma {:induction false} Stored(v: View, mem: Memory, mem': Memory, objects: Objects, ptr: Addr, at: nat, s: seq<Byte>)
    requires AllHeld(v, mem, objects) && ptr in objects && at + |s| <= |objects[ptr]|
    requires Slice(mem', ptr + at, |s|) == s && OnlyAt(mem, mem', ptr + at, |s|)
    requires forall a <- v.blocks | a + HEADER != ptr :: BlockDataStays(a, Pow(v.blocks[a].exp), mem, mem')
    ensures AllHeld(v, mem', objects[ptr := Spliced(objects[ptr], at, s)])
  {
    hide Pow;
    var data := Spliced(objects[ptr], at, s);
    assert Held(v, mem, ptr, objects[ptr]);
    assert Slice(mem', ptr, |data|) == data by { SliceSpliced(mem, mem', ptr, objects[ptr], at, s); }
    var objects' := objects[ptr := data];
    forall p <- objects' ensures Held(v, mem', p, objects'[p]) {
      if p != ptr {
        assert Held(v, mem, p, objects[p]);
        LiveIs(v, p - HEADER);
        HeldStays(v, v, mem, mem', p, objects[p]);
      }
    }
  }

  lemma {:induction false} SliceSpliced(mem: Memory, mem': Memory, ptr: Addr, data: seq<Byte>, at: nat, s: seq<Byte>)
    requires Slice(mem, ptr, |data|) == data && at + |s| <= |data|
    requires Slice(mem', ptr + at, |s|) == s && OnlyAt(mem, mem', ptr + at, |s|)
    ensures Slice(mem', ptr, |data|) == Spliced(data, at, s)
  {
    forall i | 0 <= i < |data| ensures Slice(mem', ptr, |data|)[i] == Spliced(data, at, s)[i] {
      if at <= i < at + |s| {
        assert Slice(mem', ptr + at, |s|)[i - at] == Read(mem', ptr + i);
      } else {
        assert Read(mem', ptr + i) == Read(mem, ptr + i) == data[i];
      }
    }
  }

  /** One operation: all objects read afterwards as the operation means, wherever they are. */
  method Do(e: EsLoco2, op: Op, objects: Objects) returns (objects': Objects)
    requires e.Valid() && Allowed(objects, |e.tl|, op) && AllHeld(e.view, e.mem, objects)
    modifies e
    ensures e.Valid() && |e.tl| == old(|e.tl|)
    ensures AllHeld(e.view, e.mem, objects') && Means(objects, op, objects')
  {
    hide Good, Pow, DataStays, Slice, LiveBlocks;
    ghost var v, mem := e.view, e.mem;
    match op {
      case Malloc(tid, size) => {
        var ptr, b := e.Malloc(tid, size);
        if ptr == 0 {
          return objects;
        }
        var data := Slice(e.mem, ptr, size);
        Gained(v, e.view, mem, e.mem, objects, ptr, b, data);
        objects' := objects[ptr := data];
        assert objects'[ptr] == data;
      }
      case Free(tid, ptr) => {
        HeldLive(v, mem, objects, ptr);
        e.Free(tid, ptr);
        objects' := objects - {ptr};
        AllStay(v, e.view, mem, e.mem, objects, objects');
      }
      case Store(ptr, at, s) => {
        HeldLive(v, mem, objects, ptr);
        e.StoreData(ptr + at, s, ptr - HEADER);
        Stored(v, mem, e.mem, objects, ptr, at, s);
        objects' := objects[ptr := Spliced(objects[ptr], at, s)];
      }
    }
  }

  lemma {:induction false} HeldLive(v: View, mem: Memory, objects: Objects, p: Addr)
    requires AllHeld(v, mem, objects) && p in objects
    ensures p >= HEADER && p - HEADER in LiveBlocks(v)
    ensures p + |objects[p]| <= p - HEADER + Pow(LiveBlocks(v)[p - HEADER])
  {
    hide Pow, Slice;
    assert Held(v, mem, p, objects[p]);
    LiveIs(v, p - HEADER);
  }

  /** Any run of callers' operations; those that are not allowed are not made. */
  method Run(e: EsLoco2, ops: seq<Op>) returns (objects: Objects, ghost trace: seq<Objects>)
    requires e.Valid()
    modifies e
    ensures e.Valid() && AllHeld(e.view, e.mem, objects)
    ensures |trace| == |ops| + 1 && trace[0] == map[] && trace[|ops|] == objects
    ensures forall i | 0 <= i < |ops| ::
      if Allowed(trace[i], old(|e.tl|), ops[i]) then Means(trace[i], ops[i], trace[i + 1]) else trace[i + 1] == trace[i]
  {
    hide Good, Pow, AllHeld, Means;
    objects := map[];
    trace := [objects];
    NoneHeld(e.view, e.mem);
    for i := 0 to |ops|
      invariant e.Valid() && |e.tl| == old(|e.tl|) && AllHeld(e.view, e.mem, objects)
      invariant |trace| == i + 1 && trace[0] == map[] && trace[i] == objects
      invariant forall j | 0 <= j < i ::
        if Allowed(trace[j], |e.tl|, ops[j]) then Means(trace[j], ops[j], trace[j + 1]) else trace[j + 1] == trace[j]
    {
      if Allowed(objects, |e.tl|, ops[i]) {
        objects := Do(e, ops[i], objects);
      }
      trace := trace + [objects];
    }
  }

  lemma {:induction false} NoneHeld(v: View, mem: Memory)
    ensures AllHeld(v, mem, map[])
  {
  }
}
