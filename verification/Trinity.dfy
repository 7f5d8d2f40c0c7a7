/**
  Trinity's commit protocol: every cell carries its previous value and the sequence of the
  transaction that last wrote it; one increment of p_seq commits.
*/
module Trinity {
  import opened Persistence
  import opened TxRuns

  datatype Cell = Cell(main: Val, back: Val, sq: nat)

  datatype Memory = Memory(cells: seq<Line<Cell>>, pseq: Line<nat>)

  /** What a crash leaves. */
  datatype Image = Image(cells: seq<Cell>, pseq: nat)

  predicate MemOk(m: Memory) {
    LineOk(m.pseq) && forall a | 0 <= a < |m.cells| :: LineOk(m.cells[a])
  }

  predicate CrashImage(m: Memory, img: Image) {
    && |img.cells| == |m.cells| && Survives(m.pseq, img.pseq)
    && forall a | 0 <= a < |m.cells| :: Survives(m.cells[a], img.cells[a])
  }

  function Boot(img: Image): Memory {
    Memory(seq(|img.cells|, a requires 0 <= a < |img.cells| => Booted(img.cells[a])), Booted(img.pseq))
  }

  /** The value recover leaves in a cell. */
  function RecoveredVal(c: Cell, p: nat): Val { if c.sq == p then c.back else c.main }

  function Recovered(img: Image): seq<Val> {
    seq(|img.cells|, a requires 0 <= a < |img.cells| => RecoveredVal(img.cells[a], img.pseq))
  }

  function Mains(m: Memory): seq<Val>
    requires MemOk(m)
  {
    seq(|m.cells|, a requires 0 <= a < |m.cells| => Cur(m.cells[a]).main)
  }

  /** Whatever a crash leaves recovers to the state at the p_seq that was persisted. */
  ghost predicate CrashSafe(m: Memory, states: map<nat, seq<Val>>) {
    forall img | CrashImage(m, img) :: ImageOk(img) && img.pseq in states && Recovered(img) == states[img.pseq]
  }

  /** No cell is ahead of p_seq. */
  predicate ImageOk(img: Image) {
    img.pseq > 0 && forall a | 0 <= a < |img.cells| :: img.cells[a].sq <= img.pseq
  }

  /** A content of cell a while transaction p runs: not yet written by it, or backed up. */
  predicate ContentOk(x: Cell, p: nat, v: Val) {
    if x.sq == p then x.back == v else x.sq < p && x.main == v
  }

  ghost predicate CellOk(l: Line<Cell>, p: nat, v: Val) {
    LineOk(l) && forall j | l.lo <= j < |l.hist| :: ContentOk(l.hist[j], p, v)
  }

  /** The memory while transaction p runs, base being the committed contents. */
  ghost predicate TxOk(m: Memory, p: nat, base: seq<Val>) {
    && p > 0 && Settled(m.pseq) && Cur(m.pseq) == p && |base| == |m.cells|
    && forall a | 0 <= a < |m.cells| :: CellOk(m.cells[a], p, base[a])
  }

  lemma TxIsSafe(m: Memory, p: nat, base: seq<Val>, states: map<nat, seq<Val>>)
    requires TxOk(m, p, base) && p in states && states[p] == base
    ensures CrashSafe(m, states)
  {
    forall img | CrashImage(m, img) ensures ImageOk(img) && img.pseq in states && Recovered(img) == states[img.pseq] {
      forall a | 0 <= a < |m.cells| ensures Recovered(img)[a] == base[a] && img.cells[a].sq <= img.pseq {
        assert Survives(m.cells[a], img.cells[a]) && CellOk(m.cells[a], p, base[a]);
      }
    }
  }

  /** Once the cells are durable, either value of p_seq is a consistent state. */
  lemma CommitIsSafe(m: Memory, p: nat, base: seq<Val>, m': Memory, states: map<nat, seq<Val>>)
    requires TxOk(m, p, base) && (forall a | 0 <= a < |m.cells| :: Settled(m.cells[a]))
    requires LineOk(m'.pseq) && m'.cells == m.cells
    requires forall j | m'.pseq.lo <= j < |m'.pseq.hist| :: m'.pseq.hist[j] == p || m'.pseq.hist[j] == p + 1
    requires p in states && p + 1 in states && states[p] == base && states[p + 1] == Mains(m)
    ensures CrashSafe(m', states)
  {
    forall img | CrashImage(m', img) ensures ImageOk(img) && img.pseq in states && Recovered(img) == states[img.pseq] {
      forall a | 0 <= a < |m.cells| ensures Recovered(img)[a] == states[img.pseq][a] && img.cells[a].sq <= img.pseq {
        assert Survives(m.cells[a], img.cells[a]) && CellOk(m.cells[a], p, base[a]);
        assert img.cells[a] == Cur(m.cells[a]);
      }
    }
  }

  /** From memory n of the trail on, a crash can find p_seq only between p and q. */
  ghost predicate Since(trail: seq<Memory>, n: nat, p: nat, q: nat) {
    forall k | n <= k < |trail| :: SeqIn(trail[k].pseq, p, q)
  }

  ghost predicate SeqIn(l: Line<nat>, p: nat, q: nat) { forall j | l.lo <= j < |l.hist| :: p <= l.hist[j] <= q }

  lemma StillSafe(m: Memory, states: map<nat, seq<Val>>, q: nat, contents: seq<Val>)
    requires CrashSafe(m, states) && q !in states
    ensures CrashSafe(m, states[q := contents])
  {
  }

  lemma BootOk(img: Image)
    requires ImageOk(img)
    ensures TxOk(Boot(img), img.pseq, Recovered(img))
  {
  }

  // ---------- single accesses to persistent memory ----------

  function PutCell(m: Memory, a: Addr, c: Cell): Memory
    requires a < |m.cells|
  {
    m.(cells := m.cells[a := Put(m.cells[a], c)])
  }

  function FlushCell(m: Memory, a: Addr): Memory
    requires a < |m.cells| && LineOk(m.cells[a])
  {
    m.(cells := m.cells[a := Pwb(m.cells[a])])
  }

  /** PFENCE and PSYNC. */
  function FenceAll(m: Memory): Memory {
    Memory(seq(|m.cells|, a requires 0 <= a < |m.cells| => Fenced(m.cells[a])), Fenced(m.pseq))
  }

  ghost predicate StoresCell(m: Memory, m': Memory, a: Addr, c: Cell) { a < |m.cells| && m' == PutCell(m, a, c) }

  ghost predicate FlushesCell(m: Memory, m': Memory, a: Addr) {
    a < |m.cells| && LineOk(m.cells[a]) && m' == FlushCell(m, a)
  }

  ghost predicate StoresSeq(m: Memory, m': Memory, q: nat) { m' == m.(pseq := Put(m.pseq, q)) }

  /** One store to one line, one PWB or one fence. */
  ghost predicate Step(m: Memory, m': Memory) {
    || (exists a: Addr, c: Cell :: StoresCell(m, m', a, c))
    || (exists a: Addr :: FlushesCell(m, m', a))
    || (exists q: nat :: StoresSeq(m, m', q))
    || (LineOk(m.pseq) && m' == m.(pseq := Pwb(m.pseq)))
    || m' == FenceAll(m)
  }

  class Trinity {
    var mem: Memory
    var nested: nat
    /** Every memory since the machine was last started, one per store, PWB or fence. */
    var trail: seq<Memory>
    /** The contents when p_seq became q. */
    ghost var states: map<nat, seq<Val>>

    ghost function Contents(): seq<Val>
      requires MemOk(mem)
      reads this
    {
      Mains(mem)
    }

    /** One access from each memory of the trail to the next, up to the one that is there now. */
    ghost predicate OnTrail()
      reads this
    {
      trail != [] && trail[|trail| - 1] == mem && Chained(Step, trail)
    }

    ghost predicate TrailOk()
      reads this
    {
      && OnTrail()
      && forall k | 0 <= k < |trail| :: CrashSafe(trail[k], states)
    }

    lemma TrailIs()
      requires TrailOk()
      ensures OnTrail()
    {
    }

    /** In or out of a transaction: everything since the last commit is undone by recovery. */
    ghost predicate Valid()
      reads this
    {
      && MemOk(mem) && Cur(mem.pseq) in states && TxOk(mem, Cur(mem.pseq), states[Cur(mem.pseq)])
      && (forall q <- states :: q <= Cur(mem.pseq))
      && (forall a | 0 <= a < |mem.cells| :: Flushed(mem.cells[a]))
      && (nested == 0 ==> Contents() == states[Cur(mem.pseq)])
      && TrailOk()
    }

    /** Formatting: zeroed cells and p_seq at one. */
    constructor (n: nat)
      ensures Valid() && nested == 0 && Contents() == seq(n, i => 0)
    {
      mem := Boot(Image(seq(n, i => Cell(0, 0, 0)), 1));
      nested := 0;
      trail := [Boot(Image(seq(n, i => Cell(0, 0, 0)), 1))];
      states := map[1 := seq(n, i => 0)];
      new;
      TxIsSafe(mem, 1, states[1], states);
    }

    // ---------- single accesses ----------

    method Reach(m: Memory)
      requires Step(mem, m)
      modifies `mem, `trail
      ensures mem == m && trail == old(trail) + [m] && (old(OnTrail()) ==> OnTrail())
    {
      if OnTrail() { ChainGrows(Step, trail, m); }
      mem := m;
      trail := trail + [m];
    }

    method StoreCell(a: Addr, c: Cell)
      requires a < |mem.cells|
      modifies `mem, `trail
      ensures mem == PutCell(old(mem), a, c) && trail == old(trail) + [mem] && (old(OnTrail()) ==> OnTrail())
    {
      assert StoresCell(mem, PutCell(mem, a, c), a, c);
      Reach(PutCell(mem, a, c));
    }

    method PwbCell(a: Addr)
      requires MemOk(mem) && a < |mem.cells|
      modifies `mem, `trail
      ensures mem == FlushCell(old(mem), a) && trail == old(trail) + [mem] && (old(OnTrail()) ==> OnTrail())
    {
      assert FlushesCell(mem, FlushCell(mem, a), a);
      Reach(FlushCell(mem, a));
    }

    method StorePseq(q: nat)
      modifies `mem, `trail
      ensures mem == old(mem).(pseq := Put(old(mem.pseq), q)) && trail == old(trail) + [mem] && (old(OnTrail()) ==> OnTrail())
    {
      assert StoresSeq(mem, mem.(pseq := Put(mem.pseq, q)), q);
      Reach(mem.(pseq := Put(mem.pseq, q)));
    }

    method PwbPseq()
      requires LineOk(mem.pseq)
      modifies `mem, `trail
      ensures mem == old(mem).(pseq := Pwb(old(mem.pseq))) && trail == old(trail) + [mem] && (old(OnTrail()) ==> OnTrail())
    {
      Reach(mem.(pseq := Pwb(mem.pseq)));
    }

    /** PFENCE and PSYNC. */
    method Fence()
      modifies `mem, `trail
      ensures mem == FenceAll(old(mem)) && trail == old(trail) + [mem] && (old(OnTrail()) ==> OnTrail())
    {
      Reach(FenceAll(mem));
    }

    // ---------- transactions ----------

    method BeginTx()
      requires Valid()
      modifies `nested
      ensures Valid() && nested == old(nested) + 1
    {
      nested := nested + 1;
    }

    method Pload(a: Addr) returns (v: Val)
      requires Valid() && a < |mem.cells|
      ensures v == Contents()[a]
    {
      v := Cur(mem.cells[a]).main;
    }

    /** One store of pstore: the memory stays undoable. */
    method KeepingStore(a: Addr, c: Cell, ghost p: nat, ghost base: seq<Val>)
      requires TxOk(mem, p, base) && a < |mem.cells| && ContentOk(c, p, base[a])
      requires TrailOk() && p in states && states[p] == base
      modifies `mem, `trail
      ensures TxOk(mem, p, base) && TrailOk() && trail == old(trail) + [mem]
      ensures mem == old(mem).(cells := old(mem.cells)[a := Put(old(mem.cells)[a], c)])
    {
      StoreCell(a, c);
      assert forall j | mem.cells[a].lo <= j < |mem.cells[a].hist| - 1 ::
          mem.cells[a].hist[j] == old(mem.cells[a]).hist[j];
      TxIsSafe(mem, p, base, states);
    }

    method KeepingPwb(a: Addr, ghost p: nat, ghost base: seq<Val>)
      requires TxOk(mem, p, base) && a < |mem.cells| && TrailOk() && p in states && states[p] == base
      modifies `mem, `trail
      ensures TxOk(mem, p, base) && TrailOk() && trail == old(trail) + [mem]
      ensures mem == old(mem).(cells := old(mem.cells)[a := Pwb(old(mem.cells)[a])])
    {
      PwbCell(a);
      TxIsSafe(mem, p, base, states);
    }

    method KeepingFence(ghost p: nat, ghost base: seq<Val>)
      requires TxOk(mem, p, base) && TrailOk() && p in states && states[p] == base
      requires forall a | 0 <= a < |mem.cells| :: Flushed(mem.cells[a])
      modifies `mem, `trail
      ensures TxOk(mem, p, base) && TrailOk() && trail == old(trail) + [mem] && Mains(mem) == old(Mains(mem))
      ensures mem.pseq == old(mem.pseq)
      ensures forall a | 0 <= a < |mem.cells| :: Settled(mem.cells[a]) && Flushed(mem.cells[a])
    {
      Fence();
      TxIsSafe(mem, p, base, states);
    }

    /** Within a transaction.  Every memory on the way recovers to the last commit. */
    method Pstore(a: Addr, v: Val)
      requires Valid() && nested > 0 && a < |mem.cells|
      modifies `mem, `trail
      ensures Valid() && Contents() == old(Contents())[a := v]
      ensures mem.pseq == old(mem.pseq) && old(trail) <= trail
      ensures Since(trail, old(|trail|), Cur(mem.pseq), Cur(mem.pseq))
      ensures OnTrail()
    {
      hide TrailOk;
      var p := Cur(mem.pseq);
      ghost var base := states[p];
      assert CellOk(mem.cells[a], p, base[a]);
      if Cur(mem.cells[a]).sq != p {
        KeepingStore(a, Cur(mem.cells[a]).(back := Cur(mem.cells[a]).main), p, base);
        KeepingStore(a, Cur(mem.cells[a]).(sq := p), p, base);
      }
      KeepingStore(a, Cur(mem.cells[a]).(main := v), p, base);
      KeepingPwb(a, p, base);
      TrailIs();
    }

    /** On return the transaction is committed: whatever happens next, its contents are not lost. */
    method EndTx()
      requires Valid() && nested > 0
      modifies this
      ensures Valid() && nested == old(nested) - 1 && Contents() == old(Contents()) && old(trail) <= trail
      ensures Since(trail, old(|trail|), old(Cur(mem.pseq)), Cur(mem.pseq))
      ensures if nested > 0 then mem == old(mem) && states == old(states)
        else
          && Cur(mem.pseq) == old(Cur(mem.pseq)) + 1
          && states == old(states)[Cur(mem.pseq) := old(Contents())]
      ensures OnTrail()
    {
      nested := nested - 1;
      if nested > 0 {
        return;
      }
      var p := Cur(mem.pseq);
      ghost var base := states[p];
      KeepingFence(p, base);
      CommitSeq(p, base);
    }

    /** p_seq := p_seq + 1, PWB and PSYNC, once all cells are durable. */
    method CommitSeq(p: nat, ghost base: seq<Val>)
      requires TxOk(mem, p, base) && TrailOk() && p in states && states[p] == base
      requires forall a | 0 <= a < |mem.cells| :: Settled(mem.cells[a]) && Flushed(mem.cells[a])
      requires forall q <- states :: q <= p
      modifies `mem, `trail, `states
      ensures MemOk(mem) && TxOk(mem, p + 1, old(Mains(mem))) && TrailOk() && old(trail) <= trail
      ensures Since(trail, old(|trail|), p, p + 1)
      ensures Cur(mem.pseq) == p + 1 && mem.cells == old(mem.cells)
      ensures states == old(states)[p + 1 := old(Mains(mem))]
      ensures OnTrail()
    {
      ghost var m := mem;
      ghost var after := states[p + 1 := Mains(mem)];
      forall k | 0 <= k < |trail| ensures CrashSafe(trail[k], after) {
        StillSafe(trail[k], states, p + 1, Mains(mem));
      }
      states := after;
      StorePseq(p + 1);
      CommitIsSafe(m, p, base, mem, after);
      PwbPseq();
      CommitIsSafe(m, p, base, mem, after);
      Fence();
      assert mem.cells == m.cells;
      assert forall a | 0 <= a < |m.cells| :: CellOk(m.cells[a], p, base[a]);
      TxIsSafe(mem, p + 1, Mains(m), after);
    }

    // ---------- crash and recovery ----------

    /**
      The machine stops in any memory it went through and starts on what is left; the steps of
      recovery are on the new trail, so a later crash may be one inside recovery.
    */
    method CrashAndRecover(k: nat, img: Image)
      requires Valid() && k < |trail| && CrashImage(trail[k], img)
      modifies this
      ensures Valid() && nested == 0 && Cur(mem.pseq) == img.pseq
      ensures img.pseq in old(states) && Contents() == old(states)[img.pseq] && states.Keys == {img.pseq}
      ensures k == old(|trail|) - 1 ==> img.pseq == old(Cur(mem.pseq))
      ensures trail != [] && trail[0] == Boot(img) && OnTrail()
    {
      assert CrashSafe(trail[k], states);
      ghost var base := Recovered(img);
      BootOk(img);
      mem := Boot(img);
      trail := [mem];
      nested := 0;
      states := map[img.pseq := base];
      TxIsSafe(mem, img.pseq, base, states);
      Recover(base);
    }

    method Recover(ghost base: seq<Val>)
      requires MemOk(mem) && Cur(mem.pseq) in states && states[Cur(mem.pseq)] == base
      requires TxOk(mem, Cur(mem.pseq), base) && TrailOk()
      requires forall a | 0 <= a < |mem.cells| :: Flushed(mem.cells[a])
      modifies `mem, `trail
      ensures MemOk(mem) && mem.pseq == old(mem.pseq) && TxOk(mem, Cur(mem.pseq), base) && TrailOk()
      ensures forall a | 0 <= a < |mem.cells| :: Settled(mem.cells[a]) && Flushed(mem.cells[a])
      ensures Contents() == base
      ensures old(trail) <= trail && OnTrail()
    {
      var p := Cur(mem.pseq);
      for a := 0 to |mem.cells|
        invariant |mem.cells| == old(|mem.cells|) && mem.pseq == old(mem.pseq) && TxOk(mem, p, base) && TrailOk()
        invariant old(trail) <= trail
        invariant forall b | 0 <= b < |mem.cells| :: Flushed(mem.cells[b])
        invariant forall b | 0 <= b < a :: Cur(mem.cells[b]).sq != p
      {
        assert CellOk(mem.cells[a], p, base[a]);
        if Cur(mem.cells[a]).sq == p {
          KeepingStore(a, Cur(mem.cells[a]).(main := Cur(mem.cells[a]).back), p, base);
          KeepingStore(a, Cur(mem.cells[a]).(sq := 0), p, base);
          KeepingPwb(a, p, base);
        }
      }
      forall a | 0 <= a < |mem.cells| ensures Cur(mem.cells[a]).main == base[a] {
        assert CellOk(mem.cells[a], p, base[a]);
      }
      KeepingFence(p, base);
    }

    // ---------- whole runs ----------

    method RunStores(stores: seq<(Addr, Val)>)
      requires Valid() && nested > 0 && InRange(stores, |mem.cells|)
      modifies `mem, `trail
      ensures Valid() && Contents() == WithStores(old(Contents()), stores)
      ensures mem.pseq == old(mem.pseq) && old(trail) <= trail && Since(trail, old(|trail|), Cur(mem.pseq), Cur(mem.pseq))
    {
      for i := 0 to |stores|
        invariant Valid() && nested > 0 && |mem.cells| == old(|mem.cells|)
        invariant Contents() == WithStores(old(Contents()), stores[..i])
        invariant mem.pseq == old(mem.pseq) && old(trail) <= trail && Since(trail, old(|trail|), Cur(mem.pseq), Cur(mem.pseq))
      {
        assert stores[..i + 1][..i] == stores[..i];
        Pstore(stores[i].0, stores[i].1);
      }
      assert stores[..|stores|] == stores;
    }

    method RunTx(stores: seq<(Addr, Val)>)
      requires Valid() && nested == 0 && InRange(stores, |mem.cells|)
      modifies this
      ensures Valid() && nested == 0 && Contents() == WithStores(old(Contents()), stores)
      ensures Cur(mem.pseq) == old(Cur(mem.pseq)) + 1 && old(trail) <= trail
      ensures Since(trail, old(|trail|), old(Cur(mem.pseq)), Cur(mem.pseq))
      ensures states == old(states)[Cur(mem.pseq) := Contents()]
    {
      BeginTx();
      RunStores(stores);
      EndTx();
    }

    /** Crashes again and again, each at any step of the recovery before. */
    method RunCrashes(again: seq<(nat, Image)>)
      requires Valid() && nested == 0 && states.Keys == {Cur(mem.pseq)}
      modifies this
      ensures Valid() && nested == 0 && Contents() == old(Contents())
    {
      for i := 0 to |again|
        invariant Valid() && nested == 0 && states.Keys == {Cur(mem.pseq)} && Contents() == old(Contents())
      {
        var (k, img) := again[i];
        if k < |trail| && CrashImage(trail[k], img) {
          assert CrashSafe(trail[k], states);
          CrashAndRecover(k, img);
        }
      }
    }

    /** One transaction, cut off in any memory it went through. */
    method RunEvent(e: Event<Image>)
      requires Valid() && nested == 0 && InRange(e.stores, |mem.cells|)
      modifies this
      ensures Valid() && nested == 0 && |mem.cells| == old(|mem.cells|)
      ensures EventOk(old(Contents()), e, Contents())
    {
      var start := |trail| - 1;
      ghost var p := Cur(mem.pseq);
      RunTx(e.stores);
      if e.TxCrash? && start <= e.k < |trail| && CrashImage(trail[e.k], e.img) {
        assert p <= e.img.pseq <= p + 1 by {
          assert e.k > start ==> SeqIn(trail[e.k].pseq, p, p + 1);
        }
        assert CrashSafe(trail[e.k], states);
        CrashAndRecover(e.k, e.img);
        RunCrashes(e.again);
      }
    }

    /** A run of transactions, each of which may be cut off at any step by a crash. */
    method Run(events: seq<Event<Image>>) returns (ghost history: seq<seq<Val>>)
      requires Valid() && nested == 0
      requires forall i | 0 <= i < |events| :: InRange(events[i].stores, |mem.cells|)
      modifies this
      ensures Valid() && nested == 0 && |history| == |events| + 1
      ensures history[0] == old(Contents()) && history[|events|] == Contents()
      ensures forall i | 0 <= i < |events| :: EventOk(history[i], events[i], history[i + 1])
    {
      history := [Contents()];
      for i := 0 to |events|
        invariant Valid() && nested == 0 && |mem.cells| == old(|mem.cells|) && |history| == i + 1
        invariant history[0] == old(Contents()) && history[i] == Contents()
        invariant forall j | 0 <= j < i :: EventOk(history[j], events[j], history[j + 1])
      {
        RunEvent(events[i]);
        history := history + [Contents()];
      }
    }
  }
}
