/** Quadra's code: pstore, endTx with one fence, and the three scans of recovery. */
module QuadraCode {
  import opened Persistence
  import opened Quadra
  import opened QuadraSteps
  import opened TxRuns

  // ---------- single accesses to persistent memory ----------

  /** The cache line of cell a is flushed. */
  function FlushOf(m: Memory, a: Addr): Memory
    requires MemOk(m)
  {
    seq(|m|, b requires 0 <= b < |m| => if CacheLine(b) == CacheLine(a) then Pwb(m[b]) else m[b])
  }

  function FenceAll(m: Memory): Memory { seq(|m|, a requires 0 <= a < |m| => Fenced(m[a])) }

  ghost predicate StoresCell(m: Memory, m': Memory, a: Addr, c: Cell) { a < |m| && m' == PutCell(m, a, c) }

  ghost predicate FlushesLine(m: Memory, m': Memory, a: Addr) { MemOk(m) && a < |m| && m' == FlushOf(m, a) }

  /** One store to one cell, one PWB or one fence. */
  ghost predicate Step(m: Memory, m': Memory) {
    || (exists a: Addr, c: Cell :: StoresCell(m, m', a, c))
    || (exists a: Addr :: FlushesLine(m, m', a))
    || m' == FenceAll(m)
  }

  class QuadraTM {
    var mem: Memory
    var vseq: nat
    var vlog: seq<Addr>
    var nested: nat
    /** Every memory since the running or last transaction, or the last recovery, began. */
    var trail: seq<Memory>
    ghost var start: Image
    ghost var guarded: bool
    ghost var before: seq<Val>
    ghost var after: seq<Val>

    ghost function Contents(): seq<Val>
      requires MemOk(mem)
      reads this
    {
      Mains(Curs(mem))
    }

    /** One access from each memory of the trail to the next, up to the one that is there now. */
    ghost predicate OnTrail()
      reads this
    {
      trail != [] && trail[|trail| - 1] == mem && Chained(Step, trail)
    }

    ghost predicate TrailOk()
      reads this
    {
      && OnTrail()
      && (guarded ==> forall k | 0 <= k < |trail| :: RecoversTo(trail[k], before, after))
    }

    /** No transaction: all durable, and recovery would change nothing. */
    ghost predicate Quiet()
      reads this
    {
      && MemOk(mem) && (forall a | 0 <= a < |mem| :: Settled(mem[a]))
      && Boundary(Curs(mem), vseq) && vlog == []
    }

    ghost predicate Running()
      reads this
    {
      && MemOk(mem) && LogOk(mem, vseq, vlog) && before == after == Mains(start)
      && Runs(mem, start, vseq, 0, before, SetOf(vlog)) && guarded == Guard(start, vseq)
    }

    ghost predicate Valid()
      reads this
    {
      TrailOk() && if nested == 0 then Quiet() && after == Contents() else Running()
    }

    /** Zeroed memory. */
    constructor (n: nat)
      ensures Valid() && nested == 0 && Contents() == seq(n, i => 0) && Guard(Curs(mem), vseq)
      ensures Curs(mem) == seq(n, i => Cell(0, 0, 0, 0, 0)) && vseq == 1
    {
      var img := seq(n, i => Cell(0, 0, 0, 0, 0));
      mem := Boot(img);
      vseq := 1;
      vlog := [];
      nested := 0;
      trail := [Boot(img)];
      start, guarded, before, after := img, true, Mains(img), Mains(img);
      new;
      assert Curs(mem) == img;
      HighestIs(img, 0);
      SettledSafe(mem, 1);
    }

    // ---------- single accesses ----------

    method Reach(m: Memory)
      requires Step(mem, m)
      modifies `mem, `trail
      ensures mem == m && trail == old(trail) + [m] && (old(OnTrail()) ==> OnTrail())
    {
      if OnTrail() { ChainGrows(Step, trail, m); }
      mem := m;
      trail := trail + [m];
    }

    method StoreCell(a: Addr, c: Cell)
      requires a < |mem|
      modifies `mem, `trail
      ensures mem == PutCell(old(mem), a, c) && trail == old(trail) + [mem] && (old(OnTrail()) ==> OnTrail())
    {
      assert StoresCell(mem, PutCell(mem, a, c), a, c);
      Reach(PutCell(mem, a, c));
    }

    /** Flushes the cache line of cell a. */
    method PwbLine(a: Addr)
      requires MemOk(mem) && a < |mem|
      modifies `mem, `trail
      ensures |mem| == old(|mem|) && trail == old(trail) + [mem] && (old(OnTrail()) ==> OnTrail())
      ensures forall b: nat | b < |mem| ::
        mem[b] == if CacheLine(b) == CacheLine(a) then Pwb(old(mem[b])) else old(mem[b])
    {
      assert FlushesLine(mem, FlushOf(mem, a), a);
      Reach(FlushOf(mem, a));
    }

    method Fence()
      modifies `mem, `trail
      ensures |mem| == old(|mem|) && trail == old(trail) + [mem] && (old(OnTrail()) ==> OnTrail())
      ensures forall a | 0 <= a < |mem| :: mem[a] == Fenced(old(mem[a]))
    {
      Reach(FenceAll(mem));
    }

    // ---------- transactions ----------

    method BeginTx()
      requires Valid()
      modifies `nested, `trail, `start, `guarded, `before, `after
      ensures Valid() && nested == old(nested) + 1
      ensures old(nested) == 0 ==>
        guarded == Guard(Curs(mem), vseq) && before == old(Contents()) && start == Curs(mem) && trail == [mem]
    {
      hide RecoversTo;
      hide Guard;
      hide Boundary;
      hide Highest;
      hide Whole;
      hide CrashImage;
      nested := nested + 1;
      if nested > 1 {
        return;
      }
      trail := [mem];
      start, before, after := Curs(mem), Contents(), Contents();
      guarded := Guard(start, vseq);
      QuietRuns(mem, vseq);
      SettledSafe(mem, vseq);
    }

    method Pload(a: Addr) returns (v: Val)
      requires Valid() && a < |mem|
      ensures v == Contents()[a]
    {
      v := Cur(mem[a]).main;
    }

    method Pstore(a: Addr, v: Val)
      requires Valid() && nested > 0 && a < |mem| && (Cur(mem[a]).sq == vseq || |vlog| < CHUNK_SIZE)
      modifies `mem, `trail, `vlog
      ensures Valid() && Contents() == old(Contents())[a := v]
      ensures Curs(mem) == old(Curs(mem))[a := StoredCell(old(Cur(mem[a])), vseq, v)]
      ensures trail == old(trail) + StoreTrail(old(mem), vseq, a, v)
      ensures Cur(mem[a]).sq == vseq && vlog == if old(Cur(mem[a])).sq == vseq then old(vlog) else old(vlog) + [a]
      ensures OnTrail()
    {
      hide Runs, RecoversTo;
      hide Guard;
      hide Boundary;
      hide Highest;
      hide Whole;
      hide CrashImage;
      ghost var m, log := mem, SetOf(vlog);
      ghost var steps := StoreTrail(mem, vseq, a, v);
      assert Logged(vlog, a) <==> a in log;
      StoreRuns(mem, start, vseq, before, log, a, v);
      StoreEffect(mem, vseq, a, v);
      if Cur(mem[a]).sq != vseq {
        StoreCell(a, Cur(mem[a]).(back := Cur(mem[a]).main));
        StoreCell(a, WithCount(Cur(mem[a]), vseq, 0));
        StoreCell(a, Cur(mem[a]).(sq := vseq));
        vlog := vlog + [a];
      }
      StoreCell(a, Cur(mem[a]).(main := v));
      assert trail == old(trail) + steps && mem == steps[|steps| - 1];
      SetOfMore(old(vlog), a);
      LogStays(m, mem, vseq, old(vlog), vlog, a);
      if guarded {
        TrailGrows(old(trail), steps, start, vseq, before, log + {a});
      }
    }

    /** The one fence makes the transaction durable. */
    method EndTx()
      requires Valid() && nested > 0
      modifies this
      ensures Valid() && nested == old(nested) - 1 && Contents() == old(Contents()) && old(trail) <= trail
      ensures before == old(before) && guarded == old(guarded) && start == old(start)
      ensures nested > 0 ==> mem == old(mem) && vseq == old(vseq) && vlog == old(vlog)
      ensures nested == 0 ==>
        && vseq == old(vseq) + 1 && Curs(mem) == CountedCells(old(Curs(mem)), old(vseq), old(|vlog|))
        && if old(vlog) == [] then Curs(mem) == start else Guard(Curs(mem), vseq)
      ensures OnTrail()
    {
      hide RecoversTo;
      hide Guard;
      hide Boundary;
      hide Highest;
      hide Whole;
      hide CrashImage;
      nested := nested - 1;
      if nested > 0 {
        return;
      }
      Commit();
    }

    /** The part of endTx after the nesting count. */
    method Commit()
      requires Running() && TrailOk()
      modifies `mem, `trail, `vlog, `vseq, `after
      ensures Quiet() && TrailOk() && after == Contents() == old(Contents()) && old(trail) <= trail
      ensures vseq == old(vseq) + 1 && Curs(mem) == CountedCells(old(Curs(mem)), old(vseq), old(|vlog|))
      ensures if old(vlog) == [] then Curs(mem) == start else Guard(Curs(mem), vseq)
      ensures OnTrail()
    {
      hide RecoversTo;
      hide Guard;
      hide Boundary;
      hide Runs;
      hide LogOk;
      hide Curs;
      hide SameBut;
      LogInRange(mem, vseq, vlog);
      if guarded {
        WiderTrail(trail, before, Contents());
      }
      after := Contents();
      CountRuns(mem, start, vseq, vlog);
      SetCounts();
      ghost var m := mem;
      FlushPwb();
      SameLog(m, mem, vseq, vlog);
      PsyncAll();
      vlog := [];
      vseq := vseq + 1;
    }

    /** PSYNC: the transaction is durable. */
    method PsyncAll()
      requires Ending() && Contents() == after
      requires AllFlushed(mem, vlog) && Counted(mem, vseq, vlog)
      modifies `mem, `trail
      ensures MemOk(mem) && forall a | 0 <= a < |mem| :: Settled(mem[a])
      ensures TrailOk() && Curs(mem) == old(Curs(mem)) && trail == old(trail) + [mem]
      ensures Boundary(Curs(mem), vseq + 1)
      ensures if vlog == [] then Curs(mem) == start else Guard(Curs(mem), vseq + 1)
    {
      hide RecoversTo;
      hide Boundary;
      hide Runs;
      hide LogOk;
      hide Guard;
      hide AllFlushed;
      hide Counted;
      hide Curs;
      ghost var m := mem;
      Fence();
      FenceEnds(m, mem, start, vseq, after, vlog);
      SettledSafe(mem, vseq + 1);
      WiderMemory(mem, before, after);
    }

    /** Every cell written gets the number of cells written. */
    method SetCounts()
      requires Ending() && Contents() == after
      modifies `mem, `trail
      ensures Ending() && Contents() == after && old(trail) <= trail
      ensures Counted(mem, vseq, vlog) && Curs(mem) == CountedCells(old(Curs(mem)), vseq, |vlog|)
    {
      hide Guard, RecoversTo;
      hide Runs;
      hide LogOk;
      hide Logged;
      ghost var c := Curs(mem);
      LogInRange(mem, vseq, vlog);
      for i := 0 to |vlog|
        invariant Ending() && Contents() == after && old(trail) <= trail && |mem| == |c|
        invariant forall a | 0 <= a < |c| :: Cur(mem[a]) == c[a] || Cur(mem[a]) == CountedCell(c[a], vseq, |vlog|)
        invariant forall j | 0 <= j < i :: Cur(mem[vlog[j]]) == CountedCell(c[vlog[j]], vseq, |vlog|)
      {
        ghost var m := mem;
        SetCount(i);
        assert forall a | 0 <= a < |c| :: a == vlog[i] || mem[a] == m[a];
      }
      AllCounted(mem, c, vseq, vlog);
    }

    method SetCount(i: nat)
      requires Ending() && Contents() == after && i < |vlog|
      modifies `mem, `trail
      ensures Ending() && Contents() == after && trail == old(trail) + [mem] && |mem| == old(|mem|)
      ensures vlog[i] < |mem| && Cur(mem[vlog[i]]) == CountedCell(old(Cur(mem[vlog[i]])), vseq, |vlog|)
      ensures forall b | 0 <= b < |mem| && b != vlog[i] :: mem[b] == old(mem[b])
    {
      hide RecoversTo;
      hide Runs;
      hide LogOk;
      hide Guard;
      var a := vlog[i];
      CountStep(mem, start, vseq, after, vlog, i);
      StoreCell(a, WithCount(Cur(mem[a]), vseq, |vlog|));
      if guarded {
        LogInRange(mem, vseq, vlog);
        EndingSafe(mem, start, vseq, after, SetOf(vlog));
      }
    }

    /** The memory while endTx stores the counts. */
    ghost predicate Ending()
      reads this
    {
      && TrailOk() && MemOk(mem) && LogOk(mem, vseq, vlog) && before == Mains(start)
      && Runs(mem, start, vseq, |vlog|, after, SetOf(vlog)) && guarded == Guard(start, vseq)
    }

    /** No earlier entry of the log is on the same line. */
    method FirstOfLine(i: nat) returns (flushit: bool)
      requires i < |vlog|
      ensures flushit <==> forall j | 0 <= j < i :: CacheLine(vlog[j]) != CacheLine(vlog[i])
    {
      flushit := true;
      for j := 0 to i
        invariant flushit && forall k | 0 <= k < j :: CacheLine(vlog[k]) != CacheLine(vlog[i])
      {
        if CacheLine(vlog[j]) == CacheLine(vlog[i]) {
          flushit := false;
          break;
        }
      }
    }

    /** Flushes the lines of all cells of the log; in a small transaction, each line once. */
    method FlushPwb()
      requires Ending()
      modifies `mem, `trail
      ensures Ending() && SameBut(old(mem), mem) && old(trail) <= trail
      ensures AllFlushed(mem, vlog)
    {
      hide Guard, SetOf, Highest, Cur, Logged, RecoversTo;
      hide Runs;
      hide LogOk;
      LogInRange(mem, vseq, vlog);
      if |vlog| > 16 {
        for i := 0 to |vlog|
          invariant Ending() && SameBut(old(mem), mem) && old(trail) <= trail
          invariant forall j | 0 <= j < i :: Flushed(mem[vlog[j]])
        {
          FlushLine(vlog[i]);
        }
      } else {
        for i := 0 to |vlog|
          invariant Ending() && SameBut(old(mem), mem) && old(trail) <= trail
          invariant forall j | 0 <= j < i :: LineFlushed(mem, CacheLine(vlog[j]))
        {
          var flushit := FirstOfLine(i);
          if flushit {
            FlushLine(vlog[i]);
          }
        }
      }
    }

    method FlushLine(a: Addr)
      requires Ending() && a < |mem|
      modifies `mem, `trail
      ensures Ending() && SameBut(old(mem), mem) && trail == old(trail) + [mem]
      ensures LineFlushed(mem, CacheLine(a))
      ensures forall b | 0 <= b < |mem| && Flushed(old(mem[b])) :: Flushed(mem[b])
    {
      hide RecoversTo;
      hide Runs;
      hide LogOk;
      hide Guard;
      ghost var m := mem;
      LogInRange(mem, vseq, vlog);
      PwbLine(a);
      SameLog(m, mem, vseq, vlog);
      SameRuns(m, mem, start, vseq, |vlog|, after, SetOf(vlog));
      if guarded {
        EndingSafe(mem, start, vseq, after, SetOf(vlog));
      }
    }

    // ---------- crash and recovery ----------

    /** The machine stops in any memory of the trail and starts on what is left. */
    method CrashAndRecover(k: nat, img: Image)
      requires Valid() && k < |trail| && CrashImage(trail[k], img)
      modifies this
      ensures Valid() && nested == 0 && Contents() == Recovered(img)
      ensures guarded && before == after == Contents() && Guard(Curs(mem), vseq)
      ensures old(guarded) ==> Contents() == old(before) || Contents() == old(after)
      ensures k == old(|trail|) - 1 && old(nested) == 0 ==> Contents() == old(Contents())
      ensures trail != [] && trail[0] == Boot(img) && OnTrail()
    {
      hide RecoversTo;
      hide Guard;
      hide Boundary;
      hide Highest;
      hide Whole;
      hide CrashImage;
      if k == |trail| - 1 && nested == 0 {
        SettledSafe(mem, vseq);
      }
      if guarded {
        Recovers(trail[k], before, after, img);
      }
      mem, vlog, nested := Boot(img), [], 0;
      trail := [mem];
      guarded, before, after := true, Recovered(img), Recovered(img);
      BootSafe(img);
      Recover(img);
    }

    method Recover(ghost img: Image)
      requires mem == Boot(img) && TrailOk() && guarded && before == after == Recovered(img)
      modifies `mem, `trail, `vseq
      ensures TrailOk() && MemOk(mem) && (forall a | 0 <= a < |mem| :: Settled(mem[a]))
      ensures Boundary(Curs(mem), vseq) && Guard(Curs(mem), vseq) && Contents() == Recovered(img)
      ensures old(trail) <= trail
    {
      hide RecoversTo;
      hide Whole;
      hide Highest;
      assert Curs(mem) == img;
      var highestSeq, highestCount := FindHighest(img);
      vseq := highestSeq + 1;
      var same, count := CountHolders(img, highestSeq, highestCount);
      if !same || count != highestCount {
        WrongCounts(img, highestCount);
        Revert(img);
      } else {
        RightCounts(img, highestCount);
      }
    }

    /** First scan. */
    method FindHighest(ghost img: Image) returns (highestSeq: nat, highestCount: nat)
      requires mem == Boot(img)
      ensures highestSeq == Highest(img) && FirstCount(img, highestCount)
    {
      hide Highest;
      highestSeq, highestCount := 0, 0;
      assert Highest(img[..0]) == 0 by { HighestIs(img[..0], 0); }
      for a := 0 to |mem|
        invariant highestSeq == Highest(img[..a]) && FirstCount(img[..a], highestCount)
      {
        HighestNext(img, a, highestCount);
        if Cur(mem[a]).sq > highestSeq {
          highestSeq := Cur(mem[a]).sq;
          highestCount := Count(Cur(mem[a]), highestSeq);
        }
      }
      assert img[..|mem|] == img;
    }

    /** Second scan, left at the first count that differs. */
    method CountHolders(ghost img: Image, highestSeq: nat, highestCount: nat) returns (same: bool, count: nat)
      requires mem == Boot(img)
      ensures same <==> CountsAre(img, highestSeq, highestCount)
      ensures same ==> count == |Holders(img, highestSeq)|
    {
      same, count := true, 0;
      for a := 0 to |mem|
        invariant count == |Holders(img[..a], highestSeq)|
        invariant forall b | 0 <= b < a && img[b].sq == highestSeq :: Count(img[b], highestSeq) == highestCount
      {
        HoldersNext(img, a, highestSeq);
        if Cur(mem[a]).sq == highestSeq {
          if Count(Cur(mem[a]), highestSeq) != highestCount {
            return false, count;
          }
          count := count + 1;
        }
      }
      assert img[..|mem|] == img;
    }

    /** Undoes the last transaction found. */
    method Revert(ghost img: Image)
      requires mem == Boot(img) && !Whole(img) && vseq == Highest(img) + 1
      requires TrailOk() && guarded && before == after == Recovered(img)
      modifies `mem, `trail
      ensures TrailOk() && MemOk(mem) && (forall a | 0 <= a < |mem| :: Settled(mem[a]))
      ensures Boundary(Curs(mem), vseq) && Contents() == Recovered(img) && Highest(Curs(mem)) == Highest(img)
      ensures old(trail) <= trail
    {
      var txseq := vseq - 1;
      hide RecoversTo;
      hide Undoing;
      hide Whole;
      hide Highest;
      BootUndoes(img);
      for a := 0 to |mem|
        invariant old(trail) <= trail
        invariant Undoing(mem, img) && TrailOk() && |mem| == |img|
        invariant forall b | 0 <= b < |mem| :: Flushed(mem[b])
        invariant forall b | 0 <= b < a :: Cur(mem[b]) == Undone(img[b], txseq)
        invariant forall b | a <= b < |mem| :: Cur(mem[b]) == img[b]
      {
        if Cur(mem[a]).sq == txseq {
          UndoCell(img, a);
        }
      }
      ghost var m := mem;
      Fence();
      FenceUndoes(m, mem, img);
      UndoSafe(mem, img);
      assert Curs(mem) == Curs(m);
      UndoneIs(Curs(mem), img);
    }

    method UndoCell(ghost img: Image, a: Addr)
      requires Undoing(mem, img) && TrailOk() && guarded && before == after == Recovered(img) && !Whole(img)
      requires a < |mem| == |img| && (forall b | 0 <= b < |mem| :: Flushed(mem[b]))
      requires Cur(mem[a]) == img[a] && img[a].sq == Highest(img)
      modifies `mem, `trail
      ensures Undoing(mem, img) && TrailOk() && |mem| == old(|mem|)
      ensures forall b | 0 <= b < |mem| :: Flushed(mem[b])
      ensures forall b | 0 <= b < |mem| :: Cur(mem[b]) == if b == a then img[b].(main := img[b].back) else old(Cur(mem[b]))
      ensures old(trail) <= trail
    {
      hide RecoversTo;
      hide Undoing;
      hide Whole;
      hide Highest;
      ghost var m := mem;
      StoreCell(a, Cur(mem[a]).(main := Cur(mem[a]).back));
      PutUndoes(m, img, a);
      UndoSafe(mem, img);
      ghost var m' := mem;
      PwbLine(a);
      PwbUndoes(m', mem, img);
      UndoSafe(mem, img);
    }

    // ---------- whole runs ----------

    method RunStores(stores: seq<(Addr, Val)>)
      requires Valid() && nested > 0 && InRange(stores, |mem|) && |vlog| + |stores| <= CHUNK_SIZE
      modifies `mem, `trail, `vlog
      ensures Valid() && Contents() == WithStores(old(Contents()), stores)
      ensures stores != [] ==> vlog != []
      ensures old(trail) <= trail
    {
      hide Highest;
      for i := 0 to |stores|
        invariant old(trail) <= trail
        invariant Valid() && nested > 0 && |mem| == old(|mem|) && |vlog| <= old(|vlog|) + i
        invariant Contents() == WithStores(old(Contents()), stores[..i])
        invariant i > 0 ==> vlog != []
      {
        hide RecoversTo;
        hide Runs;
        hide Boundary;
        hide Guard;
        hide LogOk;
        hide StoreTrail;
        hide Curs;
        assert stores[..i + 1][..i] == stores[..i];
        Pstore(stores[i].0, stores[i].1);
        LoggedNow(mem, vseq, vlog, stores[i].0);
      }
      assert stores[..|stores|] == stores;
    }

    method RunTx(stores: seq<(Addr, Val)>)
      requires Valid() && nested == 0 && InRange(stores, |mem|) && 0 < |stores| <= CHUNK_SIZE
      requires Guard(Curs(mem), vseq)
      modifies this
      ensures Valid() && nested == 0 && Contents() == WithStores(old(Contents()), stores)
      ensures guarded && before == old(Contents()) && Guard(Curs(mem), vseq)
      ensures OnTrail() && trail[0] == old(mem)
    {
      hide RecoversTo;
      hide Runs;
      hide Boundary;
      hide Guard;
      hide LogOk;
      BeginTx();
      RunStores(stores);
      EndTx();
    }

    /** Crashes again and again, each at any step of the recovery before. */
    method RunCrashes(again: seq<(nat, Image)>)
      requires Valid() && nested == 0 && guarded && before == after && Guard(Curs(mem), vseq)
      modifies this
      ensures Valid() && nested == 0 && Contents() == old(Contents()) && Guard(Curs(mem), vseq)
    {
      hide RecoversTo;
      hide Runs;
      hide Boundary;
      hide Guard;
      hide LogOk;
      for i := 0 to |again|
        invariant Valid() && nested == 0 && guarded && before == after && Guard(Curs(mem), vseq)
        invariant Contents() == old(Contents())
      {
        var (k, img) := again[i];
        if k < |trail| && CrashImage(trail[k], img) {
          CrashAndRecover(k, img);
        }
      }
    }

    method RunEvent(e: Event<Image>)
      requires Valid() && nested == 0 && InRange(e.stores, |mem|) && 0 < |e.stores| <= CHUNK_SIZE
      requires Guard(Curs(mem), vseq)
      modifies this
      ensures Valid() && nested == 0 && |mem| == old(|mem|) && Guard(Curs(mem), vseq)
      ensures EventOk(old(Contents()), e, Contents())
    {
      hide RecoversTo;
      hide Runs;
      hide Boundary;
      hide Guard;
      hide LogOk;
      RunTx(e.stores);
      if e.TxCrash? && e.k < |trail| && CrashImage(trail[e.k], e.img) {
        CrashAndRecover(e.k, e.img);
        RunCrashes(e.again);
      }
    }

    /** A run of non-empty transactions, each of which may be cut off at any step by a crash. */
    method Run(events: seq<Event<Image>>) returns (ghost history: seq<seq<Val>>)
      requires Valid() && nested == 0 && Guard(Curs(mem), vseq)
      requires forall i | 0 <= i < |events| ::
        InRange(events[i].stores, |mem|) && 0 < |events[i].stores| <= CHUNK_SIZE
      modifies this
      ensures Valid() && nested == 0 && |history| == |events| + 1
      ensures history[0] == old(Contents()) && history[|events|] == Contents()
      ensures forall i | 0 <= i < |events| :: EventOk(history[i], events[i], history[i + 1])
    {
      hide RecoversTo;
      hide Runs;
      hide Boundary;
      hide Guard;
      hide LogOk;
      hide EventOk;
      history := [Contents()];
      for i := 0 to |events|
        invariant Valid() && nested == 0 && |mem| == old(|mem|) && |history| == i + 1 && Guard(Curs(mem), vseq)
        invariant history[0] == old(Contents()) && history[i] == Contents()
        invariant forall j | 0 <= j < i :: EventOk(history[j], events[j], history[j + 1])
      {
        RunEvent(events[i]);
        history := history + [Contents()];
      }
    }
  }

  /**
    An empty transaction still takes a sequence: after one, a crash in the next transaction can
    undo half of what was committed before it.
  */
  method EmptyTransactionLosesHalf() returns (q: QuadraTM, k: nat, img: Image)
    ensures fresh(q) && q.Valid() && q.nested == 1 && q.before == [1, 1]
    ensures k < |q.trail| && CrashImage(q.trail[k], img) && Recovered(img) == [1, 0]
  {
    hide RecoversTo;
    hide Runs;
    hide Boundary;
    hide LogOk;
    hide Guard;
    hide StoreTrail;
    q := TwoCommitted();
    q.BeginTx();
    q.EndTx();
    q.BeginTx();
    ghost var m, c := q.mem, Curs(q.mem);
    assert c == [Cell(1, 0, 1, 0, 2), Cell(1, 0, 1, 0, 2)];
    assert Cur(m[0]) == c[0] && Boundary(c, 3);
    q.Pstore(0, 2);
    CountCleared(m, 3, 0, 2);
    k, img := 2, [Cell(1, 1, 1, 0, 0), Cell(1, 0, 1, 0, 2)];
    assert img == c[0 := WithCount(c[0].(back := c[0].main), 3, 0)];
    assert q.trail[2] == StoreTrail(m, 3, 0, 2)[1];
    HalfLost(c, img);
  }

  /** The first cell stored to, within the first transaction. */
  method OneStored() returns (q: QuadraTM)
    ensures fresh(q) && q.Valid() && q.nested == 1 && q.vseq == 1 && q.guarded && |q.vlog| == 1
    ensures Curs(q.mem) == [Cell(1, 0, 1, 0, 0), Cell(0, 0, 0, 0, 0)]
  {
    hide Cur, RecoversTo, Runs, Boundary, LogOk, Guard, StoreTrail;
    q := new QuadraTM(2);
    q.BeginTx();
    assert Curs(q.mem) == [Cell(0, 0, 0, 0, 0), Cell(0, 0, 0, 0, 0)];
    assert Curs(q.mem)[0] == Cur(q.mem[0]);
    q.Pstore(0, 1);
    assert Curs(q.mem) == [Cell(1, 0, 1, 0, 0), Cell(0, 0, 0, 0, 0)];
  }

  method TwoCommitted() returns (q: QuadraTM)
    ensures fresh(q) && q.Valid() && q.nested == 0 && q.vseq == 2
    ensures Curs(q.mem) == [Cell(1, 0, 1, 0, 2), Cell(1, 0, 1, 0, 2)]
  {
    hide Cur, RecoversTo;
    hide Runs;
    hide Boundary;
    hide LogOk;
    hide Guard;
    hide StoreTrail;
    q := OneStored();
    assert Curs(q.mem)[1] == Cur(q.mem[1]);
    q.Pstore(1, 1);
    assert Curs(q.mem) == [Cell(1, 0, 1, 0, 0), Cell(1, 0, 1, 0, 0)];
    q.EndTx();
    assert Curs(q.mem) == [Cell(1, 0, 1, 0, 2), Cell(1, 0, 1, 0, 2)];
  }

  lemma {:induction false} HalfLost(c: Image, img: Image)
    requires c == [Cell(1, 0, 1, 0, 2), Cell(1, 0, 1, 0, 2)] && Boundary(c, 3)
    requires img == [Cell(1, 1, 1, 0, 0), Cell(1, 0, 1, 0, 2)]
    ensures Recovered(img) == [1, 0]
  {
    HighestIs(c, 1) by {
      assert c[0].sq == 1;
    }
    LostCount(c, 3, 0, 1);
    assert img == c[0 := WithCount(c[0].(back := c[0].main), 3, 0)];
  }
}
