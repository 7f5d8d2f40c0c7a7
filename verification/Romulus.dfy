/**
  Romulus with a volatile log: two copies of the data, and a state word that says which of
  them is the consistent one.
*/
module Romulus {
  import opened Persistence
  import opened TxRuns

  datatype State = IDLE | MUTATING | COPYING

  /** The data area of both copies; the metadata before it is not rolled back by recovery. */
  datatype Memory = Memory(main: seq<Line<Val>>, back: seq<Line<Val>>, state: Line<State>)

  /** What a crash leaves. */
  datatype Image = Image(main: seq<Val>, back: seq<Val>, state: State)

  predicate CopyOk(c: seq<Line<Val>>) { forall a | 0 <= a < |c| :: LineOk(c[a]) }

  predicate MemOk(m: Memory) {
    CopyOk(m.main) && CopyOk(m.back) && |m.main| == |m.back| && LineOk(m.state)
  }

  predicate CopySurvives(c: seq<Line<Val>>, v: seq<Val>) {
    |c| == |v| && forall a | 0 <= a < |c| :: Survives(c[a], v[a])
  }

  predicate CrashImage(m: Memory, img: Image) {
    CopySurvives(m.main, img.main) && CopySurvives(m.back, img.back) && Survives(m.state, img.state)
  }

  function BootCopy(v: seq<Val>): seq<Line<Val>> { seq(|v|, a requires 0 <= a < |v| => Booted(v[a])) }

  function Boot(img: Image): Memory { Memory(BootCopy(img.main), BootCopy(img.back), Booted(img.state)) }

  function Values(c: seq<Line<Val>>): seq<Val>
    requires CopyOk(c)
  {
    seq(|c|, a requires 0 <= a < |c| => Cur(c[a]))
  }

  /** The two copies after recovery. */
  function Recovered(img: Image): (seq<Val>, seq<Val>) {
    match img.state
    case COPYING => (img.main, img.main)
    case MUTATING => (img.back, img.back)
    case IDLE => (img.main, img.back)
  }

  /** Whatever a crash leaves, recovery makes both copies v or both w. */
  ghost predicate RecoversTo(m: Memory, v: seq<Val>, w: seq<Val>) {
    forall img | CrashImage(m, img) ::
      |img.main| == |img.back| && (Recovered(img) == (v, v) || Recovered(img) == (w, w))
  }

  // ---------- which copy can be trusted ----------

  /** The copy is durable, with contents v. */
  predicate Durable(c: seq<Line<Val>>, v: seq<Val>) {
    |c| == |v| && forall a | 0 <= a < |c| :: Settled(c[a]) && Cur(c[a]) == v[a]
  }

  predicate Trusted(m: Memory, s: State, v: seq<Val>) {
    match s
    case IDLE => Durable(m.main, v) && Durable(m.back, v)
    case MUTATING => Durable(m.back, v)
    case COPYING => Durable(m.main, v)
  }

  /** Every state a crash can find points to a durable copy with contents v or w. */
  ghost predicate Safe(m: Memory, v: seq<Val>, w: seq<Val>) {
    && MemOk(m)
    && forall j | m.state.lo <= j < |m.state.hist| ::
         Trusted(m, m.state.hist[j], v) || Trusted(m, m.state.hist[j], w)
  }

  lemma DurableSurvives(c: seq<Line<Val>>, v: seq<Val>, x: seq<Val>)
    requires Durable(c, v) && CopySurvives(c, x)
    ensures x == v
  {
    forall a | 0 <= a < |x| ensures x[a] == v[a] {
      assert Survives(c[a], x[a]);
    }
  }

  lemma TrustedRecovers(m: Memory, img: Image, v: seq<Val>)
    requires CrashImage(m, img) && Trusted(m, img.state, v)
    ensures Recovered(img) == (v, v)
  {
    if Durable(m.main, v) { DurableSurvives(m.main, v, img.main); }
    if Durable(m.back, v) { DurableSurvives(m.back, v, img.back); }
  }

  lemma SafeRecovers(m: Memory, v: seq<Val>, w: seq<Val>)
    requires Safe(m, v, w)
    ensures RecoversTo(m, v, w)
  {
    forall img | CrashImage(m, img) ensures Recovered(img) == (v, v) || Recovered(img) == (w, w) {
      if Trusted(m, img.state, v) {
        TrustedRecovers(m, img, v);
      } else {
        TrustedRecovers(m, img, w);
      }
    }
  }

  lemma Recovers(m: Memory, v: seq<Val>, w: seq<Val>, img: Image)
    requires RecoversTo(m, v, w) && CrashImage(m, img)
    ensures |img.main| == |img.back| && (Recovered(img) == (v, v) || Recovered(img) == (w, w))
  {
  }

  lemma WiderTrail(trail: seq<Memory>, v: seq<Val>, w: seq<Val>)
    requires forall k | 0 <= k < |trail| :: RecoversTo(trail[k], v, v)
    ensures forall k | 0 <= k < |trail| :: RecoversTo(trail[k], v, w)
  {
  }

  predicate Logged(log: seq<Addr>, a: Addr) { exists i :: 0 <= i < |log| && log[i] == a }

  // ---------- single accesses to persistent memory ----------

  function FenceAll(m: Memory): Memory {
    Memory(seq(|m.main|, a requires 0 <= a < |m.main| => Fenced(m.main[a])),
           seq(|m.back|, a requires 0 <= a < |m.back| => Fenced(m.back[a])), Fenced(m.state))
  }

  ghost predicate StoresMain(m: Memory, m': Memory, a: Addr, v: Val) {
    a < |m.main| && m' == m.(main := m.main[a := Put(m.main[a], v)])
  }

  ghost predicate StoresBack(m: Memory, m': Memory, a: Addr, v: Val) {
    a < |m.back| && m' == m.(back := m.back[a := Put(m.back[a], v)])
  }

  ghost predicate FlushesMain(m: Memory, m': Memory, a: Addr) {
    a < |m.main| && LineOk(m.main[a]) && m' == m.(main := m.main[a := Pwb(m.main[a])])
  }

  ghost predicate FlushesBack(m: Memory, m': Memory, a: Addr) {
    a < |m.back| && LineOk(m.back[a]) && m' == m.(back := m.back[a := Pwb(m.back[a])])
  }

  ghost predicate StoresState(m: Memory, m': Memory, s: State) { m' == m.(state := Put(m.state, s)) }

  /** One store to one line, one PWB or one fence. */
  ghost predicate Step(m: Memory, m': Memory) {
    || (exists a: Addr, v: Val :: StoresMain(m, m', a, v))
    || (exists a: Addr, v: Val :: StoresBack(m, m', a, v))
    || (exists a: Addr :: FlushesMain(m, m', a))
    || (exists a: Addr :: FlushesBack(m, m', a))
    || (exists s: State :: StoresState(m, m', s))
    || (LineOk(m.state) && m' == m.(state := Pwb(m.state)))
    || m' == FenceAll(m)
  }

  class Romulus {
    var mem: Memory
    /** Addresses stored to, with repetitions. */
    var log: seq<Addr>
    var nested: nat
    /** Every memory since the running or last transaction, or the last recovery, began. */
    var trail: seq<Memory>
    ghost var before: seq<Val>
    ghost var after: seq<Val>

    ghost function Contents(): seq<Val>
      requires MemOk(mem)
      reads this
    {
      Values(mem.main)
    }

    /** One access from each memory of the trail to the next, up to the one that is there now. */
    ghost predicate OnTrail()
      reads this
    {
      trail != [] && trail[|trail| - 1] == mem && Chained(Step, trail)
    }

    ghost predicate TrailOk()
      reads this
    {
      && OnTrail()
      && forall k | 0 <= k < |trail| :: RecoversTo(trail[k], before, after)
    }

    /** Between transactions both copies are durable and equal; the state may not be. */
    ghost predicate Quiet()
      reads this
    {
      && MemOk(mem) && Durable(mem.main, after) && Durable(mem.back, after) && log == []
      && forall j | mem.state.lo <= j < |mem.state.hist| :: mem.state.hist[j] != MUTATING
    }

    /** Within one, back is what was committed and main differs from it only where logged. */
    ghost predicate Running()
      reads this
    {
      && MemOk(mem) && before == after && Durable(mem.back, before)
      && Settled(mem.state) && Cur(mem.state) == MUTATING
      && (forall i | 0 <= i < |log| :: log[i] < |mem.main|)
      && (forall a: nat | a < |mem.main| && !Logged(log, a) :: Settled(mem.main[a]) && Cur(mem.main[a]) == before[a])
    }

    ghost predicate Valid()
      reads this
    {
      TrailOk() && if nested == 0 then Quiet() else Running()
    }

    constructor (n: nat)
      ensures Valid() && nested == 0 && Contents() == seq(n, i => 0)
    {
      var zero := seq(n, i => 0);
      mem := Boot(Image(zero, zero, IDLE));
      trail := [Boot(Image(zero, zero, IDLE))];
      log, nested, before, after := [], 0, zero, zero;
      new;
      SafeRecovers(mem, before, after);
    }

    // ---------- single accesses ----------

    method Reach(m: Memory)
      requires Step(mem, m)
      modifies `mem, `trail
      ensures mem == m && trail == old(trail) + [m] && (old(OnTrail()) ==> OnTrail())
    {
      if OnTrail() { ChainGrows(Step, trail, m); }
      mem := m;
      trail := trail + [m];
    }

    method StoreMain(a: Addr, v: Val)
      requires a < |mem.main|
      modifies `mem, `trail
      ensures mem == old(mem).(main := old(mem.main)[a := Put(old(mem.main)[a], v)]) && trail == old(trail) + [mem]
      ensures old(OnTrail()) ==> OnTrail()
    {
      assert StoresMain(mem, mem.(main := mem.main[a := Put(mem.main[a], v)]), a, v);
      Reach(mem.(main := mem.main[a := Put(mem.main[a], v)]));
    }

    method StoreBack(a: Addr, v: Val)
      requires a < |mem.back|
      modifies `mem, `trail
      ensures mem == old(mem).(back := old(mem.back)[a := Put(old(mem.back)[a], v)]) && trail == old(trail) + [mem]
      ensures old(OnTrail()) ==> OnTrail()
    {
      assert StoresBack(mem, mem.(back := mem.back[a := Put(mem.back[a], v)]), a, v);
      Reach(mem.(back := mem.back[a := Put(mem.back[a], v)]));
    }

    method PwbMain(a: Addr)
      requires a < |mem.main| && LineOk(mem.main[a])
      modifies `mem, `trail
      ensures mem == old(mem).(main := old(mem.main)[a := Pwb(old(mem.main)[a])]) && trail == old(trail) + [mem]
      ensures old(OnTrail()) ==> OnTrail()
    {
      assert FlushesMain(mem, mem.(main := mem.main[a := Pwb(mem.main[a])]), a);
      Reach(mem.(main := mem.main[a := Pwb(mem.main[a])]));
    }

    method PwbBack(a: Addr)
      requires a < |mem.back| && LineOk(mem.back[a])
      modifies `mem, `trail
      ensures mem == old(mem).(back := old(mem.back)[a := Pwb(old(mem.back)[a])]) && trail == old(trail) + [mem]
      ensures old(OnTrail()) ==> OnTrail()
    {
      assert FlushesBack(mem, mem.(back := mem.back[a := Pwb(mem.back[a])]), a);
      Reach(mem.(back := mem.back[a := Pwb(mem.back[a])]));
    }

    method StoreState(s: State)
      modifies `mem, `trail
      ensures mem == old(mem).(state := Put(old(mem.state), s)) && trail == old(trail) + [mem]
      ensures old(OnTrail()) ==> OnTrail()
    {
      assert StoresState(mem, mem.(state := Put(mem.state, s)), s);
      Reach(mem.(state := Put(mem.state, s)));
    }

    method PwbState()
      requires LineOk(mem.state)
      modifies `mem, `trail
      ensures mem == old(mem).(state := Pwb(old(mem.state))) && trail == old(trail) + [mem]
      ensures old(OnTrail()) ==> OnTrail()
    {
      Reach(mem.(state := Pwb(mem.state)));
    }

    method Fence()
      modifies `mem, `trail
      ensures mem == FenceAll(old(mem)) && trail == old(trail) + [mem]
      ensures old(OnTrail()) ==> OnTrail()
    {
      Reach(FenceAll(mem));
    }

    // ---------- transactions ----------

    method BeginTx()
      requires Valid()
      modifies `nested, `mem, `trail, `before
      ensures Valid() && nested == old(nested) + 1 && Contents() == old(Contents())
      ensures old(nested) == 0 ==> before == old(Contents())
      ensures OnTrail() && if old(nested) == 0 then trail[0] == old(mem) else trail == old(trail)
    {
      hide CopySurvives, RecoversTo;
      nested := nested + 1;
      if nested > 1 {
        return;
      }
      before := after;
      trail := [mem];
      SafeRecovers(mem, before, after);
      StoreState(MUTATING);
      SafeRecovers(mem, before, after);
      PwbState();
      SafeRecovers(mem, before, after);
      Fence();
      SafeRecovers(mem, before, after);
    }

    method Pload(a: Addr) returns (v: Val)
      requires Valid() && a < |mem.main|
      ensures v == Contents()[a]
    {
      v := Cur(mem.main[a]);
    }

    method Pstore(a: Addr, v: Val)
      requires Valid() && nested > 0 && a < |mem.main|
      modifies `mem, `trail, `log
      ensures Valid() && Contents() == old(Contents())[a := v] && log == old(log) + [a]
      ensures old(trail) <= trail && OnTrail()
    {
      hide RecoversTo;
      log := log + [a];
      StoreMain(a, v);
      forall b: nat | b < |mem.main| && !Logged(log, b)
        ensures Settled(mem.main[b]) && Cur(mem.main[b]) == before[b] && b != a
      {
        assert log[|log| - 1] == a;
        assert forall i | 0 <= i < |old(log)| :: log[i] == old(log)[i];
      }
      SafeRecovers(mem, before, after);
    }

    /** On return both copies hold the transaction, durably. */
    method EndTx()
      requires Valid() && nested > 0
      modifies this
      ensures Valid() && nested == old(nested) - 1 && Contents() == old(Contents()) && before == old(before)
      ensures old(trail) <= trail && OnTrail()
    {
      nested := nested - 1;
      if nested > 0 {
        return;
      }
      MainDurable();
      MarkCopying();
      ApplyStores();
      BackDurable();
      log := [];
      hide RecoversTo;
      StoreState(IDLE);
      SafeRecovers(mem, before, after);
    }

    /** flushStores(0) and PFENCE. */
    method MainDurable()
      requires TrailOk() && Running()
      modifies `mem, `trail
      ensures TrailOk() && Running() && Durable(mem.main, old(Contents())) && Contents() == old(Contents())
      ensures old(trail) <= trail && OnTrail()
    {
      hide RecoversTo;
      for i := 0 to |log|
        invariant old(trail) <= trail
        invariant TrailOk() && Running() && Contents() == old(Contents())
        invariant forall j | 0 <= j < i :: Flushed(mem.main[log[j]])
      {
        FlushMain(log[i]);
      }
      assert forall a: nat | a < |mem.main| && Logged(log, a) :: Flushed(mem.main[a]);
      FenceMain();
    }

    method FlushMain(a: Addr)
      requires TrailOk() && Running() && a < |mem.main|
      modifies `mem, `trail
      ensures TrailOk() && Running() && Contents() == old(Contents()) && Flushed(mem.main[a])
      ensures forall b | 0 <= b < |mem.main| && b != a :: mem.main[b] == old(mem.main[b])
      ensures old(trail) <= trail
    {
      hide RecoversTo;
      PwbMain(a);
      SafeRecovers(mem, before, after);
    }

    method FenceMain()
      requires TrailOk() && Running() && forall a: nat | a < |mem.main| && Logged(log, a) :: Flushed(mem.main[a])
      modifies `mem, `trail
      ensures TrailOk() && Running() && Contents() == old(Contents()) && Durable(mem.main, old(Contents()))
      ensures old(trail) <= trail
    {
      hide RecoversTo;
      Fence();
      SafeRecovers(mem, before, after);
    }

    /** Main is durable, so from here on it may count. */
    method MarkCopying()
      requires TrailOk() && Running() && Durable(mem.main, Contents())
      modifies `mem, `trail, `after
      ensures TrailOk() && MemOk(mem) && after == old(Contents()) && Durable(mem.main, after)
      ensures Settled(mem.state) && Cur(mem.state) == COPYING && |mem.back| == old(|mem.back|)
      ensures forall a: nat | a < |mem.back| && !Logged(log, a) :: Settled(mem.back[a]) && Cur(mem.back[a]) == after[a]
      ensures old(trail) <= trail && OnTrail()
    {
      hide RecoversTo;
      WiderTrail(trail, before, Contents());
      after := Contents();
      StoreState(COPYING);
      SafeRecovers(mem, before, after);
      PwbState();
      SafeRecovers(mem, before, after);
      Fence();
      SafeRecovers(mem, before, after);
    }

    ghost predicate Copying()
      reads this
    {
      && TrailOk() && MemOk(mem) && Durable(mem.main, after) && Settled(mem.state) && Cur(mem.state) == COPYING
      && (forall i | 0 <= i < |log| :: log[i] < |mem.main|)
      && forall a: nat | a < |mem.back| && !Logged(log, a) :: Settled(mem.back[a]) && Cur(mem.back[a]) == after[a]
    }

    method ApplyStores()
      requires Copying()
      modifies `mem, `trail
      ensures Copying() && Values(mem.back) == after
      ensures old(trail) <= trail
    {
      hide RecoversTo;
      for i := 0 to |log|
        invariant old(trail) <= trail
        invariant Copying()
        invariant forall j | 0 <= j < i :: Cur(mem.back[log[j]]) == after[log[j]]
      {
        assert Logged(log, log[i]);
        StoreBack(log[i], Cur(mem.main[log[i]]));
        SafeRecovers(mem, before, after);
      }
    }

    method BackDurable()
      requires Copying() && Values(mem.back) == after
      modifies `mem, `trail
      ensures Copying() && Durable(mem.back, after)
      ensures old(trail) <= trail
    {
      hide RecoversTo;
      for i := 0 to |log|
        invariant old(trail) <= trail
        invariant Copying() && Values(mem.back) == after
        invariant forall j | 0 <= j < i :: Flushed(mem.back[log[j]])
      {
        FlushBack(log[i]);
      }
      assert forall a: nat | a < |mem.back| && Logged(log, a) :: Flushed(mem.back[a]);
      FenceBack();
    }

    method FlushBack(a: Addr)
      requires Copying() && a < |mem.back| && Logged(log, a)
      modifies `mem, `trail
      ensures Copying() && Flushed(mem.back[a]) && Values(mem.back) == old(Values(mem.back))
      ensures forall b | 0 <= b < |mem.back| && b != a :: mem.back[b] == old(mem.back[b])
      ensures old(trail) <= trail
    {
      hide RecoversTo;
      PwbBack(a);
      SafeRecovers(mem, before, after);
    }

    method FenceBack()
      requires Copying() && Values(mem.back) == after
      requires forall a: nat | a < |mem.back| && Logged(log, a) :: Flushed(mem.back[a])
      modifies `mem, `trail
      ensures Copying() && Durable(mem.back, after)
      ensures old(trail) <= trail
    {
      hide RecoversTo;
      assert forall a | 0 <= a < |mem.back| :: Cur(mem.back[a]) == after[a] by {
        assert forall a | 0 <= a < |mem.back| :: Values(mem.back)[a] == after[a];
      }
      Fence();
      SafeRecovers(mem, before, after);
    }

    // ---------- crash and recovery ----------

    /** The machine stops in any memory of the trail and starts on what is left. */
    method CrashAndRecover(k: nat, img: Image)
      requires Valid() && k < |trail| && CrashImage(trail[k], img)
      modifies this
      ensures Valid() && nested == 0 && before == after == Contents()
      ensures Contents() == old(before) || Contents() == old(after)
      ensures k == old(|trail|) - 1 && old(nested) == 0 ==> Contents() == old(after)
      ensures trail != [] && trail[0] == Boot(img) && OnTrail()
    {
      hide CrashImage, Running, Survives;
      if k == |trail| - 1 && nested == 0 {
        SafeRecovers(mem, after, after);
      }
      Recovers(trail[k], before, after, img);
      hide RecoversTo;
      mem, log, nested := Boot(img), [], 0;
      trail := [mem];
      before, after := Recovered(img).0, Recovered(img).0;
      SafeRecovers(mem, before, after);
      Recover();
    }

    method Recover()
      requires Starting() && TrailOk() && before == after && log == []
      modifies `mem, `trail
      ensures TrailOk() && Quiet() && Contents() == after
      ensures old(trail) <= trail && OnTrail()
    {
      hide RecoversTo;
      match Cur(mem.state)
      case COPYING => CopyMainToBack(); Finish();
      case MUTATING => CopyBackToMain(); Finish();
      case IDLE =>
    }

    /** After a restart: the copy the state points to is the good one. */
    ghost predicate Starting()
      reads this
    {
      && MemOk(mem) && Settled(mem.state) && Trusted(mem, Cur(mem.state), after)
      && (forall a | 0 <= a < |mem.main| :: Settled(mem.main[a]) && Settled(mem.back[a]))
    }

    method FillAllBack()
      requires Starting() && TrailOk() && before == after && Cur(mem.state) == COPYING
      modifies `mem, `trail
      ensures TrailOk() && MemOk(mem) && Durable(mem.main, after) && mem.state == old(mem.state)
      ensures forall b | 0 <= b < |mem.back| :: Cur(mem.back[b]) == after[b]
      ensures old(trail) <= trail
    {
      hide RecoversTo, Survives;
      for a := 0 to |mem.main|
        invariant old(trail) <= trail
        invariant TrailOk() && MemOk(mem) && Durable(mem.main, after) && mem.state == old(mem.state)
        invariant forall b | 0 <= b < a :: Cur(mem.back[b]) == after[b]
      {
        StoreBack(a, Cur(mem.main[a]));
        SafeRecovers(mem, before, after);
      }
    }

    method FlushAllBack()
      requires Settled(mem.state) && before == after && Cur(mem.state) == COPYING
      requires TrailOk() && MemOk(mem) && Durable(mem.main, after)
      requires forall b | 0 <= b < |mem.back| :: Cur(mem.back[b]) == after[b]
      modifies `mem, `trail
      ensures TrailOk() && MemOk(mem) && Durable(mem.main, after) && mem.state == old(mem.state)
      ensures forall b | 0 <= b < |mem.back| :: Cur(mem.back[b]) == after[b] && Flushed(mem.back[b])
      ensures old(trail) <= trail
    {
      hide RecoversTo, Survives;
      for a := 0 to |mem.main|
        invariant old(trail) <= trail
        invariant TrailOk() && MemOk(mem) && Durable(mem.main, after) && mem.state == old(mem.state)
        invariant forall b | 0 <= b < |mem.back| :: Cur(mem.back[b]) == after[b]
        invariant forall b | 0 <= b < a :: Flushed(mem.back[b])
      {
        PwbBack(a);
        SafeRecovers(mem, before, after);
      }
    }

    method CopyMainToBack()
      requires Starting() && TrailOk() && before == after && Cur(mem.state) == COPYING
      modifies `mem, `trail
      ensures TrailOk() && MemOk(mem) && Durable(mem.main, after) && Durable(mem.back, after)
      ensures mem.state == old(mem.state)
      ensures old(trail) <= trail
    {
      hide RecoversTo, Survives;
      FillAllBack();
      FlushAllBack();
      Fence();
      SafeRecovers(mem, before, after);
    }

    method FillAllMain()
      requires Starting() && TrailOk() && before == after && Cur(mem.state) == MUTATING
      modifies `mem, `trail
      ensures TrailOk() && MemOk(mem) && Durable(mem.back, after) && mem.state == old(mem.state)
      ensures forall b | 0 <= b < |mem.main| :: Cur(mem.main[b]) == after[b]
      ensures old(trail) <= trail
    {
      hide RecoversTo, Survives;
      for a := 0 to |mem.main|
        invariant old(trail) <= trail
        invariant TrailOk() && MemOk(mem) && Durable(mem.back, after) && mem.state == old(mem.state)
        invariant forall b | 0 <= b < a :: Cur(mem.main[b]) == after[b]
      {
        StoreMain(a, Cur(mem.back[a]));
        SafeRecovers(mem, before, after);
      }
    }

    method FlushAllMain()
      requires Settled(mem.state) && before == after && Cur(mem.state) == MUTATING
      requires TrailOk() && MemOk(mem) && Durable(mem.back, after)
      requires forall b | 0 <= b < |mem.main| :: Cur(mem.main[b]) == after[b]
      modifies `mem, `trail
      ensures TrailOk() && MemOk(mem) && Durable(mem.back, after) && mem.state == old(mem.state)
      ensures forall b | 0 <= b < |mem.main| :: Cur(mem.main[b]) == after[b] && Flushed(mem.main[b])
      ensures old(trail) <= trail
    {
      hide RecoversTo, Survives;
      for a := 0 to |mem.main|
        invariant old(trail) <= trail
        invariant TrailOk() && MemOk(mem) && Durable(mem.back, after) && mem.state == old(mem.state)
        invariant forall b | 0 <= b < |mem.main| :: Cur(mem.main[b]) == after[b]
        invariant forall b | 0 <= b < a :: Flushed(mem.main[b])
      {
        PwbMain(a);
        SafeRecovers(mem, before, after);
      }
    }

    method CopyBackToMain()
      requires Starting() && TrailOk() && before == after && Cur(mem.state) == MUTATING
      modifies `mem, `trail
      ensures TrailOk() && MemOk(mem) && Durable(mem.main, after) && Durable(mem.back, after)
      ensures mem.state == old(mem.state)
      ensures old(trail) <= trail
    {
      hide RecoversTo, Survives;
      FillAllMain();
      FlushAllMain();
      Fence();
      SafeRecovers(mem, before, after);
    }

    method Finish()
      requires TrailOk() && MemOk(mem) && Durable(mem.main, after) && Durable(mem.back, after) && before == after
      requires Settled(mem.state) && log == []
      modifies `mem, `trail
      ensures TrailOk() && Quiet() && Contents() == after
      ensures old(trail) <= trail
    {
      hide RecoversTo;
      StoreState(IDLE);
      SafeRecovers(mem, before, after);
      PwbState();
      SafeRecovers(mem, before, after);
      Fence();
      SafeRecovers(mem, before, after);
    }

    // ---------- whole runs ----------

    method RunStores(stores: seq<(Addr, Val)>)
      requires Valid() && nested > 0 && InRange(stores, |mem.main|)
      modifies `mem, `trail, `log
      ensures Valid() && Contents() == WithStores(old(Contents()), stores)
      ensures old(trail) <= trail
    {
      hide RecoversTo;
      for i := 0 to |stores|
        invariant old(trail) <= trail
        invariant Valid() && nested > 0 && |mem.main| == old(|mem.main|)
        invariant Contents() == WithStores(old(Contents()), stores[..i])
      {
        assert stores[..i + 1][..i] == stores[..i];
        Pstore(stores[i].0, stores[i].1);
      }
      assert stores[..|stores|] == stores;
    }

    method RunTx(stores: seq<(Addr, Val)>)
      requires Valid() && nested == 0 && InRange(stores, |mem.main|)
      modifies this
      ensures Valid() && nested == 0 && Contents() == WithStores(old(Contents()), stores)
      ensures before == old(Contents()) && after == Contents()
      ensures OnTrail() && trail[0] == old(mem)
    {
      hide RecoversTo;
      BeginTx();
      RunStores(stores);
      EndTx();
    }

    /** One transaction, cut off in any memory it went through, and again in its recoveries. */
    method RunEvent(e: Event<Image>)
      requires Valid() && nested == 0 && InRange(e.stores, |mem.main|)
      modifies this
      ensures Valid() && nested == 0 && |mem.main| == old(|mem.main|)
      ensures EventOk(old(Contents()), e, Contents())
    {
      hide RecoversTo;
      RunTx(e.stores);
      if e.TxCrash? && e.k < |trail| && CrashImage(trail[e.k], e.img) {
        CrashAndRecover(e.k, e.img);
        for i := 0 to |e.again|
          invariant Valid() && nested == 0 && before == after == Contents() && |mem.main| == old(|mem.main|)
          invariant EventOk(old(Contents()), e, Contents())
        {
          var (k, img) := e.again[i];
          if k < |trail| && CrashImage(trail[k], img) {
            CrashAndRecover(k, img);
          }
        }
      }
    }

    /** A run of transactions, each of which may be cut off at any step by a crash. */
    method Run(events: seq<Event<Image>>) returns (ghost history: seq<seq<Val>>)
      requires Valid() && nested == 0
      requires forall i | 0 <= i < |events| :: InRange(events[i].stores, |mem.main|)
      modifies this
      ensures Valid() && nested == 0 && |history| == |events| + 1
      ensures history[0] == old(Contents()) && history[|events|] == Contents()
      ensures forall i | 0 <= i < |events| :: EventOk(history[i], events[i], history[i + 1])
    {
      hide RecoversTo;
      hide EventOk;
      history := [Contents()];
      for i := 0 to |events|
        invariant Valid() && nested == 0 && |mem.main| == old(|mem.main|) && |history| == i + 1
        invariant history[0] == old(Contents()) && history[i] == Contents()
        invariant forall j | 0 <= j < i :: EventOk(history[j], events[j], history[j + 1])
      {
        RunEvent(events[i]);
        history := history + [Contents()];
      }
    }
  }
}
