/**
  A call that nobody disturbs comes to its end: with all other threads outside, a writer runs its
  function and returns, and a reader gets in and out again.
*/
module FlatCombiningProgress {
  import opened FlatCombining
  import opened FlatCombiningInv
  import opened FlatCombiningProof
  import opened FlatCombiningTheorems

  // ---------- a slot shows a reader only while there is one ----------

  predicate Arrived(pc: PC) { pc.CheckLock? || pc.Depart? || pc.Reading? }

  predicate ReadsIn(s: State, q: nat, t: nat) { q < |s.actors| && s.actors[q].tid == t && Arrived(s.actors[q].pc) }

  ghost predicate ReadingOk(s: State) {
    forall t: nat | t < |s.reading| && s.reading[t] :: exists q :: ReadsIn(s, q, t)
  }

  /** What a step may do to the slots of the readers. */
  ghost predicate ReadStep(s: State, s': State, p: nat) {
    && OthersSame(s, s', p)
    && (if Arrived(s'.actors[p].pc) then
          && 0 <= s'.actors[p].tid < |s.reading|
          && (s'.reading == s.reading || s'.reading == s.reading[s'.actors[p].tid := true])
          && (Arrived(s.actors[p].pc) ==> s'.actors[p].tid == s.actors[p].tid)
        else if Arrived(s.actors[p].pc) then
          0 <= s.actors[p].tid < |s.reading| && s'.reading == s.reading[s.actors[p].tid := false]
        else s'.reading == s.reading)
  }

  lemma {:induction false} HolderReadStep(s: State, p: nat, op: Op)
    requires CanStep(s, p, op) && Holding(s.actors[p].pc)
    ensures ReadStep(s, DoStep(s, p, op), p)
  {
  }

  lemma {:induction false} RegisterReadStep(s: State, p: nat, op: Op)
    requires CanStep(s, p, op) && (Registering(s.actors[p].pc) || s.actors[p].pc.Out?)
    ensures ReadStep(s, DoStep(s, p, op), p)
  {
  }

  lemma {:induction false} OtherReadStep(s: State, p: nat, op: Op)
    requires CanStep(s, p, op) && !Holding(s.actors[p].pc) && !Registering(s.actors[p].pc) && !s.actors[p].pc.Out?
    ensures ReadStep(s, DoStep(s, p, op), p)
  {
  }

  lemma {:induction false} ReadStepKeeps(s: State, s': State, p: nat)
    requires ReadingOk(s) && ReadStep(s, s', p)
    ensures ReadingOk(s')
  {
    forall t: nat | t < |s'.reading| && s'.reading[t] ensures exists q :: ReadsIn(s', q, t) {
      if Arrived(s'.actors[p].pc) && s'.actors[p].tid == t {
        assert ReadsIn(s', p, t);
      } else {
        var q: nat :| ReadsIn(s, q, t);
        assert ReadsIn(s', q, t);
      }
    }
  }

  lemma {:induction false} ActionReading(s: State, act: Action)
    requires ReadingOk(s) && Enabled(s, act)
    ensures ReadingOk(Apply(s, act))
  {
    match act
    case Step(p, op) =>
      hide DoStep, ReadStep, ReadingOk;
      if Holding(s.actors[p].pc) {
        HolderReadStep(s, p, op);
      } else if Registering(s.actors[p].pc) || s.actors[p].pc.Out? {
        RegisterReadStep(s, p, op);
      } else {
        OtherReadStep(s, p, op);
      }
      ReadStepKeeps(s, DoStep(s, p, op), p);
    case Crash(_) => LostReading(s, act);
  }

  lemma {:induction false} LostReading(s: State, act: Action)
    requires Enabled(s, act) && act.Crash?
    ensures ReadingOk(Apply(s, act))
  {
  }

  lemma {:induction false} RunReading(s: State, acts: seq<Action>)
    requires ReadingOk(s) && Run(s, acts)
    ensures ReadingOk(After(s, acts))
    decreases |acts|
  {
    hide ReadingOk, Enabled, Apply;
    if acts != [] {
      ActionReading(s, acts[0]);
      RunReading(Apply(s, acts[0]), acts[1..]);
    }
  }

  lemma {:induction false} ReachableReading(s: State)
    requires Reachable(s)
    ensures Inv(s) && ReadingOk(s)
  {
    ReachableInv(s);
    var slots: nat, n: nat, acts: seq<Action> :| Run(Init(slots, n), acts) && After(Init(slots, n), acts) == s;
    assert ReadingOk(Init(slots, n));
    hide Inv, ReadingOk, Init;
    RunReading(Init(slots, n), acts);
  }

  // ---------- alone ----------

  predicate Solo(s: State, p: nat) {
    p < |s.actors| && forall q: nat | q < |s.actors| && q != p :: s.actors[q].pc.Out?
  }

  predicate FreeFrom(s: State, i: nat) { exists j :: i <= j < |s.used| && !s.used[j] }

  /** A thread that is still to register finds a free slot. */
  predicate Room(s: State, p: nat)
    requires p < |s.actors|
  {
    match s.actors[p].pc
    case RegLoad(i) => FreeFrom(s, i)
    case RegCas(i) => FreeFrom(s, i)
    case _ => true
  }

  /** How far the call is from its end, and within a loop. */
  function Phase(s: State, p: nat): nat
    requires p < |s.actors|
  {
    match s.actors[p].pc
    case Out => 0
    case RegLoad(_) => 40
    case RegCas(_) => 40
    case RegMaxCas(_, cur) => if cur == s.maxTid then 32 else 34
    case RegMax(i) => if s.maxTid <= i then 33 else 31
    case Publish => 30
    case CheckMine => 29
    case TryLoad => 28
    case TryCas => 27
    case ScanMax => 26
    case Scan(_, _, _) => 25
    case WaitMax(_) => 24
    case Wait(_, _, _) => 23
    case Exec(_, _) => 22
    case EndTx(_) => 21
    case Clear(_, _) => 20
    case Quit => 19
    case Unlock => 19
    case Depart => 10
    case Spin => 9
    case Arrive => 8
    case CheckLock => 7
    case Reading => 6
  }

  function Left(s: State, p: nat): int
    requires p < |s.actors|
  {
    match s.actors[p].pc
    case RegLoad(i) => 2 * (|s.used| - i) + 1
    case RegCas(i) => 2 * (|s.used| - i)
    case Scan(i, m, _) => m - i
    case Wait(j, m, _) => m - j
    case Exec(i, lfc) => |lfc| - i
    case Clear(i, lfc) => |lfc| - i
    case _ => 0
  }

  predicate Sooner(s: State, s': State, p: nat)
    requires p < |s.actors| == |s'.actors|
  {
    0 <= Left(s', p) && (Phase(s', p) < Phase(s, p) || (Phase(s', p) == Phase(s, p) && Left(s', p) < Left(s, p)))
  }

  /** Still alone in the same call, and nearer to its end. */
  predicate Onward(s: State, s': State, p: nat)
    requires p < |s.actors|
  {
    && |s'.actors| == |s.actors| && Solo(s', p) && Sooner(s, s', p) && Room(s', p)
    && s'.actors[p].write == s.actors[p].write && s'.actors[p].req == s.actors[p].req
  }

  /** What a lone actor knows. */
  lemma {:induction false} SoloKnows(s: State, p: nat)
    requires Inv(s) && ReadingOk(s) && Solo(s, p)
    ensures Shape(s) && ActorOk(s, p) && (s.locked ==> Holding(s.actors[p].pc)) && -1 <= s.maxTid <= |s.used|
    ensures Holding(s.actors[p].pc) ==> LfcOk(s) && s.owner == p
    ensures s.actors[p].write ==> forall t: nat | t < |s.reading| :: !s.reading[t]
    ensures !Registering(s.actors[p].pc) && !s.actors[p].pc.Out? ==> 0 <= s.actors[p].tid < s.maxTid
  {
    assert ActorOk(s, p) && SlotsOk(s) && LfcOk(s);
    if s.locked {
      assert ActorOk(s, s.owner);
    }
    forall t: nat | t < |s.reading| && s.actors[p].write ensures !s.reading[t] {
      forall q: nat ensures !ReadsIn(s, q, t) {
      }
    }
  }

  predicate Looping(pc: PC) { pc.Scan? || pc.Wait? || pc.Exec? || pc.Clear? }

  lemma {:induction false} SoloLoops(s: State, p: nat)
    requires Inv(s) && ReadingOk(s) && Solo(s, p) && Looping(s.actors[p].pc)
    ensures CanStep(s, p, Go) && Onward(s, DoStep(s, p, Go), p)
  {
    SoloKnows(s, p);
    hide Inv, ReadingOk, SlotsOk, Nothing;
  }

  lemma {:induction false} SoloHolder(s: State, p: nat)
    requires Inv(s) && ReadingOk(s) && Solo(s, p) && Holding(s.actors[p].pc) && !Looping(s.actors[p].pc)
    ensures CanStep(s, p, Go) && Onward(s, DoStep(s, p, Go), p)
  {
    SoloKnows(s, p);
    hide Inv, ReadingOk, SlotsOk, LfcOk;
  }

  lemma {:induction false} SoloRegisters(s: State, p: nat)
    requires Inv(s) && ReadingOk(s) && Solo(s, p) && Registering(s.actors[p].pc) && Room(s, p)
    ensures CanStep(s, p, Go) && Onward(s, DoStep(s, p, Go), p)
  {
    SoloKnows(s, p);
    hide Inv, ReadingOk, SlotsOk;
  }

  lemma {:induction false} SoloOther(s: State, p: nat)
    requires Inv(s) && ReadingOk(s) && Solo(s, p)
    requires !Holding(s.actors[p].pc) && !Registering(s.actors[p].pc) && !s.actors[p].pc.Out?
    ensures CanStep(s, p, Go) && Onward(s, DoStep(s, p, Go), p)
  {
    SoloKnows(s, p);
    hide Inv, ReadingOk, SlotsOk;
  }

  /** Each step of a lone call brings its end nearer. */
  lemma {:induction false} SoloStep(s: State, p: nat)
    requires Inv(s) && ReadingOk(s) && Solo(s, p) && Room(s, p) && !s.actors[p].pc.Out?
    ensures CanStep(s, p, Go) && Onward(s, DoStep(s, p, Go), p)
  {
    hide Inv, ReadingOk, DoStep, Onward, Room;
    if Looping(s.actors[p].pc) {
      SoloLoops(s, p);
    } else if Holding(s.actors[p].pc) {
      SoloHolder(s, p);
    } else if Registering(s.actors[p].pc) {
      SoloRegisters(s, p);
    } else {
      SoloOther(s, p);
    }
  }

  /** The steps of a lone call to its end, by which a write has been executed durably. */
  lemma {:induction false} SoloEnds(s: State, p: nat) returns (acts: seq<Action>)
    requires Inv(s) && ReadingOk(s) && Solo(s, p) && Room(s, p) && !s.actors[p].pc.Out?
    ensures Run(s, acts) && (forall i | 0 <= i < |acts| :: acts[i] == Step(p, Go))
    ensures p < |After(s, acts).actors| && After(s, acts).actors[p].pc.Out?
    ensures s.actors[p].write ==> s.actors[p].req in After(s, acts).returned && Durable(After(s, acts), s.actors[p].req)
    decreases Phase(s, p), Left(s, p)
  {
    hide Inv, ReadingOk, DoStep, CanStep, Room, Phase, Left, Durable;
    SoloStep(s, p);
    var s' := DoStep(s, p, Go);
    StepKeeps(s, p, Go);
    ActionReading(s, Step(p, Go));
    ReturnedIsEnded(s, p, Go);
    if s'.actors[p].pc.Out? {
      acts := [Step(p, Go)];
      assert acts[1..] == [];
      InReturned(s', s.actors[p].req);
    } else {
      var rest := SoloEnds(s', p);
      acts := [Step(p, Go)] + rest;
      assert acts[1..] == rest;
    }
  }

  lemma {:induction false} InReturned(s: State, r: nat)
    requires Inv(s)
    ensures r in s.returned ==> Durable(s, r)
  {
    assert LogOk(s);
  }

  /** A call starts by a step of its own, with a new number, and is not over with that. */
  lemma {:induction false} Begins(s: State, p: nat, op: Op)
    requires CanStep(s, p, op) && s.actors[p].pc.Out? && op != Exit
    ensures var a := DoStep(s, p, op).actors[p]; !a.pc.Out? && a.write == (op == Write) && a.req == s.next < DoStep(s, p, op).next
  {
  }

  /**
    In every reachable state a call whose thread is the only one inside can be run to its end, and
    a write's function has then been executed durably.
  */
  lemma {:induction false} LoneCallEnds(s: State, p: nat) returns (acts: seq<Action>)
    requires Reachable(s) && Solo(s, p) && Room(s, p) && !s.actors[p].pc.Out?
    ensures Run(s, acts) && (forall i | 0 <= i < |acts| :: acts[i] == Step(p, Go))
    ensures p < |After(s, acts).actors| && After(s, acts).actors[p].pc.Out?
    ensures s.actors[p].write ==> s.actors[p].req in After(s, acts).returned && Durable(After(s, acts), s.actors[p].req)
  {
    ReachableReading(s);
    hide Inv, ReadingOk, Reachable, Solo, Room, Run, After, Durable;
    acts := SoloEnds(s, p);
  }
}
