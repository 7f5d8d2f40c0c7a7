/**
  Persistent memory, one cache line's worth at a time.  Stores to a line reach memory in the
  order they were made, so after a crash a line holds one of its contents since boot, no older
  than what is known to be durable.  PWB remembers the newest content; the next fence makes it
  durable.
*/
module Persistence {

  datatype Line<T> = Line(hist: seq<T>, lo: nat, mark: nat)

  predicate LineOk<T>(l: Line<T>) { l.lo <= l.mark < |l.hist| }

  function Booted<T>(x: T): Line<T> { Line([x], 0, 0) }

  function Cur<T>(l: Line<T>): T
    requires LineOk(l)
  {
    l.hist[|l.hist| - 1]
  }

  function Put<T>(l: Line<T>, x: T): Line<T> { l.(hist := l.hist + [x]) }

  function Pwb<T>(l: Line<T>): Line<T>
    requires LineOk(l)
  {
    l.(mark := |l.hist| - 1)
  }

  function Fenced<T>(l: Line<T>): Line<T> { l.(lo := l.mark) }

  predicate Flushed<T>(l: Line<T>) { LineOk(l) && l.mark == |l.hist| - 1 }

  predicate Settled<T>(l: Line<T>) { LineOk(l) && l.lo == |l.hist| - 1 }

  /** x can be what a crash leaves. */
  predicate Survives<T(==)>(l: Line<T>, x: T) {
    LineOk(l) && exists j :: l.lo <= j < |l.hist| && l.hist[j] == x
  }

  // ---------- memories one access apart ----------

  ghost predicate Linked<M>(step: (M, M) -> bool, trail: seq<M>, k: nat)
    requires k + 1 < |trail|
  {
    step(trail[k], trail[k + 1])
  }

  /** From each memory of the trail to the next it is one step. */
  ghost predicate Chained<M>(step: (M, M) -> bool, trail: seq<M>) {
    forall k: nat | k + 1 < |trail| :: Linked(step, trail, k)
  }

  lemma ChainGrows<M>(step: (M, M) -> bool, trail: seq<M>, m: M)
    requires trail != [] && Chained(step, trail) && step(trail[|trail| - 1], m)
    ensures Chained(step, trail + [m])
  {
    var r := trail + [m];
    forall k: nat | k + 1 < |r| ensures Linked(step, r, k) {
      if k + 1 < |trail| {
        assert Linked(step, trail, k);
      }
    }
  }
}
