/**
  The packed lock word of TrinityTL2: 1 lock bit, 7 bits of thread id, 56 bits of sequence.
  Datatype Tl2Model.Lseq is its unpacked form.
*/
module LseqBits {

  const LOCKED: bv64 := 0x8000_0000_0000_0000

  function Lseq2Tid(w: bv64): bv64 { (w >> 56) & 0x7F }
  function Lseq2Seq(w: bv64): bv64 { w & 0xFF_FFFF_FFFF_FFFF }
  function ComposeLseq(lock: bv64, tid: bv64, sq: bv64): bv64 { lock | (tid << 56) | sq }
  predicate IsLocked(w: bv64) { w & LOCKED != 0 }

  /** A packed word gives its parts back exactly when they fit: 128 threads and 2^56 clock values. */
  lemma ComposeRoundTrip(lock: bv64, tid: bv64, sq: bv64)
    requires lock == 0 || lock == LOCKED
    ensures var w := ComposeLseq(lock, tid, sq);
      (IsLocked(w) == (lock == LOCKED) && Lseq2Tid(w) == tid && Lseq2Seq(w) == sq)
      <==> (tid < 128 && sq < 0x100_0000_0000_0000)
  {
    var w := ComposeLseq(lock, tid, sq);
    if tid < 128 && sq < 0x100_0000_0000_0000 {
      PartsFit(lock, tid, sq, w);
    } else {
      PartsBounded(w);
    }
  }

  lemma PartsFit(lock: bv64, tid: bv64, sq: bv64, w: bv64)
    requires lock == 0 || lock == 0x8000_0000_0000_0000
    requires tid < 128 && sq < 0x100_0000_0000_0000
    requires w == lock | (tid << 56) | sq
    ensures w & 0x8000_0000_0000_0000 == lock && (w >> 56) & 0x7F == tid && w & 0xFF_FFFF_FFFF_FFFF == sq
  {
  }

  lemma PartsBounded(w: bv64)
    ensures (w >> 56) & 0x7F < 128 && w & 0xFF_FFFF_FFFF_FFFF < 0x100_0000_0000_0000
  {
  }

  /** Conversely, the parts of a word determine it. */
  lemma DecomposeRoundTrip(w: bv64)
    ensures ComposeLseq(w & LOCKED, Lseq2Tid(w), Lseq2Seq(w)) == w
    ensures w & LOCKED == 0 || w & LOCKED == LOCKED
  {
    PartsJoin(w);
    assert Lseq2Tid(w) == (w >> 56) & 0x7F && Lseq2Seq(w) == w & 0xFF_FFFF_FFFF_FFFF;
    assert ComposeLseq(w & LOCKED, Lseq2Tid(w), Lseq2Seq(w))
      == (w & 0x8000_0000_0000_0000) | (((w >> 56) & 0x7F) << 56) | (w & 0xFF_FFFF_FFFF_FFFF);
  }

  lemma PartsJoin(w: bv64)
    ensures w & 0x8000_0000_0000_0000 == 0 || w & 0x8000_0000_0000_0000 == 0x8000_0000_0000_0000
    ensures (w & 0x8000_0000_0000_0000) | (((w >> 56) & 0x7F) << 56) | (w & 0xFF_FFFF_FFFF_FFFF) == w
  {
  }
}
