/** What a run of durable transactions over an array of cells should do. */
module TxRuns {

  type Val = int
  type Addr = nat

  datatype Event<Img> =
    | Tx(stores: seq<(Addr, Val)>)
      /**
        Cut off in the k-th memory the transaction goes through, leaving img; each recovery is cut
        off in turn by the crashes in again.
      */
    | TxCrash(stores: seq<(Addr, Val)>, k: nat, img: Img, again: seq<(nat, Img)>)

  predicate InRange(stores: seq<(Addr, Val)>, n: nat) { forall i | 0 <= i < |stores| :: stores[i].0 < n }

  function WithStores(v: seq<Val>, stores: seq<(Addr, Val)>): (r: seq<Val>)
    requires InRange(stores, |v|)
    ensures |r| == |v|
  {
    if stores == [] then v
    else
      var n := |stores| - 1;
      WithStores(v, stores[..n])[stores[n].0 := stores[n].1]
  }

  /** All or nothing, and all unless there was a crash. */
  predicate EventOk<Img>(v: seq<Val>, e: Event<Img>, v': seq<Val>) {
    && InRange(e.stores, |v|)
    && (v' == WithStores(v, e.stores) || (e.TxCrash? && v' == v))
  }

  /** The last store to a cell wins. */
  lemma {:induction false} LastStoreWins(v: seq<Val>, stores: seq<(Addr, Val)>, i: nat)
    requires InRange(stores, |v|) && i < |stores|
    requires forall j | i < j < |stores| :: stores[j].0 != stores[i].0
    ensures WithStores(v, stores)[stores[i].0] == stores[i].1
  {
    if i < |stores| - 1 {
      LastStoreWins(v, stores[..|stores| - 1], i);
    }
  }

  lemma {:induction false} OthersKeep(v: seq<Val>, stores: seq<(Addr, Val)>, a: Addr)
    requires InRange(stores, |v|) && a < |v| && forall j | 0 <= j < |stores| :: stores[j].0 != a
    ensures WithStores(v, stores)[a] == v[a]
  {
    if stores != [] {
      OthersKeep(v, stores[..|stores| - 1], a);
    }
  }
}
