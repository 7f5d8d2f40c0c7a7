/**
  The write-set of OneFile: a log array and, threaded through it, a hash map for large
  transactions.  Its buckets are never cleared: a bucket that points into an older
  transaction is told apart by its position and by the hash of the entry found there.
*/
module OneFileWriteSet {
  import opened OneFileModel

  const MAX_ARRAY_LOOKUP: nat := 30
  const HASH_BUCKETS: nat := 2048

  /** A pointer to a log entry, as its index. */
  datatype Link = Null | At(i: nat)
  datatype LogEntry = LogEntry(addr: Addr, val: Val, next: Link)

  function Hash(addr: Addr): (h: nat)
    ensures h < HASH_BUCKETS
  {
    (addr / 8) % HASH_BUCKETS
  }

  /** i is the last entry below n with hash h. */
  predicate LastBelow(log: seq<LogEntry>, n: nat, h: nat, i: nat) {
    && i < n <= |log| && Hash(log[i].addr) == h
    && forall j | i < j < n :: Hash(log[j].addr) != h
  }

  predicate NoneBelow(log: seq<LogEntry>, n: nat, h: nat) {
    n <= |log| && forall j | 0 <= j < n :: Hash(log[j].addr) != h
  }

  /** Each entry leads to the one before it with the same hash. */
  predicate NextOk(log: seq<LogEntry>, i: nat)
    requires i < |log|
  {
    var h := Hash(log[i].addr);
    match log[i].next
    case Null => NoneBelow(log, i, h)
    case At(j) => LastBelow(log, i, h, j)
  }

  /** The test the code makes before it trusts a bucket. */
  predicate Trusted(log: seq<LogEntry>, n: nat, h: nat, b: nat) {
    b < n <= |log| && Hash(log[b].addr) == h
  }

  predicate BucketOk(log: seq<LogEntry>, n: nat, h: nat, b: nat) {
    n <= |log| && if Trusted(log, n, h, b) then LastBelow(log, n, h, b) else NoneBelow(log, n, h)
  }

  function EntriesOf(log: seq<LogEntry>): (u: seq<Entry>)
    ensures |u| == |log| && forall i | 0 <= i < |u| :: u[i] == Entry(log[i].addr, log[i].val)
  {
    seq(|log|, i requires 0 <= i < |log| => Entry(log[i].addr, log[i].val))
  }

  /** With one entry per address, any entry found for it is the one. */
  lemma Unique(u: seq<Entry>, i: nat)
    requires Distinct(u) && i < |u|
    ensures HasAddr(u, u[i].addr) && IndexOf(u, u[i].addr) == i
  {
    assert u[i].addr == u[i].addr;
    assert i != IndexOf(u, u[i].addr) ==> !Distinct(u);
  }

  lemma AddKeepsDistinct(u: seq<Entry>, a: Addr, v: Val)
    requires Distinct(u)
    ensures Distinct(AddTo(u, a, v))
  {
  }

  class WriteSet {
    const log: array<LogEntry>
    const buckets: array<nat>
    var numStores: nat

    ghost predicate Sized()
      reads this, log, buckets
    {
      && buckets.Length == HASH_BUCKETS && numStores < log.Length
    }

    ghost function Entries(): seq<Entry>
      requires Sized()
      reads this, log, buckets
    {
      EntriesOf(log[..numStores])
    }

    ghost predicate Valid()
      reads this, log, buckets
    {
      && Sized() && Distinct(Entries())
      && (forall i | 0 <= i < numStores :: NextOk(log[..], i))
      && (forall h | 0 <= h < HASH_BUCKETS :: BucketOk(log[..], numStores, h, buckets[h]))
    }

    constructor (stores: nat)
      requires stores > 0
      ensures Valid() && Entries() == [] && log.Length == stores && fresh(log) && fresh(buckets)
    {
      log := new LogEntry[stores](_ => LogEntry(0, 0, Null));
      buckets := new nat[HASH_BUCKETS](_ => stores - 1);
      numStores := 0;
    }

    /** The index of addr's entry, by array or by hash. */
    method Find(addr: Addr) returns (r: Link)
      requires Valid()
      ensures r.At? <==> HasAddr(Entries(), addr)
      ensures r.At? ==> r.i < numStores && log[r.i].addr == addr && r.i == IndexOf(Entries(), addr)
    {
      ghost var u := Entries();
      if numStores < MAX_ARRAY_LOOKUP {
        for idx := 0 to numStores
          invariant forall j | 0 <= j < idx :: u[j].addr != addr
        {
          if log[idx].addr == addr {
            Unique(u, idx);
            return At(idx);
          }
        }
        return Null;
      }
      var b := buckets[Hash(addr)];
      assert BucketOk(log[..], numStores, Hash(addr), b);
      if b < numStores && Hash(log[b].addr) == Hash(addr) {
        r := FollowChain(addr, b);
      } else {
        assert forall j | 0 <= j < |u| :: Hash(log[..][j].addr) != Hash(addr);
        r := Null;
      }
    }

    method FollowChain(addr: Addr, b: nat) returns (r: Link)
      requires Valid() && LastBelow(log[..], numStores, Hash(addr), b)
      ensures r.At? <==> HasAddr(Entries(), addr)
      ensures r.At? ==> r.i < numStores && log[r.i].addr == addr && r.i == IndexOf(Entries(), addr)
    {
      ghost var u := Entries();
      ghost var top: nat := numStores;
      r := At(b);
      while r.At?
        invariant r.At? ==> top <= numStores && LastBelow(log[..], top, Hash(addr), r.i)
        invariant r.Null? ==> NoneBelow(log[..], top, Hash(addr))
        invariant top <= numStores && forall j | top <= j < numStores :: u[j].addr != addr
        decreases top
      {
        if log[r.i].addr == addr {
          Unique(u, r.i);
          return;
        }
        assert NextOk(log[..], r.i);
        assert forall j | r.i < j < top :: Hash(log[..][j].addr) != Hash(addr);
        top := r.i;
        r := log[r.i].next;
      }
      assert forall j | 0 <= j < top :: Hash(log[..][j].addr) != Hash(addr);
    }

    method LookupAddr(addr: Addr, lval: Val) returns (v: Val)
      requires Valid()
      ensures v == if HasAddr(Entries(), addr) then Entries()[IndexOf(Entries(), addr)].val else lval
    {
      var r := Find(addr);
      v := if r.At? then log[r.i].val else lval;
    }

    /** Replaces or appends; the last slot of the log is never used. */
    method AddOrReplace(addr: Addr, val: Val)
      requires Valid() && (HasAddr(Entries(), addr) || numStores + 1 < log.Length)
      modifies this, log, buckets
      ensures Valid() && Entries() == AddTo(old(Entries()), addr, val)
    {
      AddKeepsDistinct(Entries(), addr, val);
      var r := Find(addr);
      if r.At? {
        Replace(r.i, val);
      } else {
        Append(addr, val);
      }
    }

    method Replace(i: nat, val: Val)
      requires Valid() && i < numStores
      modifies log
      ensures Valid() && Entries() == old(Entries())[i := Entry(old(log[i].addr), val)]
    {
      ghost var was := log[..];
      log[i] := log[i].(val := val);
      SameShape(was, log[..], numStores, buckets[..]);
      assert Entries() == old(Entries())[i := Entry(old(log[i].addr), val)];
    }

    method Append(addr: Addr, val: Val)
      requires Valid() && numStores + 1 < log.Length
      modifies this, log, buckets
      requires !HasAddr(Entries(), addr)
      ensures Valid() && Entries() == old(Entries()) + [Entry(addr, val)]
    {
      ghost var was, n := log[..], numStores;
      var h := Hash(addr);
      var be := buckets[h];
      log[numStores] := LogEntry(addr, val, if be < numStores && Hash(log[be].addr) == h then At(be) else Null);
      buckets[h] := numStores;
      numStores := numStores + 1;
      assert BucketOk(was, n, h, be);
      Appended(was, log[..], n, old(buckets[..]), buckets[..]);
      assert Entries() == old(Entries()) + [Entry(addr, val)];
      AddKeepsDistinct(old(Entries()), addr, val);
    }

    /** What beginTx does between transactions; the buckets stay as they are. */
    method Reset()
      requires Sized()
      modifies this
      ensures Valid() && Entries() == []
    {
      numStores := 0;
    }

    /** The copy a helper takes; its buckets are not copied, so only the log is meaningful. */
    method CopyFrom(other: WriteSet)
      requires Sized() && other.Sized() && log != other.log && log.Length == other.log.Length
      modifies this, log
      ensures Sized() && Entries() == old(other.Entries())
    {
      var n := other.numStores;
      numStores := n;
      for i := 0 to n
        invariant numStores == n && forall j | 0 <= j < i :: log[j] == other.log[j]
      {
        log[i] := other.log[i];
      }
      assert log[..n] == other.log[..n];
    }

    /** Any sequence of transactions' stores and resets. */
    method RunAll(ops: seq<WsOp>)
      requires Valid() && forall k | 0 <= k <= |ops| :: |SimpleLog(ops[..k])| < log.Length
      requires Entries() == []
      modifies this, log, buckets
      ensures Valid() && Entries() == SimpleLog(ops)
    {
      for k := 0 to |ops|
        invariant Valid() && Entries() == SimpleLog(ops[..k])
      {
        assert ops[..k + 1][..k] == ops[..k];
        assert |SimpleLog(ops[..k + 1])| < log.Length;
        match ops[k]
        case ResetAll => Reset();
        case AddOne(a, v) => AddOrReplace(a, v);
      }
      assert ops[..|ops|] == ops;
    }
  }

  /** Changing values only leaves the index as it was. */
  lemma SameShape(log: seq<LogEntry>, log': seq<LogEntry>, n: nat, buckets: seq<nat>)
    requires |log| == |log'| && n <= |log| && |buckets| == HASH_BUCKETS
    requires forall i | 0 <= i < |log| :: log'[i].addr == log[i].addr && log'[i].next == log[i].next
    requires forall i | 0 <= i < n :: NextOk(log, i)
    requires forall h | 0 <= h < HASH_BUCKETS :: BucketOk(log, n, h, buckets[h])
    ensures forall i | 0 <= i < n :: NextOk(log', i)
    ensures forall h | 0 <= h < HASH_BUCKETS :: BucketOk(log', n, h, buckets[h])
  {
    forall i | 0 <= i < n ensures NextOk(log', i) {
      assert NextOk(log, i);
    }
  }

  /** A new entry links to its bucket's entry if that is of this transaction. */
  lemma Appended(log: seq<LogEntry>, log': seq<LogEntry>, n: nat, buckets: seq<nat>, buckets': seq<nat>)
    requires n < |log| && |buckets| == HASH_BUCKETS
    requires |log'| == |log| && log' == log[n := log'[n]]
    requires forall i | 0 <= i < n :: NextOk(log, i)
    requires forall h | 0 <= h < HASH_BUCKETS :: BucketOk(log, n, h, buckets[h])
    requires var h := Hash(log'[n].addr);
      && log'[n].next == (if Trusted(log, n, h, buckets[h]) then At(buckets[h]) else Null)
      && buckets' == buckets[h := n]
    ensures forall i | 0 <= i < n + 1 :: NextOk(log', i)
    ensures forall h | 0 <= h < HASH_BUCKETS :: BucketOk(log', n + 1, h, buckets'[h])
  {
    var k := Hash(log'[n].addr);
    assert BucketOk(log, n, k, buckets[k]);
    forall i | 0 <= i < n + 1 ensures NextOk(log', i) {
      if i < n { assert NextOk(log, i); }
    }
    forall h | 0 <= h < HASH_BUCKETS ensures BucketOk(log', n + 1, h, buckets'[h]) {
      assert BucketOk(log, n, h, buckets[h]);
    }
  }

  // ---------- the simple log ----------

  datatype WsOp = ResetAll | AddOne(a: Addr, v: Val)

  function SimpleLog(ops: seq<WsOp>): seq<Entry> {
    if ops == [] then []
    else
      match ops[|ops| - 1]
      case ResetAll => []
      case AddOne(a, v) => AddTo(SimpleLog(ops[..|ops| - 1]), a, v)
  }

  /** The value the current transaction last stored to a, or lval. */
  function LastStored(ops: seq<WsOp>, a: Addr, lval: Val): Val {
    if ops == [] || ops[|ops| - 1].ResetAll? then lval
    else if ops[|ops| - 1].a == a then ops[|ops| - 1].v
    else LastStored(ops[..|ops| - 1], a, lval)
  }

  lemma {:induction false} LookupIsLastStored(ops: seq<WsOp>, a: Addr, lval: Val)
    ensures var u := SimpleLog(ops);
      && Distinct(u)
      && (if HasAddr(u, a) then u[IndexOf(u, a)].val else lval) == LastStored(ops, a, lval)
  {
    hide IndexOf, Add, After;
    if ops != [] && ops[|ops| - 1].AddOne? {
      var init, last := ops[..|ops| - 1], ops[|ops| - 1];
      LookupIsLastStored(init, a, lval);
      var u, u' := SimpleLog(init), SimpleLog(ops);
      assert forall j | 0 <= j < |u| && u[j].addr != last.a :: u'[j] == u[j];
      if HasAddr(u', last.a) { Unique(u', IndexOf(u', last.a)); }
      if HasAddr(u, last.a) { Unique(u', IndexOf(u, last.a)); } else { Unique(u', |u|); }
      if HasAddr(u, a) { Unique(u', IndexOf(u, a)); }
      if HasAddr(u', a) && a != last.a { Unique(u, IndexOf(u', a)); }
    }
  }
}
