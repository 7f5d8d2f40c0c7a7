/** The bytes of the pool, and the two words that head every block of EsLoco2. */
module EsLocoBytes {

  /** Addresses in bytes; zero is the null pointer. */
  type Addr = nat
  type Byte = x: nat | x < 256
  type Memory = map<Addr, Byte>

  const WORD_BYTES: nat := 8
  /** sizeof(persist): main, back, lseq and pad. */
  const PERSIST: nat := 4 * WORD_BYTES
  /** sizeof(block): next and size2. */
  const HEADER: nat := 2 * PERSIST
  /** One more than the largest value of a word. */
  const WORD_LIMIT: nat := 0x1_0000_0000_0000_0000

  /** The pool is mapped memory: what was never written is zero. */
  function Read(mem: Memory, a: Addr): Byte { if a in mem then mem[a] else 0 }

  function Put(mem: Memory, a: Addr, s: seq<Byte>): (mem': Memory)
    ensures forall i: Addr :: Read(mem', i) == if a <= i < a + |s| then s[i - a] else Read(mem, i)
    decreases |s|
  {
    if s == [] then mem else Put(mem[a := s[0]], a + 1, s[1..])
  }

  // ---------- words ----------

  /** The n low bytes of v, lowest first. */
  function Bytes(v: nat, n: nat): (s: seq<Byte>)
    ensures |s| == n
  {
    if n == 0 then [] else [v % 256] + Bytes(v / 256, n - 1)
  }

  function Value(s: seq<Byte>): nat { if s == [] then 0 else s[0] + 256 * Value(s[1..]) }

  function Limit(n: nat): nat { if n == 0 then 1 else 256 * Limit(n - 1) }

  lemma {:induction false} ValueOfBytes(v: nat, n: nat)
    requires v < Limit(n)
    ensures Value(Bytes(v, n)) == v
  {
    if n > 0 {
      assert v / 256 < Limit(n - 1);
      ValueOfBytes(v / 256, n - 1);
      assert Bytes(v, n)[1..] == Bytes(v / 256, n - 1);
    }
  }

  lemma {:induction false} LimitOfWord()
    ensures Limit(WORD_BYTES) == WORD_LIMIT
  {
    assert Limit(4) == 0x1_0000_0000;
  }

  function Slice(mem: Memory, a: Addr, n: nat): (s: seq<Byte>)
    ensures |s| == n && forall i | 0 <= i < n :: s[i] == Read(mem, a + i)
    decreases n
  {
    if n == 0 then [] else [Read(mem, a)] + Slice(mem, a + 1, n - 1)
  }

  /** The main word of the persist at a. */
  function Word(mem: Memory, a: Addr): nat { Value(Slice(mem, a, WORD_BYTES)) }

  function PutWord(mem: Memory, a: Addr, v: nat): Memory { Put(mem, a, Bytes(v, WORD_BYTES)) }

  lemma {:induction false} WordPut(mem: Memory, a: Addr, v: nat)
    requires v < WORD_LIMIT
    ensures Word(PutWord(mem, a, v), a) == v
  {
    LimitOfWord();
    ValueOfBytes(v, WORD_BYTES);
    assert Slice(PutWord(mem, a, v), a, WORD_BYTES) == Bytes(v, WORD_BYTES);
  }

  /** A word is unchanged if its bytes are. */
  lemma {:induction false} WordStays(mem: Memory, mem': Memory, a: Addr)
    requires forall i: Addr | a <= i < a + WORD_BYTES :: Read(mem', i) == Read(mem, i)
    ensures Word(mem', a) == Word(mem, a)
  {
    assert Slice(mem', a, WORD_BYTES) == Slice(mem, a, WORD_BYTES);
  }

  // ---------- headers ----------

  /** Where the two fields of the header of block a begin; each takes PERSIST bytes. */
  function NextAt(a: Addr): Addr { a }

  function Size2At(a: Addr): Addr { a + PERSIST }

  function Next(mem: Memory, a: Addr): Addr { Word(mem, NextAt(a)) }

  function Size2(mem: Memory, a: Addr): nat { Word(mem, Size2At(a)) }

  function PutNext(mem: Memory, a: Addr, next: Addr): Memory { PutWord(mem, NextAt(a), next) }

  function PutSize2(mem: Memory, a: Addr, size2: nat): Memory { PutWord(mem, Size2At(a), size2) }

  /** The header of block a reads the same. */
  predicate SameHeader(mem: Memory, mem': Memory, a: Addr) {
    Next(mem', a) == Next(mem, a) && Size2(mem', a) == Size2(mem, a)
  }

  /** The stretch of n bytes at x and the one of k bytes at y have no byte in common. */
  predicate Clear(x: Addr, n: nat, y: Addr, k: nat) { x + n <= y || y + k <= x }

  /** No byte changes but those of n bytes at x. */
  ghost predicate OnlyAt(mem: Memory, mem': Memory, x: Addr, n: nat) {
    forall i: Addr | !(x <= i < x + n) :: Read(mem', i) == Read(mem, i)
  }

  lemma {:induction false} HeaderStays(mem: Memory, mem': Memory, x: Addr, n: nat, a: Addr)
    requires OnlyAt(mem, mem', x, n) && Clear(x, n, NextAt(a), PERSIST) && Clear(x, n, Size2At(a), PERSIST)
    ensures SameHeader(mem, mem', a)
  {
    WordStays(mem, mem', NextAt(a));
    WordStays(mem, mem', Size2At(a));
  }

  lemma {:induction false} NextPut(mem: Memory, x: Addr, next: Addr)
    requires next < WORD_LIMIT
    ensures Next(PutNext(mem, x, next), x) == next && Size2(PutNext(mem, x, next), x) == Size2(mem, x)
    ensures OnlyAt(mem, PutNext(mem, x, next), x, HEADER)
    ensures forall a: Addr | Clear(a, HEADER, x, HEADER) :: SameHeader(mem, PutNext(mem, x, next), a)
  {
    hide Word, PutWord;
    var mem' := PutNext(mem, x, next);
    WordPut(mem, NextAt(x), next);
    BytesPut(mem, NextAt(x), next);
    WordStays(mem, mem', Size2At(x));
    forall a: Addr | Clear(a, HEADER, x, HEADER) ensures SameHeader(mem, mem', a) {
      HeaderStays(mem, mem', x, HEADER, a);
    }
  }

  lemma {:induction false} Size2Put(mem: Memory, x: Addr, size2: nat)
    requires size2 < WORD_LIMIT
    ensures Size2(PutSize2(mem, x, size2), x) == size2 && Next(PutSize2(mem, x, size2), x) == Next(mem, x)
    ensures OnlyAt(mem, PutSize2(mem, x, size2), x, HEADER)
    ensures forall a: Addr | Clear(a, HEADER, x, HEADER) :: SameHeader(mem, PutSize2(mem, x, size2), a)
  {
    hide Word, PutWord;
    var mem' := PutSize2(mem, x, size2);
    WordPut(mem, Size2At(x), size2);
    BytesPut(mem, Size2At(x), size2);
    WordStays(mem, mem', NextAt(x));
    forall a: Addr | Clear(a, HEADER, x, HEADER) ensures SameHeader(mem, mem', a) {
      HeaderStays(mem, mem', x, HEADER, a);
    }
  }

  lemma {:induction false} SlicePut(mem: Memory, x: Addr, s: seq<Byte>)
    ensures Slice(Put(mem, x, s), x, |s|) == s && OnlyAt(mem, Put(mem, x, s), x, |s|)
  {
  }

  lemma {:induction false} BytesPut(mem: Memory, a: Addr, v: nat)
    ensures OnlyAt(mem, PutWord(mem, a, v), a, WORD_BYTES)
  {
  }
}
