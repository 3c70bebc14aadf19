/**
 * Defects of the data cache as written, each shown by a lemma that evaluates the
 * as-written cache on a concrete sequence of accesses, and a corrected cache that is
 * proved transparent on View, the memory as the program sees it (main memory overlaid
 * with the dirty blocks): an access that succeeds does what Load or Store on View does,
 * and one that fails leaves View as it was.
 */
module CacheFixes {
  import opened Common
  import opened Bits
  import opened MainMemory
  import opened DataCache

  // ---------------------------------------------------------------- the defects, as written

  function Zeros(n: nat): (z: seq<Byte>)
    ensures |z| == n && forall i | 0 <= i < n :: z[i] == 0
  {
    seq(n, _ => 0)
  }

  /**
   * block_base clears two bits, not three: a cold read at address 4 fills block 0 from
   * address 4 instead of 0 and returns bytes 8..11 of memory instead of bytes 4..7.
   */
  lemma ReadAtOffsetFourReturnsWrongWord()
    ensures var mem: seq<Byte> := [0, 1, 2, 3, 4, 5, 6, 7, 8, 9, 10, 11, 12, 13, 14, 15];
      && Load(mem, 4, WordBytes) == Ok([4, 5, 6, 7])
      && CacheRead(Initial(mem), 4).result == Ok([8, 9, 10, 11])
  {
    var mem: seq<Byte> := [0, 1, 2, 3, 4, 5, 6, 7, 8, 9, 10, 11, 12, 13, 14, 15];
    assert Decompose(4).offset == 4 && Decompose(4).index == 0 && Decompose(4).tag == 0;
    assert Load(mem, 4, BlockBytes).value == mem[4..12];
    assert mem[4..12][4..8] == [8, 9, 10, 11];
    assert mem[4..8] == [4, 5, 6, 7];
  }

  /**
   * A read miss drops a dirty block: read 0, write W at 0 (a hit, so the block is dirty),
   * read 32 (same index, other tag), read 0 again: the last read returns the old bytes.
   */
  lemma ReadMissLosesDirtyBlock()
    ensures var w: seq<Byte> := [1, 2, 3, 4];
      var s1 := CacheRead(Initial(Zeros(40)), 0).state;
      var s2 := CacheWrite(s1, 0, w);
      var s3 := CacheRead(s2.state, 32).state;
      && s2.result == Ok(())
      && s2.state.blocks[0].dirty
      && s3.mem == Zeros(40)
      && CacheRead(s3, 0).result == Ok([0, 0, 0, 0])
  {
    var w: seq<Byte> := [1, 2, 3, 4];
    var z := Zeros(40);
    assert Decompose(0) == CacheAddr(0, 0, 0, 0);
    assert Decompose(32) == CacheAddr(32, 0, 0, 1);
    var s1 := CacheRead(Initial(z), 0).state;
    assert s1.blocks[0] == Block(true, false, 0, z[0..8]);
    var s2 := CacheWrite(s1, 0, w);
    assert s2.state.blocks[0].dirty && s2.state.mem == z;
    var s3 := CacheRead(s2.state, 32).state;
    assert s3.mem == z && s3.blocks[0].tag == 1;
    assert z[0..8][0..4] == [0, 0, 0, 0];
  }

  /**
   * A write miss writes the evicted block at the new address's base: after read 0,
   * write W at 0 (dirty hit) and a write at 32, memory at 32 holds W and memory at 0
   * still holds the old bytes.
   */
  lemma WriteBackGoesToNewAddress()
    ensures var w: seq<Byte> := [1, 2, 3, 4];
      var s1 := CacheRead(Initial(Zeros(40)), 0).state;
      var s2 := CacheWrite(s1, 0, w).state;
      var s4 := CacheWrite(s2, 32, [5, 6, 7, 8]).state;
      && s4.mem[32..36] == w
      && s4.mem[0..4] == [0, 0, 0, 0]
  {
    var w: seq<Byte> := [1, 2, 3, 4];
    var z := Zeros(40);
    assert Decompose(0) == CacheAddr(0, 0, 0, 0);
    assert Decompose(32) == CacheAddr(32, 0, 0, 1);
    var s1 := CacheRead(Initial(z), 0).state;
    var s2 := CacheWrite(s1, 0, w).state;
    assert s2.blocks[0].data[..4] == w;
    var s4 := CacheWrite(s2, 32, [5, 6, 7, 8]).state;
    assert s4.mem == Store(z, 32, s2.blocks[0].data).value;
    assert s4.mem[32..36] == w by {
      forall i | 0 <= i < 4 ensures s4.mem[32 + i] == w[i] {
        assert s4.mem[32 + i] == s2.blocks[0].data[i];
      }
    }
  }

  /**
   * A write miss leaves the block clean although it now differs from memory, so the
   * next eviction discards the word: write W at 0 (cold miss), write at 32, and W is
   * nowhere in main memory.
   */
  lemma WriteMissLeavesBlockClean()
    ensures var w: seq<Byte> := [1, 2, 3, 4];
      var s1 := CacheWrite(Initial(Zeros(40)), 0, w).state;
      var s2 := CacheWrite(s1, 32, [5, 6, 7, 8]);
      && !s1.blocks[0].dirty
      && s1.blocks[0].data[..4] == w
      && s1.mem[..4] == [0, 0, 0, 0]
      && s2.result == Ok(())
      && s2.state.mem == Zeros(40)
      && s2.state.blocks[0].tag == 1
  {
    var w: seq<Byte> := [1, 2, 3, 4];
    var z := Zeros(40);
    assert Decompose(0) == CacheAddr(0, 0, 0, 0);
    assert Decompose(32) == CacheAddr(32, 0, 0, 1);
    var s1 := CacheWrite(Initial(z), 0, w).state;
    assert s1.blocks[0].data[..4] == w;
    assert z[..4] == [0, 0, 0, 0];
  }

  /**
   * A failed refill leaves the block claimed: a read beyond memory fails once, and then
   * the same read hits and returns the stale bytes of the block.
   */
  lemma FailedRefillLeavesBlockValid()
    ensures var s1 := CacheRead(Initial(Zeros(16)), 64);
      && s1.result == Err(OutOfBounds)
      && CacheRead(s1.state, 64).result == Ok([0, 0, 0, 0])
  {
    assert Decompose(64) == CacheAddr(64, 0, 0, 2);
    var s1 := CacheRead(Initial(Zeros(16)), 64);
    assert s1.state.blocks[0] == Block(true, false, 2, EmptyBlock().data);
    assert EmptyBlock().data[0..4] == [0, 0, 0, 0];
  }

  // ---------------------------------------------------------------- coherence

  /** Where block `i` with tag `tag` lives in main memory. */
  function BlockAddr(tag: int, i: nat): int {
    Compose(tag, i, 0)
  }

  /** A valid block lies inside memory, and a clean one holds what memory holds there. */
  predicate BlockCoherent(s: CacheState, i: nat)
    requires Invariant(s) && i < NumBlocks
  {
    var b := s.blocks[i];
    b.valid ==>
      && InBounds(|s.mem|, BlockAddr(b.tag, i), BlockBytes)
      && (!b.dirty ==> forall j | 0 <= j < BlockBytes :: b.data[j] == s.mem[BlockAddr(b.tag, i) + j])
  }

  predicate Coherent(s: CacheState) {
    Invariant(s) && forall i | 0 <= i < NumBlocks :: BlockCoherent(s, i)
  }

  /** The byte at `k` as the program sees it: from a dirty block that holds `k`, else from memory. */
  function Seen(s: CacheState, k: nat): Byte
    requires Invariant(s) && k < |s.mem|
  {
    var c := Decompose(k);
    var b := s.blocks[c.index];
    if b.valid && b.dirty && b.tag == c.tag then b.data[c.offset] else s.mem[k]
  }

  function View(s: CacheState): (v: seq<Byte>)
    requires Invariant(s)
    ensures |v| == |s.mem|
    ensures forall k | 0 <= k < |s.mem| :: v[k] == Seen(s, k)
  {
    seq(|s.mem|, k requires 0 <= k < |s.mem| => Seen(s, k))
  }

  /** A fresh cache is coherent and shows main memory as it is. */
  lemma InitialCoherent(mem: seq<Byte>)
    ensures Coherent(Initial(mem)) && View(Initial(mem)) == mem
  {
  }

  /** Every byte of a valid block of a coherent cache is what the program sees there. */
  lemma ViewOfValidBlock(s: CacheState, i: nat, j: nat)
    requires Coherent(s) && i < NumBlocks && j < BlockBytes && s.blocks[i].valid
    ensures 0 <= BlockAddr(s.blocks[i].tag, i) + j < |s.mem|
    ensures View(s)[BlockAddr(s.blocks[i].tag, i) + j] == s.blocks[i].data[j]
  {
    assert BlockCoherent(s, i);
    DecomposeCompose(s.blocks[i].tag, i, j);
  }

  /** `k` lies in the block with index `i` and tag `t` exactly when it decomposes to them. */
  lemma InBlockIff(k: int, t: int, i: nat)
    requires i < NumBlocks
    ensures BlockAddr(t, i) <= k < BlockAddr(t, i) + BlockBytes <==>
              Decompose(k).tag == t && Decompose(k).index == i
  {
    var c := Decompose(k);
    if BlockAddr(t, i) <= k < BlockAddr(t, i) + BlockBytes {
      DecomposeCompose(t, i, k - BlockAddr(t, i));
    }
  }

  // ---------------------------------------------------------------- the corrected steps

  /** The start of the address's block: `addr & ~offset_mask`. */
  function BlockStart(addr: int): (a: int)
    ensures a == BlockAddr(Decompose(addr).tag, Decompose(addr).index)
  {
    Geometry();
    AndNotLowMask(addr, 3);
    AndNot(addr, OffsetMask)
  }

  /** Write block `i` back to its own address if it is valid and dirty. */
  function Flush(s: CacheState, i: nat): (r: Result<CacheState>)
    requires Invariant(s) && i < NumBlocks
    ensures r.Err? ==> r.fault == OutOfBounds && s.blocks[i].valid && s.blocks[i].dirty
    ensures r.Ok? ==> Invariant(r.value) && r.value.blocks == s.blocks && |r.value.mem| == |s.mem|
    ensures r.Ok? && !(s.blocks[i].valid && s.blocks[i].dirty) ==> r.value == s
  {
    var b := s.blocks[i];
    if b.valid && b.dirty then
      match Store(s.mem, BlockAddr(b.tag, i), b.data)
      case Err(f) => Err(f)
      case Ok(mem') => Ok(s.(mem := mem'))
    else Ok(s)
  }

  /** Load the block of `addr` into its slot, clean, once main memory has answered. */
  function Refill(s: CacheState, addr: int): (r: Result<CacheState>)
    requires Invariant(s)
    ensures r.Ok? <==> InBounds(|s.mem|, BlockStart(addr), BlockBytes)
    ensures r.Err? ==> r.fault == OutOfBounds
    ensures r.Ok? ==> Invariant(r.value) && r.value.mem == s.mem && IsHit(r.value, addr)
  {
    var c := Decompose(addr);
    match Load(s.mem, BlockStart(addr), BlockBytes)
    case Err(f) => Err(f)
    case Ok(d) => Ok(s.(blocks := s.blocks[c.index := Block(true, false, c.tag, d)]))
  }

  /** On a hit: put the word at its offset and mark the block dirty. */
  function PutWord(s: CacheState, addr: int, word: seq<Byte>): (r: CacheState)
    requires Invariant(s) && |word| == WordBytes && IsHit(s, addr) && !WillStraddle(Decompose(addr).offset)
    ensures Invariant(r) && r.mem == s.mem
    ensures forall j | 0 <= j < NumBlocks && j != Decompose(addr).index :: r.blocks[j] == s.blocks[j]
    ensures r.blocks[Decompose(addr).index].dirty
  {
    var c := Decompose(addr);
    var b := s.blocks[c.index];
    var b' := b.(dirty := true, data := Splice(b.data, c.offset, word));
    assert WellFormed(b');
    s.(blocks := s.blocks[c.index := b'])
  }

  /** Cache.read with write-back on a miss, the block start of `addr`, and the block claimed only after the refill. */
  function FixedRead(s: CacheState, addr: int): (r: Access<seq<Byte>>)
    requires Invariant(s)
    ensures Invariant(r.state) && |r.state.mem| == |s.mem|
    ensures forall j | 0 <= j < NumBlocks && j != Decompose(addr).index :: r.state.blocks[j] == s.blocks[j]
    ensures r.result.Ok? ==> |r.result.value| == WordBytes
  {
    var c := Decompose(addr);
    var b := s.blocks[c.index];
    if b.valid && b.tag == c.tag then
      if WillStraddle(c.offset) then Access(s, Err(StraddlingAccess))
      else Access(s, Ok(b.data[c.offset..c.offset + WordBytes]))
    else
      match Flush(s, c.index)
      case Err(f) => Access(s, Err(f))
      case Ok(s1) =>
        match Refill(s1, addr)
        case Err(f) => Access(s1, Err(f))
        case Ok(s2) =>
          if WillStraddle(c.offset) then Access(s2, Err(StraddlingAccess))
          else Access(s2, Ok(s2.blocks[c.index].data[c.offset..c.offset + WordBytes]))
  }

  /** Cache.write with write-back to the evicted block's own address and the refilled block left dirty. */
  function FixedWrite(s: CacheState, addr: int, word: seq<Byte>): (r: Access<()>)
    requires Invariant(s)
    ensures Invariant(r.state) && |r.state.mem| == |s.mem|
    ensures forall j | 0 <= j < NumBlocks && j != Decompose(addr).index :: r.state.blocks[j] == s.blocks[j]
  {
    if |word| != WordBytes then Access(s, Err(WordSize))
    else
      var c := Decompose(addr);
      var b := s.blocks[c.index];
      if b.valid && b.tag == c.tag then
        if WillStraddle(c.offset) then Access(s.(blocks := s.blocks[c.index := b.(dirty := true)]), Err(StraddlingAccess))
        else Access(PutWord(s, addr, word), Ok(()))
      else
        match Flush(s, c.index)
        case Err(f) => Access(s, Err(f))
        case Ok(s1) =>
          match Refill(s1, addr)
          case Err(f) => Access(s1, Err(f))
          case Ok(s2) =>
            if WillStraddle(c.offset) then Access(s2, Err(StraddlingAccess))
            else Access(PutWord(s2, addr, word), Ok(()))
  }

  // ---------------------------------------------------------------- step lemmas

  /** Block `i` holds exactly what memory holds at its address (or is invalid). */
  predicate Agrees(s: CacheState, i: nat)
    requires Invariant(s) && i < NumBlocks
  {
    var b := s.blocks[i];
    b.valid ==> InBounds(|s.mem|, BlockAddr(b.tag, i), BlockBytes) &&
                forall j | 0 <= j < BlockBytes :: b.data[j] == s.mem[BlockAddr(b.tag, i) + j]
  }

  /** Flushing a dirty block leaves the byte seen at `k` as it was. */
  lemma FlushKeepsSeen(s: CacheState, i: nat, k: nat)
    requires Coherent(s) && i < NumBlocks && s.blocks[i].valid && s.blocks[i].dirty && k < |s.mem|
    requires Flush(s, i).Ok?
    ensures Seen(Flush(s, i).value, k) == Seen(s, k)
  {
    var b := s.blocks[i];
    var a := BlockAddr(b.tag, i);
    InBlockIff(k, b.tag, i);
    if a <= k < a + BlockBytes {
      DecomposeCompose(b.tag, i, k - a);
    }
  }

  /** Flushing a dirty block keeps every other block coherent. */
  lemma FlushKeepsBlockCoherent(s: CacheState, i: nat, i': nat)
    requires Coherent(s) && i < NumBlocks && i' < NumBlocks && s.blocks[i].valid && s.blocks[i].dirty
    requires Flush(s, i).Ok?
    ensures BlockCoherent(Flush(s, i).value, i')
  {
    var s1 := Flush(s, i).value;
    var b, b' := s.blocks[i], s.blocks[i'];
    assert BlockCoherent(s, i');
    if b'.valid && !b'.dirty {
      forall j | 0 <= j < BlockBytes ensures b'.data[j] == s1.mem[BlockAddr(b'.tag, i') + j] {
        var k := BlockAddr(b'.tag, i') + j;
        InBlockIff(k, b.tag, i);
        DecomposeCompose(b'.tag, i', j);
      }
    }
  }

  /** Flushing never fails on a coherent cache, keeps it coherent, keeps the view, and makes the block agree with memory. */
  lemma FlushLemma(s: CacheState, i: nat)
    requires Coherent(s) && i < NumBlocks
    ensures Flush(s, i).Ok?
    ensures var s1 := Flush(s, i).value;
      Coherent(s1) && s1.blocks == s.blocks && View(s1) == View(s) && Agrees(s1, i)
  {
    var b := s.blocks[i];
    assert BlockCoherent(s, i);
    if b.valid && b.dirty {
      var s1 := Flush(s, i).value;
      forall k | 0 <= k < |s.mem| ensures View(s1)[k] == View(s)[k] {
        FlushKeepsSeen(s, i, k);
      }
      forall i' | 0 <= i' < NumBlocks ensures BlockCoherent(s1, i') {
        FlushKeepsBlockCoherent(s, i, i');
      }
      assert View(s1) == View(s);
    }
  }

  /** A successful refill of a block that agrees with memory keeps the cache coherent and the view unchanged. */
  lemma RefillLemma(s: CacheState, addr: int)
    requires Coherent(s) && Agrees(s, Decompose(addr).index) && Refill(s, addr).Ok?
    ensures var s2 := Refill(s, addr).value;
      var c := Decompose(addr);
      && Coherent(s2) && View(s2) == View(s) && s2.mem == s.mem
      && IsHit(s2, addr) && !s2.blocks[c.index].dirty
      && s2.blocks[c.index].data == Load(s.mem, BlockStart(addr), BlockBytes).value
  {
    var c := Decompose(addr);
    var s2 := Refill(s, addr).value;
    var b := s.blocks[c.index];
    forall k | 0 <= k < |s.mem| ensures Seen(s2, k) == Seen(s, k) {
      var ck := Decompose(k);
      if ck.index == c.index && b.valid && b.dirty && b.tag == ck.tag {
        InBlockIff(k, b.tag, c.index);
        DecomposeCompose(b.tag, c.index, k - BlockAddr(b.tag, c.index));
      }
    }
    assert BlockCoherent(s2, c.index);
    forall i | 0 <= i < NumBlocks ensures BlockCoherent(s2, i) {
      assert BlockCoherent(s, i);
    }
    assert View(s2) == View(s);
  }

  /** After a word is put on a hit, the byte seen at `k` is the word's where it covers `k`. */
  lemma PutWordSeen(s: CacheState, addr: int, word: seq<Byte>, k: nat)
    requires Coherent(s) && |word| == WordBytes && IsHit(s, addr) && !WillStraddle(Decompose(addr).offset)
    requires k < |s.mem|
    ensures Seen(PutWord(s, addr, word), k) == if addr <= k < addr + WordBytes then word[k - addr] else View(s)[k]
  {
    var c := Decompose(addr);
    var a := BlockAddr(c.tag, c.index);
    var s' := PutWord(s, addr, word);
    var b, b' := s.blocks[c.index], s'.blocks[c.index];
    assert b'.data == Splice(b.data, c.offset, word) && b'.tag == b.tag && b'.valid;
    assert addr == a + c.offset;
    InBlockIff(k, c.tag, c.index);
    if a <= k < a + BlockBytes {
      DecomposeCompose(c.tag, c.index, k - a);
      assert Seen(s', k) == b'.data[k - a];
      ViewOfValidBlock(s, c.index, k - a);
    } else {
      assert Seen(s', k) == Seen(s, k);
    }
  }

  lemma PutWordCoherent(s: CacheState, addr: int, word: seq<Byte>)
    requires Coherent(s) && |word| == WordBytes && IsHit(s, addr) && !WillStraddle(Decompose(addr).offset)
    ensures Coherent(PutWord(s, addr, word))
  {
    var s' := PutWord(s, addr, word);
    forall i | 0 <= i < NumBlocks ensures BlockCoherent(s', i) {
      assert BlockCoherent(s, i);
    }
  }

  /** A non-straddling hit that puts a word writes exactly that word into the view. */
  lemma PutWordLemma(s: CacheState, addr: int, word: seq<Byte>)
    requires Coherent(s) && |word| == WordBytes && IsHit(s, addr) && !WillStraddle(Decompose(addr).offset)
    ensures var s' := PutWord(s, addr, word);
      Coherent(s') && Store(View(s), addr, word) == Ok(View(s'))
  {
    var c := Decompose(addr);
    var s' := PutWord(s, addr, word);
    assert addr == BlockAddr(c.tag, c.index) + c.offset;
    ViewOfValidBlock(s, c.index, c.offset);
    ViewOfValidBlock(s, c.index, c.offset + WordBytes - 1);
    PutWordCoherent(s, addr, word);
    var st := Store(View(s), addr, word);
    assert st.Ok?;
    var v' := View(s');
    forall k | 0 <= k < |s.mem| ensures st.value[k] == v'[k] {
      PutWordSeen(s, addr, word, k);
    }
    assert st.value == v';
  }

  /** Marking a valid block dirty changes neither coherence nor the view. */
  lemma MarkDirtyLemma(s: CacheState, i: nat)
    requires Coherent(s) && i < NumBlocks && s.blocks[i].valid
    ensures var s' := s.(blocks := s.blocks[i := s.blocks[i].(dirty := true)]);
      Coherent(s') && View(s') == View(s)
  {
    var b := s.blocks[i];
    var s' := s.(blocks := s.blocks[i := b.(dirty := true)]);
    forall k | 0 <= k < |s.mem| ensures Seen(s', k) == Seen(s, k) {
      var ck := Decompose(k);
      if ck.index == i && b.tag == ck.tag {
        InBlockIff(k, b.tag, i);
        ViewOfValidBlock(s, i, k - BlockAddr(b.tag, i));
      }
    }
    forall i' | 0 <= i' < NumBlocks ensures BlockCoherent(s', i') {
      assert BlockCoherent(s, i');
    }
    assert View(s') == View(s);
  }

  // ---------------------------------------------------------------- transparency

  /** On a hit of a coherent cache, byte `j` from the address is the block's byte at offset + j. */
  lemma HitByteIsViewByte(s: CacheState, addr: int, j: nat)
    requires Coherent(s) && IsHit(s, addr) && Decompose(addr).offset + j < BlockBytes
    ensures 0 <= addr + j < |s.mem|
    ensures View(s)[addr + j] == s.blocks[Decompose(addr).index].data[Decompose(addr).offset + j]
  {
    var c := Decompose(addr);
    assert addr + j == BlockAddr(c.tag, c.index) + (c.offset + j);
    ViewOfValidBlock(s, c.index, c.offset + j);
  }

  /** On a non-straddling hit of a coherent cache, the word in the block is the word in the view. */
  lemma HitWordIsViewWord(s: CacheState, addr: int)
    requires Coherent(s) && IsHit(s, addr) && !WillStraddle(Decompose(addr).offset)
    ensures var c := Decompose(addr);
      Load(View(s), addr, WordBytes) == Ok(s.blocks[c.index].data[c.offset..c.offset + WordBytes])
  {
    var c := Decompose(addr);
    var w := s.blocks[c.index].data[c.offset..c.offset + WordBytes];
    HitByteIsViewByte(s, addr, 0);
    HitByteIsViewByte(s, addr, WordBytes - 1);
    var v := View(s);
    var l := Load(v, addr, WordBytes);
    assert l.Ok? && |l.value| == |w| == WordBytes;
    forall j | 0 <= j < WordBytes ensures l.value[j] == w[j] {
      HitByteIsViewByte(s, addr, j);
      assert l.value[j] == v[addr + j];
    }
    assert l.value == w;
  }

  /** A corrected read keeps the cache coherent, never changes the view, and returns what a load of the view returns. */
  lemma FixedReadIsTransparent(s: CacheState, addr: int)
    requires Coherent(s)
    ensures var r := FixedRead(s, addr);
      && Coherent(r.state) && View(r.state) == View(s)
      && (r.result.Ok? ==> r.result == Load(View(s), addr, WordBytes))
      && (r.result.Err? ==> r.result.fault in {OutOfBounds, StraddlingAccess})
  {
    var c := Decompose(addr);
    var b := s.blocks[c.index];
    if b.valid && b.tag == c.tag {
      if !WillStraddle(c.offset) {
        HitWordIsViewWord(s, addr);
      }
    } else {
      FlushLemma(s, c.index);
      var s1 := Flush(s, c.index).value;
      if Refill(s1, addr).Ok? {
        RefillLemma(s1, addr);
        var s2 := Refill(s1, addr).value;
        if !WillStraddle(c.offset) {
          HitWordIsViewWord(s2, addr);
        }
      }
    }
  }

  /**
   * A corrected write keeps the cache coherent; when it succeeds the view becomes exactly
   * what storing the word into the view gives, and when it fails the view is unchanged.
   */
  lemma FixedWriteIsTransparent(s: CacheState, addr: int, word: seq<Byte>)
    requires Coherent(s)
    ensures var r := FixedWrite(s, addr, word);
      && Coherent(r.state)
      && (r.result.Ok? ==> Store(View(s), addr, word) == Ok(View(r.state)))
      && (r.result.Err? ==> View(r.state) == View(s) && r.result.fault in {WordSize, OutOfBounds, StraddlingAccess})
  {
    if |word| == WordBytes {
      var c := Decompose(addr);
      var b := s.blocks[c.index];
      if b.valid && b.tag == c.tag {
        if WillStraddle(c.offset) {
          MarkDirtyLemma(s, c.index);
        } else {
          PutWordLemma(s, addr, word);
        }
      } else {
        FlushLemma(s, c.index);
        var s1 := Flush(s, c.index).value;
        if Refill(s1, addr).Ok? {
          RefillLemma(s1, addr);
          var s2 := Refill(s1, addr).value;
          if !WillStraddle(c.offset) {
            PutWordLemma(s2, addr, word);
          }
        }
      }
    }
  }

  /** Read after write through the corrected cache returns the word written. */
  lemma FixedReadAfterWrite(s: CacheState, addr: int, word: seq<Byte>)
    requires Coherent(s)
    requires FixedWrite(s, addr, word).result.Ok?
    ensures FixedRead(FixedWrite(s, addr, word).state, addr).result == Ok(word)
  {
    var s' := FixedWrite(s, addr, word).state;
    FixedWriteIsTransparent(s, addr, word);
    FixedReadIsTransparent(s', addr);
    LoadAfterStore(View(s), addr, word);
  }
}
