/**
 * The direct-mapped, write-back/write-allocate data cache in front of main memory,
 * as the code has it (its defects included; cache_fixes.dfy states and repairs them).
 *
 * An access is specified by a function on a snapshot (CacheState: the blocks and the
 * bytes of main memory), and the Cache class performs it in place on an array of blocks
 * and a Memory object, with a postcondition that ties the new snapshot to that function.
 */
module DataCache {
  import opened Common
  import opened Bits
  import opened MainMemory

  // ---------------------------------------------------------------- geometry

  const WordBytes: nat := 4
  const CacheBytes: nat := 32
  const BlockBytes: nat := 8
  const NumBlocks: nat := CacheBytes / BlockBytes
  const IndexLen: nat := BitLength(NumBlocks - 1)
  const IndexMask: nat := NumBlocks - 1
  const OffsetLen: nat := BitLength(BlockBytes - 1)
  const OffsetMask: nat := BlockBytes - 1

  /** The sizes derived from the tiny configuration: 4 blocks, 2 index bits, 3 offset bits. */
  lemma Geometry()
    ensures NumBlocks == 4 && IndexMask == 3 && OffsetMask == 7
    ensures IndexLen == 2 && OffsetLen == 3
    ensures Pow2(OffsetLen) == BlockBytes && Pow2(IndexLen) == NumBlocks
    ensures Pow2(IndexLen + OffsetLen) == CacheBytes
  {
    BitLengthOfMask(2);
    BitLengthOfMask(3);
  }

  /** The three fields of an address, least significant first. */
  datatype CacheAddr = CacheAddr(raw: int, offset: nat, index: nat, tag: int)

  /** `CacheAddr(addr)`: offset, index and tag by masks and shifts. */
  function Decompose(addr: int): (c: CacheAddr)
    ensures c.raw == addr
    ensures c.offset < BlockBytes && c.index < NumBlocks
    ensures c.offset == addr % BlockBytes
    ensures c.index == (addr / BlockBytes) % NumBlocks
    ensures c.tag == addr / CacheBytes
    ensures addr == c.tag * CacheBytes + c.index * BlockBytes + c.offset
  {
    Geometry();
    var q := Shr(addr, OffsetLen);
    assert q == addr / 8;
    AndLowMask(addr, 3);
    AndLowMask(q, 2);
    assert addr == 32 * (q / 4) + (8 * (q % 4) + addr % 8);
    DivModUnique(addr, 32, q / 4, 8 * (q % 4) + addr % 8);
    CacheAddr(addr, And(addr, OffsetMask), And(q, IndexMask), Shr(addr, IndexLen + OffsetLen))
  }

  /** The address with the given fields: `tag << 5 | index << 3 | offset`. */
  function Compose(tag: int, index: nat, offset: nat): int {
    tag * CacheBytes + index * BlockBytes + offset
  }

  /** Fields in range survive a round trip through an address. */
  lemma DecomposeCompose(tag: int, index: nat, offset: nat)
    requires index < NumBlocks && offset < BlockBytes
    ensures Decompose(Compose(tag, index, offset)) == CacheAddr(Compose(tag, index, offset), offset, index, tag)
  {
    var a := Compose(tag, index, offset);
    var c := Decompose(a);
    DivModUnique(a, CacheBytes, tag, index * BlockBytes + offset);
    DivModUnique(a, CacheBytes, c.tag, c.index * BlockBytes + c.offset);
    DivModUnique(index * BlockBytes + offset, BlockBytes, index, offset);
    DivModUnique(c.index * BlockBytes + c.offset, BlockBytes, c.index, c.offset);
  }

  /**
   * `block_base(addr)` is `addr & ~offset_len`: the bits of OffsetLen (3), not of
   * OffsetMask (7), so as written it clears bits 0 and 1 only.
   */
  function BlockBase(addr: int): (r: int)
    ensures r == addr - addr % 4
  {
    Geometry();
    AndNotLowMask(addr, 2);
    AndNot(addr, OffsetLen)
  }

  /** block_base is the start of the address's block exactly when the offset is below 4. */
  lemma BlockBaseIsBlockStartIff(addr: int)
    ensures BlockBase(addr) == addr - Decompose(addr).offset <==> Decompose(addr).offset < 4
  {
    var o := Decompose(addr).offset;
    var q := addr / BlockBytes;
    assert addr == 8 * q + o;
    DivModUnique(addr, 4, 2 * q + o / 4, o % 4);
    assert BlockBase(addr) == addr - o % 4;
  }

  /** `will_straddle(offset)`: a word at this offset would run past the block. */
  predicate WillStraddle(offset: int) {
    offset + WordBytes > BlockBytes
  }

  lemma WillStraddleIff(offset: nat)
    requires offset < BlockBytes
    ensures WillStraddle(offset) <==> offset > 4
    ensures !WillStraddle(offset) <==> offset + WordBytes <= BlockBytes
  {
  }

  // ---------------------------------------------------------------- blocks and snapshots

  datatype Block = Block(valid: bool, dirty: bool, tag: int, data: seq<Byte>)

  /** `Block()`: invalid, clean, tag 0, BlockBytes zero bytes. */
  function EmptyBlock(): (b: Block)
    ensures !b.valid && !b.dirty && b.tag == 0 && |b.data| == BlockBytes
    ensures forall i | 0 <= i < BlockBytes :: b.data[i] == 0
  {
    var zeros: seq<Byte> := seq(BlockBytes, _ => 0);
    Block(false, false, 0, zeros)
  }

  /** A block may be dirty only when it is valid, and always holds one block of bytes. */
  predicate WellFormed(b: Block) {
    (b.dirty ==> b.valid) && |b.data| == BlockBytes
  }

  datatype CacheState = CacheState(blocks: seq<Block>, mem: seq<Byte>)

  predicate Invariant(s: CacheState) {
    |s.blocks| == NumBlocks && forall i | 0 <= i < NumBlocks :: WellFormed(s.blocks[i])
  }

  /** What an access leaves behind, and what it returns or the fault it raises. */
  datatype Access<T> = Access(state: CacheState, result: Result<T>)

  /** `Cache(dmem)`: every block empty. */
  function Initial(mem: seq<Byte>): (s: CacheState)
    ensures Invariant(s) && s.mem == mem
    ensures forall i | 0 <= i < NumBlocks :: s.blocks[i] == EmptyBlock()
  {
    CacheState(seq(NumBlocks, _ => EmptyBlock()), mem)
  }

  /** The hit test `block.valid and block.tag == caddr.tag`: the address's block is valid and holds its tag. */
  predicate IsHit(s: CacheState, addr: int)
    requires Invariant(s)
    ensures IsHit(s, addr) ==> s.blocks[Decompose(addr).index].valid
  {
    var c := Decompose(addr);
    s.blocks[c.index].valid && s.blocks[c.index].tag == c.tag
  }

  // ---------------------------------------------------------------- the two accesses

  /**
   * `Cache.read(addr)`. Every read keeps "dirty implies valid" and the block size,
   * changes at most the block its address selects, and never writes main memory.
   */
  function CacheRead(s: CacheState, addr: int): (r: Access<seq<Byte>>)
    requires Invariant(s)
    ensures Invariant(r.state)
    ensures r.state.mem == s.mem
    ensures forall j | 0 <= j < NumBlocks && j != Decompose(addr).index :: r.state.blocks[j] == s.blocks[j]
    ensures r.result.Ok? ==> |r.result.value| == WordBytes
    ensures r.result.Err? ==> r.result.fault in {OutOfBounds, StraddlingAccess}
  {
    var c := Decompose(addr);
    var b := s.blocks[c.index];
    if b.valid && b.tag == c.tag then
      if WillStraddle(c.offset) then Access(s, Err(StraddlingAccess))
      else Access(s, Ok(b.data[c.offset..c.offset + WordBytes]))
    else
      // the block is claimed before main memory is asked, and nothing is written back
      var b' := b.(valid := true, dirty := false, tag := c.tag);
      match Load(s.mem, BlockBase(addr), BlockBytes)
      case Err(f) => Access(s.(blocks := s.blocks[c.index := b']), Err(f))
      case Ok(d) =>
        var s' := s.(blocks := s.blocks[c.index := b'.(data := d)]);
        if WillStraddle(c.offset) then Access(s', Err(StraddlingAccess))
        else Access(s', Ok(d[c.offset..c.offset + WordBytes]))
  }

  /**
   * `Cache.write(addr, word)`. Every write keeps "dirty implies valid" and the block
   * size, changes at most the block its address selects, and keeps the memory's size.
   */
  function CacheWrite(s: CacheState, addr: int, word: seq<Byte>): (r: Access<()>)
    requires Invariant(s)
    ensures Invariant(r.state)
    ensures |r.state.mem| == |s.mem|
    ensures forall j | 0 <= j < NumBlocks && j != Decompose(addr).index :: r.state.blocks[j] == s.blocks[j]
    ensures r.result.Err? ==> r.result.fault in {WordSize, OutOfBounds, StraddlingAccess}
  {
    if |word| != WordBytes then Access(s, Err(WordSize))
    else
      var c := Decompose(addr);
      var b := s.blocks[c.index];
      if b.valid && b.tag == c.tag then
        var b' := b.(dirty := true);
        if WillStraddle(c.offset) then Access(s.(blocks := s.blocks[c.index := b']), Err(StraddlingAccess))
        else Access(s.(blocks := s.blocks[c.index := b'.(data := Splice(b.data, c.offset, word))]), Ok(()))
      else
        // eviction writes the old data at the NEW address's block_base
        var evicted := if b.valid && b.dirty then Store(s.mem, BlockBase(addr), b.data) else Ok(s.mem);
        match evicted
        case Err(f) => Access(s, Err(f))
        case Ok(mem') =>
          var b' := b.(valid := true, dirty := false, tag := c.tag);
          match Load(mem', BlockBase(addr), BlockBytes)
          case Err(f) => Access(CacheState(s.blocks[c.index := b'], mem'), Err(f))
          case Ok(d) =>
            if WillStraddle(c.offset) then
              Access(CacheState(s.blocks[c.index := b'.(data := d)], mem'), Err(StraddlingAccess))
            else
              // the refilled block takes the word but stays clean
              Access(CacheState(s.blocks[c.index := b'.(data := Splice(d, c.offset, word))], mem'), Ok(()))
  }

  // ---------------------------------------------------------------- properties

  /** A non-straddling hit returns the word from the block and changes nothing. */
  lemma ReadHit(s: CacheState, addr: int)
    requires Invariant(s) && IsHit(s, addr) && !WillStraddle(Decompose(addr).offset)
    ensures var c := Decompose(addr);
      CacheRead(s, addr) == Access(s, Ok(s.blocks[c.index].data[c.offset..c.offset + WordBytes]))
  {
  }

  /** A straddling hit fails and changes nothing. */
  lemma ReadStraddlingHit(s: CacheState, addr: int)
    requires Invariant(s) && IsHit(s, addr) && WillStraddle(Decompose(addr).offset)
    ensures CacheRead(s, addr) == Access(s, Err(StraddlingAccess))
  {
  }

  /**
   * A miss claims the block (valid, clean, new tag) before it asks main memory for the
   * BlockBytes at block_base(addr), without writing the old occupant back; a straddling
   * miss fails only after the refill.
   */
  lemma ReadMiss(s: CacheState, addr: int)
    requires Invariant(s) && !IsHit(s, addr)
    ensures var c := Decompose(addr);
      var r := CacheRead(s, addr);
      var nb := r.state.blocks[c.index];
      var fill := Load(s.mem, BlockBase(addr), BlockBytes);
      && r.state.mem == s.mem
      && nb.valid && !nb.dirty && nb.tag == c.tag
      && (fill.Err? ==> nb.data == s.blocks[c.index].data && r.result == Err(OutOfBounds))
      && (fill.Ok? ==> nb.data == fill.value)
      && (fill.Ok? && WillStraddle(c.offset) ==> r.result == Err(StraddlingAccess))
      && (fill.Ok? && !WillStraddle(c.offset) ==> r.result == Ok(fill.value[c.offset..c.offset + WordBytes]))
  {
  }

  /** A word of the wrong size fails before anything changes. */
  lemma WriteWrongSize(s: CacheState, addr: int, word: seq<Byte>)
    requires Invariant(s) && |word| != WordBytes
    ensures CacheWrite(s, addr, word) == Access(s, Err(WordSize))
  {
  }

  /**
   * A non-straddling hit marks the block dirty and puts the word at its offset; the
   * other bytes, the other blocks and main memory stay as they were.
   */
  lemma WriteHit(s: CacheState, addr: int, word: seq<Byte>)
    requires Invariant(s) && |word| == WordBytes && IsHit(s, addr) && !WillStraddle(Decompose(addr).offset)
    ensures var c := Decompose(addr);
      var r := CacheWrite(s, addr, word);
      var ob := s.blocks[c.index];
      var nb := r.state.blocks[c.index];
      && r.result == Ok(())
      && r.state.mem == s.mem
      && nb.valid && nb.dirty && nb.tag == ob.tag
      && nb.data[c.offset..c.offset + WordBytes] == word
      && (forall k | 0 <= k < BlockBytes && !(c.offset <= k < c.offset + WordBytes) :: nb.data[k] == ob.data[k])
  {
    var c := Decompose(addr);
    var nb := CacheWrite(s, addr, word).state.blocks[c.index];
    assert nb.data[c.offset..c.offset + WordBytes] == word by {
      forall i | 0 <= i < WordBytes ensures nb.data[c.offset + i] == word[i] { }
    }
  }

  /** A straddling hit marks the block dirty and then fails. */
  lemma WriteStraddlingHit(s: CacheState, addr: int, word: seq<Byte>)
    requires Invariant(s) && |word| == WordBytes && IsHit(s, addr) && WillStraddle(Decompose(addr).offset)
    ensures var c := Decompose(addr);
      CacheWrite(s, addr, word) ==
        Access(s.(blocks := s.blocks[c.index := s.blocks[c.index].(dirty := true)]), Err(StraddlingAccess))
  {
  }

  /**
   * A miss writes main memory if and only if the old block was valid and dirty, and then
   * at block_base of the NEW address; it refills from there, puts the word in, and
   * leaves the block clean.
   */
  lemma WriteMiss(s: CacheState, addr: int, word: seq<Byte>)
    requires Invariant(s) && |word| == WordBytes && !IsHit(s, addr)
    requires Load(s.mem, BlockBase(addr), BlockBytes).Ok?
    requires !WillStraddle(Decompose(addr).offset)
    ensures var c := Decompose(addr);
      var ob := s.blocks[c.index];
      var r := CacheWrite(s, addr, word);
      var mem' := if ob.valid && ob.dirty then Store(s.mem, BlockBase(addr), ob.data).value else s.mem;
      && r.result == Ok(())
      && (r.state.mem != s.mem ==> ob.valid && ob.dirty)
      && r.state.mem == mem'
      && r.state.blocks[c.index] ==
           Block(true, false, c.tag, Splice(Load(mem', BlockBase(addr), BlockBytes).value, c.offset, word))
  {
    var c := Decompose(addr);
    var ob := s.blocks[c.index];
    assert Store(s.mem, BlockBase(addr), ob.data).Ok?;
  }

  /**
   * How a miss fails. Out of bounds at block_base(addr), the eviction fails first and
   * nothing changes; with nothing to evict, the block is claimed and then the refill
   * fails. A straddling miss fails only after the eviction and the refill.
   */
  lemma WriteMissFaults(s: CacheState, addr: int, word: seq<Byte>)
    requires Invariant(s) && |word| == WordBytes && !IsHit(s, addr)
    ensures var c := Decompose(addr);
      var ob := s.blocks[c.index];
      var r := CacheWrite(s, addr, word);
      var inside := InBounds(|s.mem|, BlockBase(addr), BlockBytes);
      && (!inside && ob.valid && ob.dirty ==> r == Access(s, Err(OutOfBounds)))
      && (!inside && !(ob.valid && ob.dirty) ==>
            r == Access(s.(blocks := s.blocks[c.index := ob.(valid := true, dirty := false, tag := c.tag)]), Err(OutOfBounds)))
      && (inside && WillStraddle(c.offset) ==>
            && r.result == Err(StraddlingAccess)
            && r.state.mem == (if ob.valid && ob.dirty then Store(s.mem, BlockBase(addr), ob.data).value else s.mem)
            && r.state.blocks[c.index] == Block(true, false, c.tag, Load(r.state.mem, BlockBase(addr), BlockBytes).value))
  {
  }

  /**
   * A block holds one tag: of two addresses a cache size apart, which share an index and
   * differ in tag, at most one is a hit.
   */
  lemma HitIsExclusive(s: CacheState, addr: int)
    requires Invariant(s) && IsHit(s, addr)
    ensures !IsHit(s, addr + CacheBytes)
  {
    var q := addr / BlockBytes;
    DivModUnique(addr + CacheBytes, CacheBytes, addr / CacheBytes + 1, addr % CacheBytes);
    DivModUnique(addr + CacheBytes, BlockBytes, q + NumBlocks, addr % BlockBytes);
    DivModUnique(q + NumBlocks, NumBlocks, q / NumBlocks + 1, q % NumBlocks);
  }

  /** A word written successfully reads back at once. */
  lemma ReadAfterWrite(s: CacheState, addr: int, word: seq<Byte>)
    requires Invariant(s) && CacheWrite(s, addr, word).result.Ok?
    ensures CacheRead(CacheWrite(s, addr, word).state, addr).result == Ok(word)
  {
    var c := Decompose(addr);
    assert CacheWrite(s, addr, word).state.blocks[c.index].data[c.offset..c.offset + WordBytes] == word;
  }

  // ---------------------------------------------------------------- the object

  /** `Cache`: the list of blocks, updated in place, and the main memory behind it. */
  class Cache {
    const blocks: array<Block>
    const dmem: Memory

    ghost predicate Valid()
      reads this, blocks
    {
      blocks.Length == NumBlocks && forall i | 0 <= i < NumBlocks :: WellFormed(blocks[i])
    }

    ghost function State(): CacheState
      reads this, blocks, dmem
    {
      CacheState(blocks[..], dmem.contents)
    }

    constructor (dmem: Memory)
      ensures this.dmem == dmem && fresh(blocks)
      ensures Valid() && State() == Initial(dmem.contents)
    {
      this.dmem := dmem;
      blocks := new Block[NumBlocks](_ => EmptyBlock());
    }

    /** Return the word at addr, refilling its block from main memory on a miss. */
    method Read(addr: int) returns (r: Result<seq<Byte>>)
      requires Valid()
      modifies blocks
      ensures Valid()
      ensures State() == CacheRead(old(State()), addr).state
      ensures r == CacheRead(old(State()), addr).result
    {
      var c := Decompose(addr);
      var block := blocks[c.index];
      if block.valid && block.tag == c.tag {
        if WillStraddle(c.offset) {
          return Err(StraddlingAccess);
        }
        return Ok(block.data[c.offset..c.offset + WordBytes]);
      }
      block := block.(valid := true, dirty := false, tag := c.tag);
      blocks[c.index] := block;
      var fill := dmem.Read(BlockBase(addr), BlockBytes);
      if fill.Err? {
        return Err(fill.fault);
      }
      block := block.(data := fill.value);
      blocks[c.index] := block;
      if WillStraddle(c.offset) {
        return Err(StraddlingAccess);
      }
      r := Ok(block.data[c.offset..c.offset + WordBytes]);
    }

    /** Write word at addr, write-back/write-allocate. */
    method Write(addr: int, word: seq<Byte>) returns (r: Result<()>)
      requires Valid()
      modifies blocks, dmem
      ensures Valid()
      ensures State() == CacheWrite(old(State()), addr, word).state
      ensures r == CacheWrite(old(State()), addr, word).result
    {
      if |word| != WordBytes {
        return Err(WordSize);
      }
      var c := Decompose(addr);
      var block := blocks[c.index];
      if block.valid && block.tag == c.tag {
        block := block.(dirty := true);
        blocks[c.index] := block;
        if WillStraddle(c.offset) {
          return Err(StraddlingAccess);
        }
        block := block.(data := Splice(block.data, c.offset, word));
        blocks[c.index] := block;
      } else {
        if block.valid && block.dirty {
          var evicted := dmem.Write(BlockBase(addr), block.data);
          if evicted.Err? {
            return Err(evicted.fault);
          }
        }
        block := block.(valid := true, dirty := false, tag := c.tag);
        blocks[c.index] := block;
        var fill := dmem.Read(BlockBase(addr), BlockBytes);
        if fill.Err? {
          return Err(fill.fault);
        }
        block := block.(data := fill.value);
        blocks[c.index] := block;
        if WillStraddle(c.offset) {
          return Err(StraddlingAccess);
        }
        block := block.(data := Splice(block.data, c.offset, word));
        blocks[c.index] := block;
      }
      r := Ok(());
    }
  }
}
