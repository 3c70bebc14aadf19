# spym data cache and CPU, in Dafny

This project models the core of spym, a small MIPS emulator. The core has two parts.

- **The data cache** (`emu/cache.py`). It is direct-mapped, write-back and write-allocate, with 32 bytes in
  4 blocks of 8 bytes. Accesses are 4-byte words. An address splits into an offset, an index and a tag
  (`CacheAddr`). `block_base` gives the address a block is loaded from, and `will_straddle` tells whether a
  word crosses the end of its block. `Cache.read` and `Cache.write` each change at most one block, and they may call
  main memory.
- **The CPU** (`cpu.py`). `execute_single` runs one of `li`, `add`, `addi`, `lw`, `sw`, `move`, `slt` and
  `syscall` against a register file and main memory. `start` is the fetch loop.

Layout:

- `common.dfy` (`Common`) holds the byte type, `Option`, `Result` and the `Fault` kinds. Each
  error the source raises becomes one `Fault`; the exit syscall's exception becomes `Exit`.
- `bits.dfy` (`Bits`) holds Python's `&`, `& ~m`, `>>` and `int.bit_length` on unbounded integers. The
  lemmas reduce them to `%` and `/`.
- `memory.dfy` (`MainMemory`) holds main memory as a bounds-checked byte sequence, with a `Memory` class
  around it.
- `cache.dfy` (`DataCache`) holds the cache **as written**, defects included.
  - `CacheRead` and `CacheWrite` are the two accesses as functions on a snapshot of the blocks and memory.
  - The `Cache` class keeps its blocks in an `array<Block>` and its memory in a `Memory` object.
  - `Cache.Read` and `Cache.Write` update both in place.
  - Their postconditions tie the new snapshot and the result to `CacheRead` and `CacheWrite`.
  - The lemmas state what each path of an access does.
- `cache_fixes.dfy` (`CacheFixes`) holds the findings below.
  - For each defect there is a lemma that evaluates the as-written cache on a concrete sequence of accesses.
  - `FixedRead` and `FixedWrite` are corrected accesses.
  - They are proved transparent on the memory as seen through the cache (`View`: main memory with dirty
    blocks laid over it). Whenever an access succeeds, it does what `Load` or `Store` on `View` does, and a
    failed access leaves `View` unchanged. Straddling words fail, and so do blocks that run past the end of
    memory.
- `cpu.dfy` (`Cpu`) models the CPU.
  - `Execute` is one instruction and `Run` is the fetch loop, both as functions on a `Machine` snapshot.
  - The `CPU` class performs them in place. `ExecuteSingle` and `Start` are proved to match `Execute` and
    `Run`.
  - Operand parsing of `offs($reg)`, Python's `int()` and `struct.pack('<I')` are modelled character by
    character and byte by byte.

Three choices follow the code:

- The cache is not transparent (see Findings).
- Register values are unbounded integers, because `registers.py` is not modelled.
- The register names are a parameter of the `CPU` constructor.

A word stored by `sw` does have to fit in 32 bits, because `struct.pack('<I', v)` rejects values outside
[0, 2^32). That is modelled as the `PackRange` fault.

Error outcomes replace the source's exceptions as follows.

- A failed `assert` or `NotImplementedError` becomes a `Fault` result.
- An `IndexError` or `ValueError` from a missing or malformed operand becomes `BadOperand`.
- The exit syscall's exception becomes the `Exit` outcome.
- Any other exception escaping `start` becomes `Failed(fault)`.

## Model

| member | source | states |
|---|---|---|
| Common.Splice | emu/cache.py:114 | the slice assignment `data[at:at+n] = w` keeps the length, puts w at `at`, and keeps every other byte |
| Bits.And | emu/cache.py:45-46 | `x & m` for a non-negative mask lies in [0, m] |
| Bits.AndNot | emu/cache.py:27 | `x & ~m` never exceeds x and is non-negative when x is |
| Bits.Shr | emu/cache.py:46-47 | `x >> k` is the floor of x / 2^k: `2^k * r <= x < 2^k * (r + 1)` |
| Bits.BitLength | emu/cache.py:20-22 | `n.bit_length()` is 0 exactly for 0, and otherwise the r with `2^(r-1) <= n < 2^r` |
| Bits.AndLowMask | emu/cache.py:45 | `x & (2^k - 1)` is `x mod 2^k`, for every integer x, negative ones included |
| Bits.AndNotLowMask | emu/cache.py:27 | `x & ~(2^k - 1)` is x with its low k bits cleared |
| Bits.BitLengthOfMask | emu/cache.py:20-22 | `(2^k - 1).bit_length()` is k |
| MainMemory.Load | cpu.py:47 | a read succeeds exactly when `[addr, addr+n)` lies in memory; it returns those n bytes, and otherwise OutOfBounds |
| MainMemory.Store | cpu.py:54 | a write succeeds exactly when it lies in memory; it replaces those bytes and keeps the length and every other byte |
| MainMemory.LoadAfterStore | cpu.py:47-54 | reading back the range just written returns what was written |
| MainMemory.LoadAfterDisjointStore | cpu.py:47-54 | a write leaves every range that does not overlap it unchanged |
| MainMemory.Memory.constructor | cpu.py:10 | the memory object starts with the given contents |
| MainMemory.Memory.Read | cpu.py:47 | the in-place read returns `Load` of the current contents |
| MainMemory.Memory.Write | cpu.py:54 | the in-place write changes the contents exactly as `Store` does, and leaves them unchanged on OutOfBounds |
| DataCache.Geometry | emu/cache.py:12-23 | with 32-byte cache, 8-byte blocks and 4-byte words there are 4 blocks, a 2-bit index (mask 3) and a 3-bit offset (mask 7) |
| DataCache.Decompose | emu/cache.py:42-47 | `offset = addr mod 8 < 8`, `index = (addr div 8) mod 4 < 4`, `tag = addr div 32`, and `addr = tag*32 + index*8 + offset` |
| DataCache.DecomposeCompose | emu/cache.py:42-47 | splitting `tag*32 + index*8 + offset` with in-range index and offset gives back the same three fields |
| DataCache.BlockBase | emu/cache.py:26-27 | `addr & ~offset_len` (offset_len = 3) is `addr - addr mod 4`: it clears bits 0 and 1 only |
| DataCache.BlockBaseIsBlockStartIff | emu/cache.py:26-27 | `block_base(addr)` is the start of addr's block exactly when the offset is below 4 |
| DataCache.WillStraddle | emu/cache.py:30-31 | `offset + 4 > 8`; its meaning for in-block offsets is stated by `WillStraddleIff` |
| DataCache.WillStraddleIff | emu/cache.py:30-31 | for an in-block offset, a word straddles exactly when `offset > 4`, and does not exactly when `[offset, offset+4)` fits in the block |
| DataCache.EmptyBlock | emu/cache.py:34-39 | a new block is invalid, clean, tag 0, with 8 zero bytes |
| DataCache.IsHit | emu/cache.py:60 | the hit test `block.valid and block.tag == caddr.tag` (also at emu/cache.py:103); a hit implies a valid block |
| DataCache.HitIsExclusive | emu/cache.py:60 | a block holds one tag, so two addresses a cache size apart cannot both hit |
| DataCache.Initial | emu/cache.py:51-53 | a new cache has 4 empty blocks, in front of the given memory, and satisfies the invariant |
| DataCache.CacheRead | emu/cache.py:55-92 | a read keeps 4 blocks of 8 bytes, each dirty only when valid; changes at most the block at the address's index; never changes main memory; returns 4 bytes or fails with OutOfBounds or StraddlingAccess |
| DataCache.CacheWrite | emu/cache.py:94-128 | a write keeps the same invariant, changes at most the block at the address's index, keeps memory's size, and fails only with WordSize, OutOfBounds or StraddlingAccess |
| DataCache.ReadHit | emu/cache.py:60-76 | a non-straddling hit returns `data[offset:offset+4]` and changes nothing |
| DataCache.ReadStraddlingHit | emu/cache.py:63-67 | a straddling hit fails with StraddlingAccess and changes nothing |
| DataCache.ReadMiss | emu/cache.py:78-92 | a miss makes the block valid, clean, with the new tag and the 8 bytes at `block_base(addr)` as its data, without writing back; it returns `data[offset:offset+4]`, or StraddlingAccess after the refill, or the memory's fault with the block already marked valid |
| DataCache.WriteWrongSize | emu/cache.py:97-98 | a word that is not 4 bytes fails before anything changes |
| DataCache.WriteHit | emu/cache.py:103-114 | a non-straddling hit marks the block dirty and replaces exactly bytes `[offset, offset+4)` with the word; other blocks and memory are unchanged |
| DataCache.WriteStraddlingHit | emu/cache.py:107-112 | a straddling hit fails with StraddlingAccess after marking the block dirty |
| DataCache.WriteMiss | emu/cache.py:115-128 | memory changes only if the old block was valid and dirty, and then at `block_base(addr)`; the block ends valid, clean, with the new tag and the refilled data with the word spliced in |
| DataCache.WriteMissFaults | emu/cache.py:115-127 | at an out-of-range block_base a miss with a dirty block fails before any change, and one without claims the block and then fails; a straddling miss fails after the eviction, with the block refilled, valid, clean and retagged |
| DataCache.ReadAfterWrite | emu/cache.py:55-128 | after a successful write, reading the same address returns the word written |
| DataCache.Cache.constructor | emu/cache.py:51-53 | the array holds 4 empty blocks and the snapshot is `Initial` of the memory |
| DataCache.Cache.Read | emu/cache.py:55-92 | the in-place read leaves the snapshot and returns the result that `CacheRead` gives, and keeps the invariant |
| DataCache.Cache.Write | emu/cache.py:94-128 | the in-place write leaves the snapshot and returns the result that `CacheWrite` gives, and keeps the invariant |
| CacheFixes.ReadAtOffsetFourReturnsWrongWord | emu/cache.py:26-92 | on a fresh cache over bytes 0..15, reading address 4 returns bytes 8..11 instead of 4..7 |
| CacheFixes.ReadMissLosesDirtyBlock | emu/cache.py:80-87 | read 0; write 1,2,3,4 at 0 (a hit, block dirty); read 32; read 0 returns zeros and memory never saw the write |
| CacheFixes.WriteBackGoesToNewAddress | emu/cache.py:117-119 | evicting the dirty block of address 0 on a write to 32 stores its bytes at 32, not at 0 |
| CacheFixes.WriteMissLeavesBlockClean | emu/cache.py:121-128 | after a write miss the block holds the word but is clean, so a later conflicting miss drops it |
| CacheFixes.FailedRefillLeavesBlockValid | emu/cache.py:81-87 | a read past memory faults, yet the block stays valid with the new tag, so repeating the read returns zeros |
| CacheFixes.View | emu/cache.py:1 | the memory seen through the cache has main memory's length and, at each address, the dirty block covering it or else main memory |
| CacheFixes.InitialCoherent | emu/cache.py:51-53 | a new cache is coherent with its memory and shows exactly that memory |
| CacheFixes.BlockStart | emu/cache.py:26-27 | the corrected mask `addr & ~offset_mask` gives the start of addr's block |
| CacheFixes.Flush | emu/cache.py:117-119 | writing back fails only with OutOfBounds and only for a valid dirty block; it keeps the blocks and memory's size, and does nothing to a clean or invalid block |
| CacheFixes.Refill | emu/cache.py:121-124 | loading a block succeeds exactly when its block start lies in memory, and then leaves memory alone and the address a hit; otherwise it faults with OutOfBounds and, being an `Err`, carries no new state |
| CacheFixes.FixedRead | emu/cache.py:55-92 | the corrected read keeps the invariant and memory's size, changes at most the address's block, and returns 4 bytes; `FixedReadIsTransparent` states its transparency |
| CacheFixes.FixedWrite | emu/cache.py:94-128 | the corrected write keeps the invariant and memory's size and changes at most the address's block; `FixedWriteIsTransparent` states its transparency |
| CacheFixes.PutWord | emu/cache.py:114 | putting a word into a resident block keeps the invariant, leaves memory and every other block alone, and marks the block dirty; `PutWordLemma` states what it does to the view |
| CacheFixes.FlushLemma | emu/cache.py:117-119 | writing a block back at its own address succeeds on a coherent cache and keeps it coherent, with the same view |
| CacheFixes.RefillLemma | emu/cache.py:121-124 | loading a block before installing it keeps the cache coherent and the view unchanged |
| CacheFixes.PutWordLemma | emu/cache.py:114-128 | writing a word into a resident block and marking it dirty changes the view exactly as storing the word into it would |
| CacheFixes.FixedReadIsTransparent | emu/cache.py:55-92 | the corrected read keeps the cache coherent and the view unchanged, returns `Load` of the view, and fails only with OutOfBounds or StraddlingAccess |
| CacheFixes.FixedWriteIsTransparent | emu/cache.py:94-128 | the corrected write keeps the cache coherent; on success the new view is `Store` of the word into the old view; on failure the view is unchanged |
| CacheFixes.FixedReadAfterWrite | emu/cache.py:55-128 | reading back a word just written by the corrected cache returns that word |
| Cpu.ReadReg | cpu.py:33 | reading a register succeeds exactly for a known name and gives its value, and otherwise UnknownRegister |
| Cpu.WriteReg | cpu.py:29 | writing succeeds exactly for a known name; it sets that register and keeps the name set and every other value |
| Cpu.ParseInt | cpu.py:28 | `int(text)`: whitespace, a sign, whitespace again, decimal digits, whitespace; its partner is `ParseIntRoundTrip` |
| Cpu.ParseIntRoundTrip | cpu.py:28 | the model of `int()` reads back every integer written in decimal |
| Cpu.BeforeOpen | cpu.py:45 | `split('(')[0]`: the longest prefix without '(', followed in the operand by '(' or the end |
| Cpu.SecondField | cpu.py:46 | `re.split('[()]', s)[1]`: missing exactly when s has no parenthesis, and otherwise free of parentheses; `EffectiveAddressOf` gives its value on `offs($reg)` |
| Cpu.DropFirst | cpu.py:46 | `text[1:]`: the text without its first character, or the empty text unchanged |
| Cpu.EffectiveAddress | cpu.py:45-53 | resolving `offs(rs)` fails only with BadOperand or UnknownRegister |
| Cpu.EffectiveAddressOf | cpu.py:45-53 | for operand `offs($reg)` the address is `int(offs) + reg`, an unparsable offs is BadOperand, and an unknown reg is UnknownRegister |
| Cpu.Pack | cpu.py:54 | `pack('<I', v)` succeeds exactly for `0 <= v < 2^32` and then gives 4 bytes; otherwise PackRange |
| Cpu.Unpack | cpu.py:47 | `unpack('<I', b)` of 4 bytes lies in [0, 2^32) |
| Cpu.UnpackPack | cpu.py:47-54 | unpacking a packed 32-bit value gives the value back |
| Cpu.PackUnpack | cpu.py:47-54 | packing an unpacked word gives the same 4 bytes |
| Cpu.Put | cpu.py:29 | `self.r.write(rd, v)` goes on exactly for a known rd, setting only rd to v; otherwise UnknownRegister with nothing changed |
| Cpu.ExecLi | cpu.py:25-29 | li fails only with BadOperand or UnknownRegister and then changes nothing; it never exits and touches only registers |
| Cpu.ExecAdd | cpu.py:30-35 | add: the same closure of faults and frame |
| Cpu.ExecAddi | cpu.py:36-41 | addi: the same closure of faults and frame |
| Cpu.ExecLw | cpu.py:42-48 | lw fails only with BadOperand, UnknownRegister or OutOfBounds and then changes nothing; it touches only registers |
| Cpu.ExecSw | cpu.py:49-54 | sw fails only with BadOperand, UnknownRegister, PackRange or OutOfBounds and then changes nothing; it never changes a register |
| Cpu.ExecMove | cpu.py:55-57 | move: the same closure of faults and frame as li |
| Cpu.ExecSlt | cpu.py:58-61 | slt: the same closure of faults and frame, and on success rd holds 0 or 1 |
| Cpu.ExecSyscall | cpu.py:62-80 | a syscall fails only with UnknownRegister, InputNotInteger or BadSyscall, changing nothing but the input; exit changes nothing; memory is never touched and the output only grows |
| Cpu.Execute | cpu.py:24-83 | no instruction moves pc, adds or removes a register, or resizes memory, and the output only grows |
| Cpu.LiSemantics | cpu.py:25-29 | `li rd, imm` sets rd to imm and changes nothing else |
| Cpu.MoveSemantics | cpu.py:55-57 | `move rd, rs` copies rs into rd and changes nothing else |
| Cpu.AddSemantics | cpu.py:30-35 | `add rd, rs, rt` sets rd to rs + rt and changes nothing else |
| Cpu.AddiSemantics | cpu.py:36-41 | `addi rd, rs, imm` sets rd to rs + imm and changes nothing else |
| Cpu.SltSemantics | cpu.py:58-61 | `slt` changes only rd, to 1 exactly when rs < rt and to 0 exactly when not |
| Cpu.UnknownMnemonic | cpu.py:82-83 | any other mnemonic fails with BadInstruction and changes nothing |
| Cpu.FaultChangesOnlyInput | cpu.py:24-83 | a failing instruction changes nothing except possibly the unread input |
| Cpu.OnlyStoreWritesMemory | cpu.py:24-83 | only `sw` changes memory |
| Cpu.ExitIff | cpu.py:62-68 | an instruction exits exactly when it is `syscall` with v0 = 10, and exiting changes nothing |
| Cpu.PrintIntSemantics | cpu.py:69-71 | syscall 1 appends a0 to the output |
| Cpu.ReadIntSemantics | cpu.py:72-78 | syscall 5 uses up one input line and puts its integer in v0; a missing or non-integer line is InputNotInteger |
| Cpu.BadSyscallId | cpu.py:79-80 | a v0 outside {1, 5, 10} fails with BadSyscall and changes nothing |
| Cpu.LwSemantics | cpu.py:42-48 | `lw rd, op` sets rd to the little-endian word at the effective address; a bad operand, an unknown register or an address outside memory fails with nothing changed |
| Cpu.SwSemantics | cpu.py:49-54 | `sw rs, op` stores rs as a little-endian word at the effective address; a bad operand, an unknown register, a value outside [0, 2^32) or an address outside memory fails with nothing changed |
| Cpu.StoreThenLoad | cpu.py:42-54 | after a successful `sw rs, op`, `lw rd, op` sets rd to the stored value |
| Cpu.StoreOutOfRange | cpu.py:54 | `sw` of a value outside [0, 2^32) fails with PackRange and leaves memory unchanged |
| Cpu.RunOutOfRange | cpu.py:13-22 | a pc outside the program ends the run normally at once, with nothing changed |
| Cpu.Run | cpu.py:12-22 | `start`: step while pc indexes an instruction; stated by `RunOutOfRange`, `RunContinues`, `RunStops` and `RunEnds` |
| Cpu.RunContinues | cpu.py:16-21 | an instruction that goes on hands the run to the next pc |
| Cpu.RunStops | cpu.py:15-20 | an exiting instruction ends the run there with pc not advanced; any other failure ends it as `Failed` with that fault |
| Cpu.RunEnds | cpu.py:12-22 | a run keeps the register names. On exit, pc is on a `syscall` with v0 = 10 that exits from the final state. On a failure, pc is on an instruction that fails that way into the final state. A normal end leaves pc at the program's length unless pc started outside |
| Cpu.RunOutputGrows | cpu.py:12-22 | a run only appends to the output |
| Cpu.StoreLoadProgram | cpu.py:12-54 | `li t0, 42; sw t0, 0($sp); lw t1, 0($sp)` ends normally at pc 3 with t1 = 42 |
| Cpu.CPU.constructor | cpu.py:8-10 | a new CPU has every register at 0, pc 0, the given memory and no output |
| Cpu.CPU.WriteRegister | cpu.py:29 | the in-place register write performs `Put` |
| Cpu.CPU.Syscall | cpu.py:62-80 | the in-place syscall leaves the state and outcome that `ExecSyscall` gives |
| Cpu.CPU.Load | cpu.py:42-48 | the in-place `lw` leaves the state and outcome that `ExecLw` gives |
| Cpu.CPU.Store | cpu.py:49-54 | the in-place `sw` leaves the state and outcome that `ExecSw` gives |
| Cpu.CPU.ExecuteSingle | cpu.py:24-83 | the in-place step leaves the state and outcome that `Execute` gives |
| Cpu.CPU.Start | cpu.py:12-22 | the fetch loop leaves the state and halt reason that `Run` gives |

## Left out

- `Cache.dump`, `CPU.dump` and every `print` (the hit message, the banners) are display only. `print_int` is modelled as an append to `output`.
- `spym.py` is not part of this model. It holds the command line, file loading and the interactive loop.
- `raw_input` is not modelled as I/O. The input lines are a sequence held by the machine, and syscall 5 consumes the first one. Running out of lines is the same InputNotInteger failure that `EOFError` becomes in the source.
- `registers.py` is not part of this model. Registers are a map from a name set given to the constructor, with no 32-bit wrap-around. Reading or writing an unknown name is UnknownRegister.
- `memory.py` is not part of this model. Main memory is a byte sequence whose `read(addr, n)` and `write(addr, bytes)` fail with OutOfBounds outside its range. The cache and the CPU use this same interface.
- The cache's blocks are records that an access replaces as a whole in the array. The source mutates the fields of a shared `Block` object and assigns into its `bytearray` slice. Nothing else holds a reference to a block, so the effect is the same.
- The unreachable code after `raise NotImplementedError` in a straddling read hit (emu/cache.py:68-73) is not modelled.
- The CPU is modelled over plain memory, not over the cache. The cache's `read(addr)` takes no length, so it cannot stand behind `cpu.py:47`.
- Python's `int()` is modelled for ASCII decimal text: surrounding whitespace, an optional sign followed by optional whitespace, and digits. Other bases and non-ASCII digits are left out.

- CacheFixes.FixedReadIsTransparent and CacheFixes.FixedWriteIsTransparent: they do not promise that an access succeeds whenever `Load` or `Store` on `View` would. The corrected cache still refuses straddling words, and it fails on blocks that run past the end of memory.

## Findings

| source | as written | input that shows it | evidently intended | confidence | as-written member | corrected member |
|---|---|---|---|---|---|---|
| emu/cache.py:27 | `addr & ~offset_len` clears bits 0-1 only | read address 4 on a fresh cache over bytes 0..15: returns bytes 8..11 | `addr & ~offset_mask`, the block start | high, not executed | CacheFixes.ReadAtOffsetFourReturnsWrongWord | CacheFixes.BlockStart |
| emu/cache.py:80-87 | a read miss replaces a dirty block without writing it back | read 0; write 1,2,3,4 at 0 (a hit, block dirty); read 32; read 0 returns 0,0,0,0 | write the dirty block back before the refill | high, not executed | CacheFixes.ReadMissLosesDirtyBlock | CacheFixes.FixedReadIsTransparent |
| emu/cache.py:119 | the evicted block is written at `block_base` of the new address | read 0, write W at 0, write at 32: W lands at 32, 0 stays zero | write back at the old tag's block address | high, not executed | CacheFixes.WriteBackGoesToNewAddress | CacheFixes.FlushLemma |
| emu/cache.py:122,128 | after a write miss the block holds the word but is clean | write W at 0 on a fresh cache, then write at 32: memory never receives W | mark the block dirty after splicing in the word | high, not executed | CacheFixes.WriteMissLeavesBlockClean | CacheFixes.FixedWriteIsTransparent |
| emu/cache.py:81-87 | the block is marked valid with the new tag before the refill, which may fail | memory 0..15 zero, read 64 faults, reading 64 again returns 0,0,0,0 | install the block only after the refill succeeds | medium, not executed | CacheFixes.FailedRefillLeavesBlockValid | CacheFixes.RefillLemma |
