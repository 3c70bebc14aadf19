/** Types shared by the memory, the data cache and the CPU. */
module Common {

  /** One byte of main memory or of a cache block. */
  type Byte = b: int | 0 <= b < 256

  datatype Option<T> = None | Some(value: T)

  /** Every way an access or an instruction can fail. */
  datatype Fault =
    | OutOfBounds        // a main-memory access outside [0, capacity)
    | StraddlingAccess   // NotImplementedError: a word that crosses a cache block boundary
    | WordSize           // AssertionError: a cache write not given exactly one word
    | UnknownRegister    // a register name the register file does not hold
    | BadOperand         // a missing operand, or one whose text does not parse
    | PackRange          // struct.error: a store of a value outside [0, 2^32)
    | BadSyscall         // 'bad syscall id'
    | InputNotInteger    // 'input not integer'
    | BadInstruction     // 'bad instruction'

  datatype Result<T> = Ok(value: T) | Err(fault: Fault)

  /** `s` with `w` written over positions [at, at + |w|), as a slice assignment does. */
  function Splice<T>(s: seq<T>, at: int, w: seq<T>): (r: seq<T>)
    requires 0 <= at && at + |w| <= |s|
    ensures |r| == |s|
    ensures forall k | 0 <= k < |s| :: r[k] == if at <= k < at + |w| then w[k - at] else s[k]
  {
    s[..at] + w + s[at + |w|..]
  }
}
