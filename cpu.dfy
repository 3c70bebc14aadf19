/**
 * The instruction executor: one step per instruction over the register file, the
 * program counter and main memory, and the fetch loop that drives it.
 *
 * Execute and Run specify a step and a whole run as functions on a Machine snapshot;
 * the CPU class performs them in place (ExecuteSingle, Start), with postconditions that
 * tie the new snapshot and the outcome to those functions.
 */
module Cpu {
  import opened Common
  import opened MainMemory
  import opened Bits

  datatype Instruction = Instruction(name: string, ops: seq<string>)

  /** What one instruction ends with: go on, the exit syscall, or a raised error. */
  datatype Outcome = Continue | Exit | Fault(fault: Fault)

  /** How a run of `start` ends. */
  datatype Halt = Exited | RanOffEnd | Failed(fault: Fault)

  /**
   * Everything an instruction can read or change: the registers by name, the program
   * counter, main memory, the input lines still to be read and the integers printed.
   */
  datatype Machine = Machine(regs: map<string, int>, pc: int, mem: seq<Byte>, input: seq<string>, output: seq<int>)

  datatype Step = Step(next: Machine, outcome: Outcome)

  datatype Final = Final(machine: Machine, halt: Halt)

  // ---------------------------------------------------------------- register file

  function ReadReg(regs: map<string, int>, name: string): (r: Result<int>)
    ensures r.Ok? <==> name in regs
    ensures r.Ok? ==> r.value == regs[name]
    ensures r.Err? ==> r.fault == UnknownRegister
  {
    if name in regs then Ok(regs[name]) else Err(UnknownRegister)
  }

  function WriteReg(regs: map<string, int>, name: string, v: int): (r: Result<map<string, int>>)
    ensures r.Ok? <==> name in regs
    ensures r.Err? ==> r.fault == UnknownRegister
    ensures r.Ok? ==> r.value.Keys == regs.Keys && r.value[name] == v
    ensures r.Ok? ==> forall n | n in regs && n != name :: r.value[n] == regs[n]
  {
    if name in regs then Ok(regs[name := v]) else Err(UnknownRegister)
  }

  // ---------------------------------------------------------------- int(text)

  predicate IsSpace(c: char) {
    c == ' ' || c == '\t' || c == '\n' || c == '\r' || c == '\U{000B}' || c == '\U{000C}'
  }

  predicate IsDigit(c: char) {
    '0' <= c <= '9'
  }

  predicate AllDigits(d: string) {
    forall i | 0 <= i < |d| :: IsDigit(d[i])
  }

  function TrimLeft(s: string): string {
    if |s| > 0 && IsSpace(s[0]) then TrimLeft(s[1..]) else s
  }

  function TrimRight(s: string): string {
    if |s| > 0 && IsSpace(s[|s| - 1]) then TrimRight(s[..|s| - 1]) else s
  }

  /** The value of a string of decimal digits, most significant first. */
  function DigitsValue(d: string): nat
    requires AllDigits(d)
  {
    if d == [] then 0 else 10 * DigitsValue(d[..|d| - 1]) + (d[|d| - 1] as int - '0' as int)
  }

  function ParseDigits(d: string): Option<int> {
    if |d| > 0 && AllDigits(d) then Some(DigitsValue(d)) else None
  }

  /**
   * `int(text)`: surrounding whitespace, an optional sign, more whitespace, and one or more
   * decimal digits (whitespace after the sign is skipped again, so `int('- 5')` is -5).
   */
  function ParseInt(text: string): Option<int> {
    var t := TrimRight(TrimLeft(text));
    if |t| > 0 && t[0] == '-' then
      match ParseDigits(TrimLeft(t[1..]))
      case None => None
      case Some(n) => Some(-n)
    else if |t| > 0 && t[0] == '+' then
      match ParseDigits(TrimLeft(t[1..]))
      case None => None
      case Some(n) => Some(n)
    else ParseDigits(t)
  }

  function DigitChar(d: nat): (c: char)
    requires d < 10
    ensures IsDigit(c) && c as int - '0' as int == d
  {
    ('0' as int + d) as char
  }

  /** The decimal digits of `n`, without leading zeros. */
  function NatToDigits(n: nat): string {
    if n < 10 then [DigitChar(n)] else NatToDigits(n / 10) + [DigitChar(n % 10)]
  }

  /** `str(n)`. */
  function IntToString(n: int): string {
    if n < 0 then "-" + NatToDigits(-n) else NatToDigits(n)
  }

  lemma {:induction false} DigitsRoundTrip(n: nat)
    ensures |NatToDigits(n)| > 0 && AllDigits(NatToDigits(n))
    ensures DigitsValue(NatToDigits(n)) == n
  {
    if n >= 10 {
      DigitsRoundTrip(n / 10);
      var t := NatToDigits(n);
      assert t[..|t| - 1] == NatToDigits(n / 10);
    }
  }

  /** int(str(n)) == n. */
  lemma ParseIntRoundTrip(n: int)
    ensures ParseInt(IntToString(n)) == Some(n)
  {
    var m: nat := if n < 0 then -n else n;
    DigitsRoundTrip(m);
    var s := IntToString(n);
    assert TrimLeft(s) == s;
    assert TrimRight(s) == s;
    if n < 0 {
      assert s[1..] == NatToDigits(m);
      assert TrimLeft(s[1..]) == s[1..];
    }
  }

  // ---------------------------------------------------------------- operands offs($reg)

  function IndexOfOpen(s: string): (r: Option<nat>)
    ensures r.None? ==> forall i | 0 <= i < |s| :: s[i] != '('
    ensures r.Some? ==> r.value < |s| && s[r.value] == '(' && forall i | 0 <= i < r.value :: s[i] != '('
  {
    if s == [] then None
    else if s[0] == '(' then Some(0)
    else match IndexOfOpen(s[1..])
      case None => None
      case Some(i) => Some(i + 1)
  }

  predicate IsParen(c: char) {
    c == '(' || c == ')'
  }

  function IndexOfParen(s: string): (r: Option<nat>)
    ensures r.None? ==> forall i | 0 <= i < |s| :: !IsParen(s[i])
    ensures r.Some? ==> r.value < |s| && IsParen(s[r.value]) && forall i | 0 <= i < r.value :: !IsParen(s[i])
  {
    if s == [] then None
    else if IsParen(s[0]) then Some(0)
    else match IndexOfParen(s[1..])
      case None => None
      case Some(i) => Some(i + 1)
  }

  /** `operand.split('(')[0]`. */
  function BeforeOpen(s: string): (r: string)
    ensures r <= s && forall i | 0 <= i < |r| :: r[i] != '('
    ensures |r| < |s| ==> s[|r|] == '('
  {
    match IndexOfOpen(s)
    case None => s
    case Some(i) => s[..i]
  }

  /** `re.split('[()]', operand)[1]`, or None where that list has one element (IndexError). */
  function SecondField(s: string): (r: Option<string>)
    ensures r.None? <==> forall i | 0 <= i < |s| :: !IsParen(s[i])
    ensures r.Some? ==> forall i | 0 <= i < |r.value| :: !IsParen(r.value[i])
  {
    match IndexOfParen(s)
    case None => None
    case Some(i) =>
      var rest := s[i + 1..];
      match IndexOfParen(rest)
      case None => Some(rest)
      case Some(j) => Some(rest[..j])
  }

  /** `text[1:]`. */
  function DropFirst(s: string): (r: string)
    ensures |s| > 0 ==> [s[0]] + r == s
    ensures |s| == 0 ==> r == s
  {
    if |s| == 0 then s else s[1..]
  }

  /** The address `offs(rs)` names: int of the text before '(' plus the register inside, its first character dropped. */
  function EffectiveAddress(regs: map<string, int>, operand: string): (r: Result<int>)
    ensures r.Err? ==> r.fault in {BadOperand, UnknownRegister}
  {
    match ParseInt(BeforeOpen(operand))
    case None => Err(BadOperand)
    case Some(offs) =>
      match SecondField(operand)
      case None => Err(BadOperand)
      case Some(field) =>
        match ReadReg(regs, DropFirst(field))
        case Err(f) => Err(f)
        case Ok(base) => Ok(base + offs)
  }

  /** For an operand written `offs($reg)`, the address is int(offs) plus the value of reg. */
  lemma EffectiveAddressOf(regs: map<string, int>, offs: string, reg: string)
    requires forall i | 0 <= i < |offs| :: !IsParen(offs[i])
    requires forall i | 0 <= i < |reg| :: !IsParen(reg[i])
    ensures EffectiveAddress(regs, offs + "($" + reg + ")") ==
      match ParseInt(offs)
      case None => Err(BadOperand)
      case Some(n) => if reg in regs then Ok(regs[reg] + n) else Err(UnknownRegister)
  {
    var s := offs + "($" + reg + ")";
    assert s[|offs|] == '(';
    assert IndexOfOpen(s) == Some(|offs|);
    assert BeforeOpen(s) == offs;
    assert IndexOfParen(s) == Some(|offs|);
    var rest := s[|offs| + 1..];
    assert rest == "$" + reg + ")";
    assert rest[|reg| + 1] == ')';
    assert IndexOfParen(rest) == Some(|reg| + 1);
    assert rest[..|reg| + 1] == "$" + reg;
    assert SecondField(s) == Some("$" + reg);
    assert DropFirst("$" + reg) == reg;
  }

  // ---------------------------------------------------------------- '<I' words

  const WordRange: int := 0x1_0000_0000

  /** `struct.pack('<I', v)`: four bytes, least significant first; struct.error outside [0, 2^32). */
  function Pack(v: int): (r: Result<seq<Byte>>)
    ensures r.Ok? <==> 0 <= v < WordRange
    ensures r.Err? ==> r.fault == PackRange
    ensures r.Ok? ==> |r.value| == 4
  {
    if 0 <= v < WordRange then Ok([v % 256, (v / 256) % 256, (v / 65536) % 256, v / 16777216])
    else Err(PackRange)
  }

  /** `struct.unpack('<I', b)[0]`. */
  function Unpack(b: seq<Byte>): (v: int)
    requires |b| == 4
    ensures 0 <= v < WordRange
  {
    b[0] as int + 256 * (b[1] as int) + 65536 * (b[2] as int) + 16777216 * (b[3] as int)
  }

  lemma UnpackPack(v: int)
    requires 0 <= v < WordRange
    ensures Unpack(Pack(v).value) == v
  {
    var b0, q1 := v % 256, v / 256;
    var b1, q2 := q1 % 256, q1 / 256;
    var b2, b3 := q2 % 256, q2 / 256;
    assert v == 256 * q1 + b0 && q1 == 256 * q2 + b1 && q2 == 256 * b3 + b2;
    assert v == 65536 * q2 + (b0 + 256 * b1);
    DivModUnique(v, 65536, q2, b0 + 256 * b1);
    assert v == 16777216 * b3 + (b0 + 256 * b1 + 65536 * b2);
    DivModUnique(v, 16777216, b3, b0 + 256 * b1 + 65536 * b2);
    assert Pack(v).value == [b0, b1, b2, b3];
  }

  lemma PackUnpack(b: seq<Byte>)
    requires |b| == 4
    ensures Pack(Unpack(b)) == Ok(b)
  {
    var v := Unpack(b);
    var b0, b1, b2, b3 := b[0] as int, b[1] as int, b[2] as int, b[3] as int;
    DivModUnique(v, 256, b1 + 256 * b2 + 65536 * b3, b0);
    DivModUnique(v / 256, 256, b2 + 256 * b3, b1);
    DivModUnique(v, 65536, b2 + 256 * b3, b0 + 256 * b1);
    DivModUnique(v / 65536, 256, b3, b2);
    DivModUnique(v, 16777216, b3, b0 + 256 * b1 + 65536 * b2);
    assert Pack(v).value == [b0, b1, b2, b3];
    assert b == [b[0], b[1], b[2], b[3]];
  }

  // ---------------------------------------------------------------- one instruction

  function Fail(s: Machine, f: Fault): Step {
    Step(s, Fault(f))
  }

  /** `self.r.write(rd, v)`, then go on. */
  function Put(s: Machine, rd: string, v: int): (r: Step)
    ensures r.outcome == Continue <==> rd in s.regs
    ensures r.outcome != Continue ==> r == Fail(s, UnknownRegister)
    ensures r.outcome == Continue ==> r.next == s.(regs := r.next.regs) && r.next.regs == s.regs[rd := v]
  {
    match WriteReg(s.regs, rd, v)
    case Err(f) => Fail(s, f)
    case Ok(regs) => Step(s.(regs := regs), Continue)
  }

  /** li rd, imm */
  function ExecLi(s: Machine, ops: seq<string>): (r: Step)
    ensures r.outcome.Fault? ==> r.next == s && r.outcome.fault in {BadOperand, UnknownRegister}
    ensures r.outcome != Exit && r.next.mem == s.mem && r.next.input == s.input && r.next.output == s.output
  {
    if |ops| < 2 then Fail(s, BadOperand)
    else match ParseInt(ops[1])
      case None => Fail(s, BadOperand)
      case Some(imm) => Put(s, ops[0], imm)
  }

  /** add rd, rs, rt (also slt's operand order: rs, then rt, then rd). */
  function ExecAdd(s: Machine, ops: seq<string>): (r: Step)
    ensures r.outcome.Fault? ==> r.next == s && r.outcome.fault in {BadOperand, UnknownRegister}
    ensures r.outcome != Exit && r.next.mem == s.mem && r.next.input == s.input && r.next.output == s.output
  {
    if |ops| < 2 then Fail(s, BadOperand)
    else match ReadReg(s.regs, ops[1])
      case Err(f) => Fail(s, f)
      case Ok(a) =>
        if |ops| < 3 then Fail(s, BadOperand)
        else match ReadReg(s.regs, ops[2])
          case Err(f) => Fail(s, f)
          case Ok(b) => Put(s, ops[0], a + b)
  }

  /** addi rd, rs, imm */
  function ExecAddi(s: Machine, ops: seq<string>): (r: Step)
    ensures r.outcome.Fault? ==> r.next == s && r.outcome.fault in {BadOperand, UnknownRegister}
    ensures r.outcome != Exit && r.next.mem == s.mem && r.next.input == s.input && r.next.output == s.output
  {
    if |ops| < 2 then Fail(s, BadOperand)
    else match ReadReg(s.regs, ops[1])
      case Err(f) => Fail(s, f)
      case Ok(a) =>
        if |ops| < 3 then Fail(s, BadOperand)
        else match ParseInt(ops[2])
          case None => Fail(s, BadOperand)
          case Some(imm) => Put(s, ops[0], a + imm)
  }

  /** lw rt, offs(rs) */
  function ExecLw(s: Machine, ops: seq<string>): (r: Step)
    ensures r.outcome.Fault? ==> r.next == s && r.outcome.fault in {BadOperand, UnknownRegister, OutOfBounds}
    ensures r.outcome != Exit && r.next.mem == s.mem && r.next.input == s.input && r.next.output == s.output
  {
    if |ops| < 2 then Fail(s, BadOperand)
    else match EffectiveAddress(s.regs, ops[1])
      case Err(f) => Fail(s, f)
      case Ok(addr) =>
        match Load(s.mem, addr, 4)
        case Err(f) => Fail(s, f)
        case Ok(bytes) => Put(s, ops[0], Unpack(bytes))
  }

  /** sw rt, offs(rs) */
  function ExecSw(s: Machine, ops: seq<string>): (r: Step)
    ensures r.outcome.Fault? ==> r.next == s && r.outcome.fault in {BadOperand, UnknownRegister, PackRange, OutOfBounds}
    ensures r.outcome != Exit && r.next.regs == s.regs && r.next.input == s.input && r.next.output == s.output
  {
    if |ops| < 1 then Fail(s, BadOperand)
    else match ReadReg(s.regs, ops[0])
      case Err(f) => Fail(s, f)
      case Ok(v) =>
        if |ops| < 2 then Fail(s, BadOperand)
        else match EffectiveAddress(s.regs, ops[1])
          case Err(f) => Fail(s, f)
          case Ok(addr) =>
            match Pack(v)
            case Err(f) => Fail(s, f)
            case Ok(word) =>
              match Store(s.mem, addr, word)
              case Err(f) => Fail(s, f)
              case Ok(mem') => Step(s.(mem := mem'), Continue)
  }

  /** move rd, rs */
  function ExecMove(s: Machine, ops: seq<string>): (r: Step)
    ensures r.outcome.Fault? ==> r.next == s && r.outcome.fault in {BadOperand, UnknownRegister}
    ensures r.outcome != Exit && r.next.mem == s.mem && r.next.input == s.input && r.next.output == s.output
  {
    if |ops| < 2 then Fail(s, BadOperand)
    else match ReadReg(s.regs, ops[1])
      case Err(f) => Fail(s, f)
      case Ok(v) => Put(s, ops[0], v)
  }

  /** slt rd, rs, rt */
  function ExecSlt(s: Machine, ops: seq<string>): (r: Step)
    ensures r.outcome.Fault? ==> r.next == s && r.outcome.fault in {BadOperand, UnknownRegister}
    ensures r.outcome != Exit && r.next.mem == s.mem && r.next.input == s.input && r.next.output == s.output
    ensures r.outcome == Continue ==> |ops| >= 3 && ops[0] in r.next.regs && r.next.regs[ops[0]] in {0, 1}
  {
    if |ops| < 2 then Fail(s, BadOperand)
    else match ReadReg(s.regs, ops[1])
      case Err(f) => Fail(s, f)
      case Ok(a) =>
        if |ops| < 3 then Fail(s, BadOperand)
        else match ReadReg(s.regs, ops[2])
          case Err(f) => Fail(s, f)
          case Ok(b) => Put(s, ops[0], if a < b then 1 else 0)
  }

  /** syscall: 10 exits, 1 prints a0, 5 reads an integer line into v0. */
  function ExecSyscall(s: Machine): (r: Step)
    ensures r.outcome.Fault? ==>
      r.next == s.(input := r.next.input) && r.outcome.fault in {UnknownRegister, InputNotInteger, BadSyscall}
    ensures r.outcome == Exit ==> r.next == s
    ensures r.next.mem == s.mem && s.output <= r.next.output
  {
    match ReadReg(s.regs, "v0")
    case Err(f) => Fail(s, f)
    case Ok(id) =>
      if id == 10 then Step(s, Exit)
      else if id == 1 then
        match ReadReg(s.regs, "a0")
        case Err(f) => Fail(s, f)
        case Ok(v) => Step(s.(output := s.output + [v]), Continue)
      else if id == 5 then
        if |s.input| == 0 then Fail(s, InputNotInteger)
        else
          var s' := s.(input := s.input[1..]);
          match ParseInt(s.input[0])
          case None => Fail(s', InputNotInteger)
          case Some(n) =>
            match WriteReg(s'.regs, "v0", n)
            case Err(_) => Fail(s', InputNotInteger)
            case Ok(regs) => Step(s'.(regs := regs), Continue)
      else Fail(s, BadSyscall)
  }

  /** `execute_single(instr)`: never moves pc, never adds or drops a register, never resizes memory. */
  function Execute(s: Machine, instr: Instruction): (r: Step)
    ensures r.next.pc == s.pc
    ensures r.next.regs.Keys == s.regs.Keys
    ensures |r.next.mem| == |s.mem|
    ensures s.output <= r.next.output
  {
    var ops := instr.ops;
    if instr.name == "li" then ExecLi(s, ops)
    else if instr.name == "add" then ExecAdd(s, ops)
    else if instr.name == "addi" then ExecAddi(s, ops)
    else if instr.name == "lw" then ExecLw(s, ops)
    else if instr.name == "sw" then ExecSw(s, ops)
    else if instr.name == "move" then ExecMove(s, ops)
    else if instr.name == "slt" then ExecSlt(s, ops)
    else if instr.name == "syscall" then ExecSyscall(s)
    else Fail(s, BadInstruction)
  }

  // ---------------------------------------------------------------- the fetch loop

  /** `start(instr_mem)`: step while pc indexes an instruction, adding 1 after each that goes on. */
  function Run(s: Machine, prog: seq<Instruction>): Final
    decreases |prog| - s.pc
  {
    if 0 <= s.pc < |prog| then
      var st := Execute(s, prog[s.pc]);
      match st.outcome
      case Continue => Run(st.next.(pc := s.pc + 1), prog)
      case Exit => Final(st.next, Exited)
      case Fault(f) => Final(st.next, Failed(f))
    else Final(s, RanOffEnd)
  }

  // ---------------------------------------------------------------- instruction properties

  /** li sets rd to the integer its text denotes; nothing else changes. */
  lemma LiSemantics(s: Machine, rd: string, imm: int)
    requires rd in s.regs
    ensures Execute(s, Instruction("li", [rd, IntToString(imm)])) == Step(s.(regs := s.regs[rd := imm]), Continue)
  {
    ParseIntRoundTrip(imm);
  }

  /** move copies rs into rd; nothing else changes. */
  lemma MoveSemantics(s: Machine, rd: string, rs: string)
    requires rd in s.regs && rs in s.regs
    ensures Execute(s, Instruction("move", [rd, rs])) == Step(s.(regs := s.regs[rd := s.regs[rs]]), Continue)
  {
  }

  /** add sets rd to the sum of rs and rt; nothing else changes. */
  lemma AddSemantics(s: Machine, rd: string, rs: string, rt: string)
    requires rd in s.regs && rs in s.regs && rt in s.regs
    ensures Execute(s, Instruction("add", [rd, rs, rt])) ==
      Step(s.(regs := s.regs[rd := s.regs[rs] + s.regs[rt]]), Continue)
  {
  }

  /** addi sets rd to rs plus the immediate; nothing else changes. */
  lemma AddiSemantics(s: Machine, rd: string, rs: string, imm: int)
    requires rd in s.regs && rs in s.regs
    ensures Execute(s, Instruction("addi", [rd, rs, IntToString(imm)])) ==
      Step(s.(regs := s.regs[rd := s.regs[rs] + imm]), Continue)
  {
    ParseIntRoundTrip(imm);
  }

  /** slt sets rd to 1 when rs < rt and to 0 otherwise. */
  lemma SltSemantics(s: Machine, rd: string, rs: string, rt: string)
    requires rd in s.regs && rs in s.regs && rt in s.regs
    ensures var r := Execute(s, Instruction("slt", [rd, rs, rt]));
      && r.outcome == Continue
      && r.next == s.(regs := r.next.regs)
      && r.next.regs == s.regs[rd := r.next.regs[rd]]
      && (r.next.regs[rd] == 1 <==> s.regs[rs] < s.regs[rt])
      && (r.next.regs[rd] == 0 <==> s.regs[rs] >= s.regs[rt])
  {
  }

  /** Any mnemonic outside the eight fails and changes nothing. */
  lemma UnknownMnemonic(s: Machine, instr: Instruction)
    requires instr.name !in {"li", "add", "addi", "lw", "sw", "move", "slt", "syscall"}
    ensures Execute(s, instr) == Fail(s, BadInstruction)
  {
  }

  /** A failing instruction changes nothing, except that read_int has used up its input line. */
  lemma FaultChangesOnlyInput(s: Machine, instr: Instruction)
    requires Execute(s, instr).outcome.Fault?
    ensures Execute(s, instr).next == s.(input := Execute(s, instr).next.input)
  {
  }

  /** Only sw writes memory. */
  lemma OnlyStoreWritesMemory(s: Machine, instr: Instruction)
    requires instr.name != "sw"
    ensures Execute(s, instr).next.mem == s.mem
  {
  }

  /** An instruction exits exactly when it is a syscall with v0 = 10, and then nothing changes. */
  lemma ExitIff(s: Machine, instr: Instruction)
    ensures Execute(s, instr).outcome == Exit <==>
      instr.name == "syscall" && "v0" in s.regs && s.regs["v0"] == 10
    ensures Execute(s, instr).outcome == Exit ==> Execute(s, instr).next == s
  {
  }

  /** print_int appends a0 to the output. */
  lemma PrintIntSemantics(s: Machine)
    requires "v0" in s.regs && s.regs["v0"] == 1 && "a0" in s.regs
    ensures Execute(s, Instruction("syscall", [])) == Step(s.(output := s.output + [s.regs["a0"]]), Continue)
  {
  }

  /** read_int uses up one input line and stores its integer in v0, or fails when it has none. */
  lemma ReadIntSemantics(s: Machine)
    requires "v0" in s.regs && s.regs["v0"] == 5
    ensures var r := Execute(s, Instruction("syscall", []));
      && (|s.input| == 0 ==> r == Fail(s, InputNotInteger))
      && (|s.input| > 0 && ParseInt(s.input[0]).None? ==> r == Fail(s.(input := s.input[1..]), InputNotInteger))
      && (|s.input| > 0 && ParseInt(s.input[0]).Some? ==>
            r == Step(s.(input := s.input[1..], regs := s.regs["v0" := ParseInt(s.input[0]).value]), Continue))
  {
  }

  /** A syscall id other than 1, 5 and 10 fails and changes nothing. */
  lemma BadSyscallId(s: Machine)
    requires "v0" in s.regs && s.regs["v0"] !in {1, 5, 10}
    ensures Execute(s, Instruction("syscall", [])) == Fail(s, BadSyscall)
  {
  }

  /**
   * lw rd, offs(rs) sets rd to the little-endian word at the effective address; a bad
   * operand, an unknown register or an address outside memory fails with nothing changed.
   */
  lemma LwSemantics(s: Machine, rd: string, operand: string)
    requires rd in s.regs
    ensures var st := Execute(s, Instruction("lw", [rd, operand]));
      var a := EffectiveAddress(s.regs, operand);
      && (a.Err? ==> st == Fail(s, a.fault))
      && (a.Ok? && !InBounds(|s.mem|, a.value, 4) ==> st == Fail(s, OutOfBounds))
      && (a.Ok? && InBounds(|s.mem|, a.value, 4) ==>
            st == Step(s.(regs := s.regs[rd := Unpack(s.mem[a.value..a.value + 4])]), Continue))
  {
  }

  /**
   * sw rs, offs(rd) stores rs as a little-endian word at the effective address, registers
   * unchanged; a bad operand, an unknown register, a value outside [0, 2^32) or an address
   * outside memory fails with nothing changed.
   */
  lemma SwSemantics(s: Machine, rs: string, operand: string)
    requires rs in s.regs
    ensures var st := Execute(s, Instruction("sw", [rs, operand]));
      var v := s.regs[rs];
      var a := EffectiveAddress(s.regs, operand);
      && (a.Err? ==> st == Fail(s, a.fault))
      && (a.Ok? && !(0 <= v < WordRange) ==> st == Fail(s, PackRange))
      && (a.Ok? && 0 <= v < WordRange && !InBounds(|s.mem|, a.value, 4) ==> st == Fail(s, OutOfBounds))
      && (a.Ok? && 0 <= v < WordRange && InBounds(|s.mem|, a.value, 4) ==>
            st == Step(s.(mem := Store(s.mem, a.value, Pack(v).value).value), Continue))
  {
  }

  /** A word stored by sw comes back from lw at the same operand. */
  lemma StoreThenLoad(s: Machine, rs: string, rd: string, operand: string)
    requires Execute(s, Instruction("sw", [rs, operand])).outcome == Continue
    requires rd in s.regs
    ensures var s1 := Execute(s, Instruction("sw", [rs, operand])).next;
      Execute(s1, Instruction("lw", [rd, operand])) == Step(s1.(regs := s1.regs[rd := s.regs[rs]]), Continue)
  {
    assert rs in s.regs;
    SwSemantics(s, rs, operand);
    var v := s.regs[rs];
    var addr := EffectiveAddress(s.regs, operand).value;
    var word := Pack(v).value;
    var s1 := s.(mem := Store(s.mem, addr, word).value);
    assert Execute(s, Instruction("sw", [rs, operand])).next == s1;
    LwSemantics(s1, rd, operand);
    LoadAfterStore(s.mem, addr, word);
    assert s1.mem[addr..addr + 4] == word;
    UnpackPack(v);
  }

  /** sw fails with PackRange on a value outside [0, 2^32) and changes nothing. */
  lemma StoreOutOfRange(s: Machine, rs: string, operand: string)
    requires rs in s.regs && !(0 <= s.regs[rs] < WordRange)
    requires EffectiveAddress(s.regs, operand).Ok?
    ensures Execute(s, Instruction("sw", [rs, operand])) == Fail(s, PackRange)
  {
  }

  // ---------------------------------------------------------------- run properties

  /** A pc outside the program ends the run at once, normally, with nothing changed. */
  lemma RunOutOfRange(s: Machine, prog: seq<Instruction>)
    requires !(0 <= s.pc < |prog|)
    ensures Run(s, prog) == Final(s, RanOffEnd)
  {
  }

  /**
   * How a run ends: on exit, pc is left on the exit syscall; on a fault, on the failing
   * instruction; running off the end leaves pc at |prog|, unless it started outside.
   */
  lemma {:induction false} RunEnds(s: Machine, prog: seq<Instruction>)
    ensures var f := Run(s, prog);
      && f.machine.regs.Keys == s.regs.Keys
      && (f.halt == Exited ==>
            && 0 <= f.machine.pc < |prog| && prog[f.machine.pc].name == "syscall"
            && "v0" in f.machine.regs && f.machine.regs["v0"] == 10
            && Execute(f.machine, prog[f.machine.pc]).outcome == Exit)
      && (f.halt.Failed? ==>
            && 0 <= f.machine.pc < |prog|
            && exists m: Machine :: Execute(m, prog[f.machine.pc]) == Step(f.machine, Fault(f.halt.fault)))
      && (f.halt == RanOffEnd ==> (f.machine == s && !(0 <= s.pc < |prog|)) || f.machine.pc == |prog|)
    decreases |prog| - s.pc
  {
    if 0 <= s.pc < |prog| {
      var st := Execute(s, prog[s.pc]);
      ExitIff(s, prog[s.pc]);
      if st.outcome == Continue {
        RunContinues(s, prog);
        RunEnds(st.next.(pc := s.pc + 1), prog);
        if s.pc + 1 == |prog| {
          RunOutOfRange(st.next.(pc := s.pc + 1), prog);
        }
      } else {
        RunStops(s, prog);
        if st.outcome.Fault? {
          assert Execute(s, prog[Run(s, prog).machine.pc]) == Step(Run(s, prog).machine, Fault(st.outcome.fault));
        }
      }
    } else {
      RunOutOfRange(s, prog);
    }
  }

  /**
   * An instruction that exits ends the run there, pc not advanced; any other failure
   * inside the loop ends the run as a failure with that fault.
   */
  lemma RunStops(s: Machine, prog: seq<Instruction>)
    requires 0 <= s.pc < |prog| && Execute(s, prog[s.pc]).outcome != Continue
    ensures var st := Execute(s, prog[s.pc]);
      Run(s, prog) == Final(st.next, if st.outcome == Exit then Exited else Failed(st.outcome.fault))
    ensures Run(s, prog).machine.pc == s.pc
  {
  }

  /** The output of a run extends the output it started with. */
  lemma {:induction false} RunOutputGrows(s: Machine, prog: seq<Instruction>)
    ensures s.output <= Run(s, prog).machine.output
    decreases |prog| - s.pc
  {
    if 0 <= s.pc < |prog| {
      var st := Execute(s, prog[s.pc]);
      if st.outcome == Continue {
        RunOutputGrows(st.next.(pc := s.pc + 1), prog);
      }
    }
  }

  /** One instruction that goes on hands the run to the next one. */
  lemma RunContinues(s: Machine, prog: seq<Instruction>)
    requires 0 <= s.pc < |prog| && Execute(s, prog[s.pc]).outcome == Continue
    ensures Run(s, prog) == Run(Execute(s, prog[s.pc]).next.(pc := s.pc + 1), prog)
  {
  }

  lemma ParseZero()
    ensures ParseInt("0") == Some(0)
  {
    ParseIntRoundTrip(0);
    assert IntToString(0) == "0";
  }

  lemma ZeroOffsetOperand(regs: map<string, int>)
    requires "sp" in regs
    ensures EffectiveAddress(regs, "0($sp)") == Ok(regs["sp"])
  {
    var offs, reg := "0", "sp";
    assert offs + "($" + reg + ")" == "0($sp)";
    EffectiveAddressOf(regs, offs, reg);
    ParseZero();
  }

  lemma LiFortyTwo(s: Machine)
    requires "t0" in s.regs
    ensures Execute(s, Instruction("li", ["t0", "42"])) == Step(s.(regs := s.regs["t0" := 42]), Continue)
  {
    LiSemantics(s, "t0", 42);
    assert IntToString(42) == "42";
  }

  /** li t0, 42; sw t0, 0($sp); lw t1, 0($sp) leaves 42 in t1 and runs off the end. */
  lemma StoreLoadProgram(s: Machine)
    requires "t0" in s.regs && "t1" in s.regs && "sp" in s.regs
    requires s.pc == 0 && 0 <= s.regs["sp"] && s.regs["sp"] + 4 <= |s.mem|
    ensures var f := Run(s, [Instruction("li", ["t0", "42"]),
                             Instruction("sw", ["t0", "0($sp)"]),
                             Instruction("lw", ["t1", "0($sp)"])]);
      f.halt == RanOffEnd && f.machine.pc == 3 && "t1" in f.machine.regs && f.machine.regs["t1"] == 42
  {
    var li, sw, lw := Instruction("li", ["t0", "42"]), Instruction("sw", ["t0", "0($sp)"]), Instruction("lw", ["t1", "0($sp)"]);
    var prog := [li, sw, lw];
    assert prog[0] == li && prog[1] == sw && prog[2] == lw;
    var a := s.regs["sp"];
    LiFortyTwo(s);
    RunContinues(s, prog);
    var s1 := s.(regs := s.regs["t0" := 42], pc := 1);
    ZeroOffsetOperand(s1.regs);
    SwSemantics(s1, "t0", "0($sp)");
    var word := Pack(42).value;
    var s2 := s1.(mem := Store(s1.mem, a, word).value, pc := 2);
    RunContinues(s1, prog);
    ZeroOffsetOperand(s2.regs);
    LwSemantics(s2, "t1", "0($sp)");
    LoadAfterStore(s1.mem, a, word);
    assert s2.mem[a..a + 4] == word;
    UnpackPack(42);
    RunContinues(s2, prog);
    var s3 := s2.(regs := s2.regs["t1" := 42], pc := 3);
    RunOutOfRange(s3, prog);
  }

  // ---------------------------------------------------------------- the object

  /** `CPU`: the register file (names, values, pc), main memory, and the program's input and output. */
  class CPU {
    var regs: map<string, int>
    var pc: int
    const m: Memory
    var input: seq<string>
    var output: seq<int>

    ghost function Snapshot(): Machine
      reads this, m
    {
      Machine(regs, pc, m.contents, input, output)
    }

    /** `CPU(mem)`: every register of the file at 0, pc at 0. */
    constructor (mem: Memory, names: set<string>, lines: seq<string>)
      ensures m == mem && pc == 0 && input == lines && output == []
      ensures regs.Keys == names && forall n | n in names :: regs[n] == 0
    {
      m := mem;
      regs := map n | n in names :: 0;
      pc := 0;
      input := lines;
      output := [];
    }

    /** `self.r.write(rd, v)`. */
    method WriteRegister(rd: string, v: int) returns (o: Outcome)
      modifies this
      ensures Step(Snapshot(), o) == Put(old(Snapshot()), rd, v)
    {
      if rd !in regs {
        return Fault(UnknownRegister);
      }
      regs := regs[rd := v];
      o := Continue;
    }

    method Syscall() returns (o: Outcome)
      modifies this
      ensures Step(Snapshot(), o) == ExecSyscall(old(Snapshot()))
    {
      var id := ReadReg(regs, "v0");
      if id.Err? {
        return Fault(id.fault);
      }
      if id.value == 10 {
        o := Exit;
      } else if id.value == 1 {
        var a0 := ReadReg(regs, "a0");
        if a0.Err? {
          return Fault(a0.fault);
        }
        output := output + [a0.value];
        o := Continue;
      } else if id.value == 5 {
        if |input| == 0 {
          return Fault(InputNotInteger);
        }
        var line := input[0];
        input := input[1..];
        var n := ParseInt(line);
        if n.None? || "v0" !in regs {
          return Fault(InputNotInteger);
        }
        regs := regs["v0" := n.value];
        o := Continue;
      } else {
        o := Fault(BadSyscall);
      }
    }

    method Load(ops: seq<string>) returns (o: Outcome)
      modifies this
      ensures Step(Snapshot(), o) == ExecLw(old(Snapshot()), ops)
    {
      if |ops| < 2 {
        return Fault(BadOperand);
      }
      var addr := EffectiveAddress(regs, ops[1]);
      if addr.Err? {
        return Fault(addr.fault);
      }
      var bytes := m.Read(addr.value, 4);
      if bytes.Err? {
        return Fault(bytes.fault);
      }
      o := WriteRegister(ops[0], Unpack(bytes.value));
    }

    method Store(ops: seq<string>) returns (o: Outcome)
      modifies m
      ensures Step(Snapshot(), o) == ExecSw(old(Snapshot()), ops)
    {
      if |ops| < 1 {
        return Fault(BadOperand);
      }
      var v := ReadReg(regs, ops[0]);
      if v.Err? {
        return Fault(v.fault);
      }
      if |ops| < 2 {
        return Fault(BadOperand);
      }
      var addr := EffectiveAddress(regs, ops[1]);
      if addr.Err? {
        return Fault(addr.fault);
      }
      var word := Pack(v.value);
      if word.Err? {
        return Fault(word.fault);
      }
      var w := m.Write(addr.value, word.value);
      if w.Err? {
        return Fault(w.fault);
      }
      o := Continue;
    }

    /** `execute_single(instr)`. */
    method ExecuteSingle(instr: Instruction) returns (o: Outcome)
      modifies this, m
      ensures Step(Snapshot(), o) == Execute(old(Snapshot()), instr)
    {
      var ops := instr.ops;
      if instr.name == "li" {
        if |ops| < 2 {
          return Fault(BadOperand);
        }
        var imm := ParseInt(ops[1]);
        if imm.None? {
          return Fault(BadOperand);
        }
        o := WriteRegister(ops[0], imm.value);
      } else if instr.name == "add" || instr.name == "addi" || instr.name == "slt" {
        if |ops| < 2 {
          return Fault(BadOperand);
        }
        var rs := ReadReg(regs, ops[1]);
        if rs.Err? {
          return Fault(rs.fault);
        }
        if |ops| < 3 {
          return Fault(BadOperand);
        }
        var v: int;
        if instr.name == "addi" {
          var imm := ParseInt(ops[2]);
          if imm.None? {
            return Fault(BadOperand);
          }
          v := rs.value + imm.value;
        } else {
          var rt := ReadReg(regs, ops[2]);
          if rt.Err? {
            return Fault(rt.fault);
          }
          v := if instr.name == "add" then rs.value + rt.value
               else if rs.value < rt.value then 1 else 0;
        }
        o := WriteRegister(ops[0], v);
      } else if instr.name == "lw" {
        o := Load(ops);
      } else if instr.name == "sw" {
        o := Store(ops);
      } else if instr.name == "move" {
        if |ops| < 2 {
          return Fault(BadOperand);
        }
        var rs := ReadReg(regs, ops[1]);
        if rs.Err? {
          return Fault(rs.fault);
        }
        o := WriteRegister(ops[0], rs.value);
      } else if instr.name == "syscall" {
        o := Syscall();
      } else {
        o := Fault(BadInstruction);
      }
    }

    /** `start(instr_mem)`. */
    method Start(prog: seq<Instruction>) returns (h: Halt)
      modifies this, m
      ensures Final(Snapshot(), h) == Run(old(Snapshot()), prog)
    {
      while 0 <= pc < |prog|
        invariant Run(Snapshot(), prog) == Run(old(Snapshot()), prog)
        decreases |prog| - pc
      {
        var o := ExecuteSingle(prog[pc]);
        if o.Exit? {
          return Exited;
        }
        if o.Fault? {
          return Failed(o.fault);
        }
        pc := pc + 1;
      }
      h := RanOffEnd;
    }
  }
}
