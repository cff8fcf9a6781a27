/** The parts that the three "assembunny" interpreters (day12, day23, day25)
    share word for word: the four registers, an operand that is an immediate
    or a register, their parsers, and the four-slot register file. */
module Assembunny {
  import opened Common
  import Text

  datatype Register = A | B | C | D

  /** The register's slot in the register file (`reg as usize`). */
  function Slot(r: Register): (i: nat)
    ensures i < 4
  {
    match r
    case A => 0
    case B => 1
    case C => 2
    case D => 3
  }

  function Name(r: Register): string {
    match r
    case A => "a"
    case B => "b"
    case C => "c"
    case D => "d"
  }

  predicate IsRegisterName(token: string) {
    token == "a" || token == "b" || token == "c" || token == "d"
  }

  /** `Register::from`: exactly the names a to d; anything else panics. */
  function ParseRegister(token: string): (r: Result<Register>)
    ensures r.Ok? <==> IsRegisterName(token)
    ensures r.Ok? ==> Name(r.value) == token
  {
    if token == "a" then Ok(A)
    else if token == "b" then Ok(B)
    else if token == "c" then Ok(C)
    else if token == "d" then Ok(D)
    else Panic("Unexpected register")
  }

  /** A register's name reads back as that register. */
  lemma RegisterRoundTrip(r: Register)
    ensures ParseRegister(Name(r)) == Ok(r)
  {
  }

  datatype Operand = Value(v: int) | Reg(r: Register)

  /** `Operand::from`: a token that `parse::<i32>` accepts is an immediate;
      any other token must name a register. */
  function ParseOperand(token: string): (r: Result<Operand>)
    ensures Text.ParseI32(token).Some? ==> r == Ok(Value(Text.ParseI32(token).value))
    ensures Text.ParseI32(token).None? && IsRegisterName(token) ==> r.Ok? && r.value.Reg? && Name(r.value.r) == token
    ensures r.Panic? <==> Text.ParseI32(token).None? && !IsRegisterName(token)
  {
    match Text.ParseI32(token)
    case Some(v) => Ok(Value(v))
    case None => MapResult(ParseRegister(token), (reg: Register) => Reg(reg))
  }

  function ShowOperand(o: Operand): string {
    match o
    case Value(v) => Text.ShowInt(v)
    case Reg(r) => Name(r)
  }

  /** Writing an operand out and parsing it again gives the same operand,
      for every immediate in the i32 range. */
  lemma OperandRoundTrip(o: Operand)
    requires InI32(o)
    ensures ParseOperand(ShowOperand(o)) == Ok(o)
  {
    match o
    case Value(v) => Text.ParseShowInt(v, Text.I32_MIN, Text.I32_MAX);
    case Reg(r) =>
  }

  /** An immediate that `parse::<i32>` can produce. */
  predicate InI32(o: Operand) {
    o.Value? ==> Text.I32_MIN <= o.v <= Text.I32_MAX
  }

  /** A written-out operand is a single token of an instruction line. */
  lemma OperandToken(o: Operand)
    ensures ShowOperand(o) != [] && Text.NoWhitespace(ShowOperand(o))
  {
    match o
    case Value(v) => Text.ShowIntToken(v);
    case Reg(r) =>
  }

  function OperandAt(tokens: seq<string>, k: nat): (r: Result<Operand>)
    ensures r.Ok? <==> k < |tokens| && ParseOperand(tokens[k]).Ok?
    ensures r.Ok? ==> r == ParseOperand(tokens[k])
  {
    if k < |tokens| then ParseOperand(tokens[k]) else Panic("index out of bounds")
  }

  function RegisterAt(tokens: seq<string>, k: nat): (r: Result<Register>)
    ensures r.Ok? <==> k < |tokens| && IsRegisterName(tokens[k])
    ensures r.Ok? ==> r == ParseRegister(tokens[k])
  {
    if k < |tokens| then ParseRegister(tokens[k]) else Panic("index out of bounds")
  }

  // ---------------------------------------------------------------------
  // The register file: `vec![0; 4]` indexed by `reg as usize`.

  type RegisterFile = s: seq<int> | |s| == 4 witness [0, 0, 0, 0]

  function Get(regs: RegisterFile, r: Register): int {
    regs[Slot(r)]
  }

  function Set(regs: RegisterFile, r: Register, v: int): (t: RegisterFile)
    ensures Get(t, r) == v
    ensures forall q :: q != r ==> Get(t, q) == Get(regs, q)
  {
    regs[Slot(r) := v]
  }

  /** The value an operand denotes: the immediate, or the register's content. */
  function Eval(regs: RegisterFile, o: Operand): int {
    match o
    case Value(v) => v
    case Reg(r) => Get(regs, r)
  }

  /** The register file written into register `dst` when `dst` is a register
      operand; an immediate destination leaves it unchanged. */
  function SetOperand(regs: RegisterFile, dst: Operand, v: int): (t: RegisterFile)
    ensures dst.Value? ==> t == regs
    ensures dst.Reg? ==> Get(t, dst.r) == v && forall q :: q != dst.r ==> Get(t, q) == Get(regs, q)
  {
    match dst
    case Value(_) => regs
    case Reg(r) => Set(regs, r, v)
  }
}
