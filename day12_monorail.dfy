/** day12: the base assembunny interpreter (`cpy`, `inc`, `dec`, `jnz`).
    The `jnz` offset is a literal that the parser stores minus one, so that
    the loop can add one to the program counter after every instruction. */
module Monorail {
  import opened Common
  import opened Assembunny
  import Text

  datatype Instruction =
    | Copy(src: Operand, dst: Register)
    | Increment(reg: Register)
    | Decrement(reg: Register)
    | JumpNotZero(test: Operand, offset: int)

  /** `Instruction::from`: the first token picks the opcode, and each
      opcode reads its operands from the tokens after it. */
  function ParseInstruction(line: string): (r: Result<Instruction>)
    ensures var t := Text.SplitWhitespace(line);
      r.Ok? ==> |t| > 0 && t[0] in {"cpy", "inc", "dec", "jnz"}
    ensures var t := Text.SplitWhitespace(line);
      |t| > 0 && t[0] == "cpy" ==>
        (r.Ok? <==> |t| >= 3 && ParseOperand(t[1]).Ok? && ParseRegister(t[2]).Ok?)
        && (r.Ok? ==> r.value == Copy(ParseOperand(t[1]).value, ParseRegister(t[2]).value))
    ensures var t := Text.SplitWhitespace(line);
      |t| > 0 && t[0] == "inc" ==>
        (r.Ok? <==> |t| >= 2 && ParseRegister(t[1]).Ok?)
        && (r.Ok? ==> r.value == Increment(ParseRegister(t[1]).value))
    ensures var t := Text.SplitWhitespace(line);
      |t| > 0 && t[0] == "dec" ==>
        (r.Ok? <==> |t| >= 2 && ParseRegister(t[1]).Ok?)
        && (r.Ok? ==> r.value == Decrement(ParseRegister(t[1]).value))
    ensures var t := Text.SplitWhitespace(line);
      |t| > 0 && t[0] == "jnz" ==>
        (r.Ok? <==> |t| >= 3 && ParseOperand(t[1]).Ok? && Text.ParseI32(t[2]).Some?)
        && (r.Ok? ==> r.value == JumpNotZero(ParseOperand(t[1]).value, Text.ParseI32(t[2]).value - 1))
  {
    var tokens := Text.SplitWhitespace(line);
    if |tokens| == 0 then Panic("index out of bounds")
    else if tokens[0] == "cpy" then
      match OperandAt(tokens, 1)
      case Panic(why) => Panic(why)
      case Ok(src) => MapResult(RegisterAt(tokens, 2), (dst: Register) => Copy(src, dst))
    else if tokens[0] == "inc" then
      MapResult(RegisterAt(tokens, 1), (reg: Register) => Increment(reg))
    else if tokens[0] == "dec" then
      MapResult(RegisterAt(tokens, 1), (reg: Register) => Decrement(reg))
    else if tokens[0] == "jnz" then
      match OperandAt(tokens, 1)
      case Panic(why) => Panic(why)
      case Ok(test) =>
        if |tokens| < 3 then Panic("index out of bounds")
        else
          match Text.ParseI32(tokens[2])
          case None => Panic("Failed to parse jump target")
          case Some(literal) => Ok(JumpNotZero(test, literal - 1))
    else Panic("Unexpected instruction")
  }

  /** The tokens of an instruction as the puzzle input writes it; the
      stored jump offset is one less than the literal on the line. */
  function Tokens(i: Instruction): seq<string> {
    match i
    case Copy(src, dst) => ["cpy", ShowOperand(src), Name(dst)]
    case Increment(reg) => ["inc", Name(reg)]
    case Decrement(reg) => ["dec", Name(reg)]
    case JumpNotZero(test, offset) => ["jnz", ShowOperand(test), Text.ShowInt(offset + 1)]
  }

  /** The instruction's line: its tokens separated by single spaces. */
  function Show(i: Instruction): string {
    Text.Join(Tokens(i), " ")
  }

  /** The numbers of an instruction fit the program's i32 fields. */
  predicate Writable(i: Instruction) {
    match i
    case Copy(src, _) => InI32(src)
    case JumpNotZero(test, offset) => InI32(test) && Text.I32_MIN <= offset + 1 <= Text.I32_MAX
    case _ => true
  }

  /** Every writable instruction is read back from its written form: the
      opcode word decides the constructor. */
  lemma ParseShow(i: Instruction)
    requires Writable(i)
    ensures ParseInstruction(Show(i)) == Ok(i)
  {
    TokensAreWords(i);
    Text.SplitJoinedTokens(Tokens(i));
    ParseTokens(Show(i), i);
  }

  lemma TokensAreWords(i: Instruction)
    ensures forall k :: 0 <= k < |Tokens(i)| ==> Tokens(i)[k] != [] && Text.NoWhitespace(Tokens(i)[k])
  {
    match i
    case Copy(src, _) => OperandToken(src);
    case JumpNotZero(test, offset) =>
      OperandToken(test);
      Text.ShowIntToken(offset + 1);
    case _ =>
  }

  /** A line whose tokens are those of a writable instruction parses to it. */
  lemma ParseTokens(line: string, i: Instruction)
    requires Writable(i) && Text.SplitWhitespace(line) == Tokens(i)
    ensures ParseInstruction(line) == Ok(i)
  {
    match i
    case Copy(src, dst) =>
      OperandRoundTrip(src);
      RegisterRoundTrip(dst);
    case Increment(reg) => RegisterRoundTrip(reg);
    case Decrement(reg) => RegisterRoundTrip(reg);
    case JumpNotZero(test, offset) =>
      OperandRoundTrip(test);
      Text.ParseShowInt(offset + 1, Text.I32_MIN, Text.I32_MAX);
  }

  function ParseProgram(lines: seq<string>): Result<seq<Instruction>> {
    CollectAll(lines, ParseInstruction)
  }

  // ---------------------------------------------------------------------
  // Semantics of one pass of the `while` loop (day12/src/main.rs:101-123)

  datatype State = State(pc: int, registers: RegisterFile)

  /** All four registers 0, program counter 0. */
  function Initial(): State {
    State(0, [0, 0, 0, 0])
  }

  /** The loop guard `(pc as usize) < instructions.len()`: a negative `pc`
      casts to a huge `usize`, so it stops the loop as well. */
  predicate Running(program: seq<Instruction>, s: State) {
    0 <= s.pc < |program|
  }

  function Step(program: seq<Instruction>, s: State): State
    requires Running(program, s)
  {
    var regs := s.registers;
    match program[s.pc]
    case Copy(src, dst) => State(s.pc + 1, Set(regs, dst, Eval(regs, src)))
    case Increment(r) => State(s.pc + 1, Set(regs, r, Get(regs, r) + 1))
    case Decrement(r) => State(s.pc + 1, Set(regs, r, Get(regs, r) - 1))
    case JumpNotZero(test, offset) =>
      State(if Eval(regs, test) != 0 then s.pc + offset + 1 else s.pc + 1, regs)
  }

  /** At most `fuel` passes of the loop, stopping early when it halts. */
  function Run(program: seq<Instruction>, s: State, fuel: nat): State
    decreases fuel
  {
    if fuel == 0 || !Running(program, s) then s else Run(program, Step(program, s), fuel - 1)
  }

  /** The loop of `main`, over a mutable four-slot register file. It stops
      when `pc` leaves the program or after `fuel` passes. */
  method Execute(program: seq<Instruction>, fuel: nat) returns (registers: seq<int>, pc: int, halted: bool)
    ensures |registers| == 4
    ensures State(pc, registers) == Run(program, Initial(), fuel)
    ensures halted <==> !(0 <= pc < |program|)
  {
    var regs := new int[4](_ => 0);
    pc := 0;
    var remaining := fuel;
    assert regs[..] == Initial().registers;
    while remaining > 0 && 0 <= pc < |program|
      invariant regs.Length == 4
      invariant Run(program, State(pc, regs[..]), remaining) == Run(program, Initial(), fuel)
      decreases remaining
    {
      match program[pc] {
        case Copy(src, dst) =>
          regs[Slot(dst)] := match src case Value(v) => v case Reg(r) => regs[Slot(r)];
        case Increment(r) =>
          regs[Slot(r)] := regs[Slot(r)] + 1;
        case Decrement(r) =>
          regs[Slot(r)] := regs[Slot(r)] - 1;
        case JumpNotZero(test, offset) =>
          var value := match test case Value(v) => v case Reg(r) => regs[Slot(r)];
          if value != 0 {
            pc := pc + offset;
          }
      }
      pc := pc + 1;
      remaining := remaining - 1;
    }
    registers := regs[..];
    halted := !(0 <= pc < |program|);
  }

  // ---------------------------------------------------------------------
  // Properties

  /** `cpy` writes its destination only, with the immediate or the source
      register's value, and moves on to the next instruction. */
  lemma CopyWritesOnlyDestination(program: seq<Instruction>, s: State)
    requires Running(program, s) && program[s.pc].Copy?
    ensures var t := Step(program, s);
      Get(t.registers, program[s.pc].dst) == Eval(s.registers, program[s.pc].src)
      && (forall q :: q != program[s.pc].dst ==> Get(t.registers, q) == Get(s.registers, q))
      && t.pc == s.pc + 1
  {
  }

  /** `inc` and `dec` change exactly one register, by one. */
  lemma IncDecChangeOneRegister(program: seq<Instruction>, s: State)
    requires Running(program, s) && (program[s.pc].Increment? || program[s.pc].Decrement?)
    ensures var t := Step(program, s); var r := program[s.pc].reg;
      Get(t.registers, r) == Get(s.registers, r) + (if program[s.pc].Increment? then 1 else -1)
      && (forall q :: q != r ==> Get(t.registers, q) == Get(s.registers, q))
      && t.pc == s.pc + 1
  {
  }

  /** A taken jump parsed from `jnz x L` moves the program counter by exactly
      L, although the instruction stores L - 1; an untaken one moves it by 1.
      No register changes. */
  lemma JumpMovesByLiteral(program: seq<Instruction>, s: State, line: string, literal: int)
    requires Running(program, s) && ParseInstruction(line) == Ok(program[s.pc])
    requires program[s.pc].JumpNotZero?
    requires Text.ParseI32(Text.SplitWhitespace(line)[2]) == Some(literal)
    ensures var t := Step(program, s);
      t.registers == s.registers
      && t.pc == (if Eval(s.registers, program[s.pc].test) != 0 then s.pc + literal else s.pc + 1)
  {
  }

  /** More fuel only continues a run where the shorter one stopped. */
  lemma {:induction false} RunSplits(program: seq<Instruction>, s: State, a: nat, b: nat)
    ensures Run(program, s, a + b) == Run(program, Run(program, s, a), b)
    decreases a
  {
    if a > 0 && Running(program, s) {
      RunSplits(program, Step(program, s), a - 1, b);
    }
  }

  /** A run that has halted is final: further fuel changes nothing. */
  lemma {:induction false} HaltedRunIsFinal(program: seq<Instruction>, s: State, a: nat, b: nat)
    requires !Running(program, Run(program, s, a))
    ensures Run(program, s, a + b) == Run(program, s, a)
  {
    RunSplits(program, s, a, b);
    assert b == 0 || !Running(program, Run(program, s, a));
  }
}
