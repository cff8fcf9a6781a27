/** day23: the assembunny interpreter with `tgl`, which rewrites one
    instruction of the program in place. Jump offsets are operands evaluated
    at run time, and `cpy` may name an immediate as its destination (a
    toggled `jnz` does), in which case it does nothing. */
module SafeCracking {
  import opened Common
  import opened Assembunny
  import Text

  datatype Instruction =
    | Copy(src: Operand, dst: Operand)
    | Increment(reg: Register)
    | Decrement(reg: Register)
    | JumpNotZero(test: Operand, offset: Operand)
    | Toggle(reg: Register)

  /** `Instruction::from` (day23 version): the first token picks the
      opcode; both operands of `cpy` and `jnz` are read as operands. */
  function ParseInstruction(line: string): (r: Result<Instruction>)
    ensures var t := Text.SplitWhitespace(line);
      r.Ok? ==> |t| > 0 && t[0] in {"cpy", "inc", "dec", "jnz", "tgl"}
    ensures var t := Text.SplitWhitespace(line);
      |t| > 0 && t[0] == "cpy" ==>
        (r.Ok? <==> |t| >= 3 && ParseOperand(t[1]).Ok? && ParseOperand(t[2]).Ok?)
        && (r.Ok? ==> r.value == Copy(ParseOperand(t[1]).value, ParseOperand(t[2]).value))
    ensures var t := Text.SplitWhitespace(line);
      |t| > 0 && t[0] == "inc" ==>
        (r.Ok? <==> |t| >= 2 && ParseRegister(t[1]).Ok?)
        && (r.Ok? ==> r.value == Increment(ParseRegister(t[1]).value))
    ensures var t := Text.SplitWhitespace(line);
      |t| > 0 && t[0] == "dec" ==>
        (r.Ok? <==> |t| >= 2 && ParseRegister(t[1]).Ok?)
        && (r.Ok? ==> r.value == Decrement(ParseRegister(t[1]).value))
    ensures var t := Text.SplitWhitespace(line);
      |t| > 0 && t[0] == "jnz" ==>
        (r.Ok? <==> |t| >= 3 && ParseOperand(t[1]).Ok? && ParseOperand(t[2]).Ok?)
        && (r.Ok? ==> r.value == JumpNotZero(ParseOperand(t[1]).value, ParseOperand(t[2]).value))
    ensures var t := Text.SplitWhitespace(line);
      |t| > 0 && t[0] == "tgl" ==>
        (r.Ok? <==> |t| >= 2 && ParseRegister(t[1]).Ok?)
        && (r.Ok? ==> r.value == Toggle(ParseRegister(t[1]).value))
  {
    var tokens := Text.SplitWhitespace(line);
    if |tokens| == 0 then Panic("index out of bounds")
    else if tokens[0] == "cpy" || tokens[0] == "jnz" then
      match OperandAt(tokens, 1)
      case Panic(why) => Panic(why)
      case Ok(first) =>
        match OperandAt(tokens, 2)
        case Panic(why) => Panic(why)
        case Ok(second) => Ok(if tokens[0] == "cpy" then Copy(first, second) else JumpNotZero(first, second))
    else if tokens[0] == "inc" then
      MapResult(RegisterAt(tokens, 1), (reg: Register) => Increment(reg))
    else if tokens[0] == "dec" then
      MapResult(RegisterAt(tokens, 1), (reg: Register) => Decrement(reg))
    else if tokens[0] == "tgl" then
      MapResult(RegisterAt(tokens, 1), (reg: Register) => Toggle(reg))
    else Panic("Unexpected instruction")
  }

  /** The tokens of an instruction as the puzzle input writes it. */
  function Tokens(i: Instruction): seq<string> {
    match i
    case Copy(src, dst) => ["cpy", ShowOperand(src), ShowOperand(dst)]
    case Increment(reg) => ["inc", Name(reg)]
    case Decrement(reg) => ["dec", Name(reg)]
    case JumpNotZero(test, offset) => ["jnz", ShowOperand(test), ShowOperand(offset)]
    case Toggle(reg) => ["tgl", Name(reg)]
  }

  /** The instruction's line: its tokens separated by single spaces. */
  function Show(i: Instruction): string {
    Text.Join(Tokens(i), " ")
  }

  /** The immediates of an instruction fit an i32. */
  predicate Writable(i: Instruction) {
    match i
    case Copy(src, dst) => InI32(src) && InI32(dst)
    case JumpNotZero(test, offset) => InI32(test) && InI32(offset)
    case _ => true
  }

  /** Every writable instruction is read back from its written form: the
      opcode word decides the constructor. */
  lemma ParseShow(i: Instruction)
    requires Writable(i)
    ensures ParseInstruction(Show(i)) == Ok(i)
  {
    TokensAreWords(i);
    Text.SplitJoinedTokens(Tokens(i));
    ParseTokens(Show(i), i);
  }

  lemma TokensAreWords(i: Instruction)
    ensures forall k :: 0 <= k < |Tokens(i)| ==> Tokens(i)[k] != [] && Text.NoWhitespace(Tokens(i)[k])
  {
    match i
    case Copy(src, dst) =>
      OperandToken(src);
      OperandToken(dst);
    case JumpNotZero(test, offset) =>
      OperandToken(test);
      OperandToken(offset);
    case _ =>
  }

  /** A line whose tokens are those of a writable instruction parses to it. */
  lemma ParseTokens(line: string, i: Instruction)
    requires Writable(i) && Text.SplitWhitespace(line) == Tokens(i)
    ensures ParseInstruction(line) == Ok(i)
  {
    match i
    case Copy(src, dst) =>
      OperandRoundTrip(src);
      OperandRoundTrip(dst);
    case JumpNotZero(test, offset) =>
      OperandRoundTrip(test);
      OperandRoundTrip(offset);
    case Increment(reg) => RegisterRoundTrip(reg);
    case Decrement(reg) => RegisterRoundTrip(reg);
    case Toggle(reg) => RegisterRoundTrip(reg);
  }

  function ParseProgram(lines: seq<string>): Result<seq<Instruction>> {
    CollectAll(lines, ParseInstruction)
  }

  /** The flip table of `tgl`; the operands are kept. */
  function Flip(i: Instruction): Instruction {
    match i
    case Copy(a, b) => JumpNotZero(a, b)
    case Increment(r) => Decrement(r)
    case Decrement(r) => Increment(r)
    case JumpNotZero(test, dst) => Copy(test, dst)
    case Toggle(r) => Increment(r)
  }

  // ---------------------------------------------------------------------
  // Semantics of one pass of the `while` loop (day23/src/main.rs:103-150)

  datatype State = State(pc: int, registers: RegisterFile, program: seq<Instruction>)

  /** Register a seeded from `start_a` when one is given; the rest 0. */
  function Initial(program: seq<Instruction>, startA: Option<int>): State {
    State(0, [if startA.Some? then startA.value else 0, 0, 0, 0], program)
  }

  /** The loop guard `(pc as usize) < instructions.len()`. */
  predicate Running(s: State) {
    0 <= s.pc < |s.program|
  }

  /** `(registers[reg] + pc) as usize < instructions.len()`: a negative sum
      casts to a huge index and misses the program too. */
  function ToggleTarget(program: seq<Instruction>, target: int): seq<Instruction> {
    if 0 <= target < |program| then program[target := Flip(program[target])] else program
  }

  function Step(s: State): State
    requires Running(s)
  {
    var regs := s.registers;
    match s.program[s.pc]
    case Copy(src, dst) => State(s.pc + 1, SetOperand(regs, dst, Eval(regs, src)), s.program)
    case Increment(r) => State(s.pc + 1, Set(regs, r, Get(regs, r) + 1), s.program)
    case Decrement(r) => State(s.pc + 1, Set(regs, r, Get(regs, r) - 1), s.program)
    case JumpNotZero(test, offset) =>
      // the jump subtracts one to offset the uniform `pc += 1`
      var pc := if Eval(regs, test) != 0 then s.pc + Eval(regs, offset) - 1 else s.pc;
      State(pc + 1, regs, s.program)
    case Toggle(r) => State(s.pc + 1, regs, ToggleTarget(s.program, Get(regs, r) + s.pc))
  }

  function Run(s: State, fuel: nat): State
    decreases fuel
  {
    if fuel == 0 || !Running(s) then s else Run(Step(s), fuel - 1)
  }

  /** One pass of the loop body: the instruction at `pc` acts on the
      register array and, for `tgl`, on the program array. */
  method ExecuteOne(regs: array<int>, code: array<Instruction>, pc: int) returns (next: int)
    requires regs.Length == 4 && 0 <= pc < code.Length
    modifies regs, code
    ensures State(next, regs[..], code[..]) == Step(State(pc, old(regs[..]), old(code[..])))
  {
    next := pc;
    match code[pc] {
      case Copy(src, dst) =>
        if dst.Reg? {
          regs[Slot(dst.r)] := match src case Value(v) => v case Reg(r) => regs[Slot(r)];
        }
      case Increment(r) =>
        regs[Slot(r)] := regs[Slot(r)] + 1;
      case Decrement(r) =>
        regs[Slot(r)] := regs[Slot(r)] - 1;
      case JumpNotZero(test, offset) =>
        var value := match test case Value(v) => v case Reg(r) => regs[Slot(r)];
        if value != 0 {
          next := next + match offset case Value(v) => v case Reg(r) => regs[Slot(r)];
          next := next - 1;
        }
      case Toggle(r) =>
        var target := regs[Slot(r)] + pc;
        if 0 <= target < code.Length {
          code[target] := Flip(code[target]);
        }
    }
    next := next + 1;
  }

  /** The loop of `main`: the instruction vector is copied into an array
      that `tgl` overwrites in place. */
  method Execute(instructions: seq<Instruction>, startA: Option<int>, fuel: nat)
    returns (registers: seq<int>, program: seq<Instruction>, pc: int, halted: bool)
    ensures |registers| == 4
    ensures State(pc, registers, program) == Run(Initial(instructions, startA), fuel)
    ensures |program| == |instructions|
    ensures halted <==> !(0 <= pc < |program|)
  {
    var code := new Instruction[|instructions|](i requires 0 <= i < |instructions| => instructions[i]);
    var regs := new int[4](_ => 0);
    if startA.Some? {
      regs[0] := startA.value;
    }
    pc := 0;
    var remaining := fuel;
    assert regs[..] == Initial(instructions, startA).registers;
    assert code[..] == instructions;
    while remaining > 0 && 0 <= pc < code.Length
      invariant regs.Length == 4 && code.Length == |instructions|
      invariant Run(State(pc, regs[..], code[..]), remaining) == Run(Initial(instructions, startA), fuel)
      decreases remaining
    {
      ghost var before := State(pc, regs[..], code[..]);
      assert Run(before, remaining) == Run(Step(before), remaining - 1);
      pc := ExecuteOne(regs, code, pc);
      remaining := remaining - 1;
    }
    registers := regs[..];
    program := code[..];
    halted := !(0 <= pc < code.Length);
    RunKeepsLength(Initial(instructions, startA), fuel);
  }

  // ---------------------------------------------------------------------
  // Properties

  /** Flipping twice restores `inc`, `dec`, `cpy` and `jnz` with their
      operands; a `tgl` becomes `inc` and then `dec`, never `tgl` again. */
  lemma FlipTwice(i: Instruction)
    ensures !i.Toggle? ==> Flip(Flip(i)) == i
    ensures i.Toggle? ==> Flip(i) == Increment(i.reg) && Flip(Flip(i)) == Decrement(i.reg)
  {
  }

  /** `tgl` changes the target instruction only, through the flip table, and
      no register; a target outside [0, |program|), negative included,
      leaves the program as it was. */
  lemma ToggleChangesOnlyTarget(s: State)
    requires Running(s) && s.program[s.pc].Toggle?
    ensures var t := Step(s); var target := Get(s.registers, s.program[s.pc].reg) + s.pc;
      t.registers == s.registers && t.pc == s.pc + 1 && |t.program| == |s.program|
      && (forall k :: 0 <= k < |s.program| && k != target ==> t.program[k] == s.program[k])
      && (0 <= target < |s.program| ==> t.program[target] == Flip(s.program[target]))
      && (!(0 <= target < |s.program|) ==> t.program == s.program)
  {
  }

  /** A `cpy` whose destination is an immediate changes nothing but `pc`. */
  lemma CopyToImmediateIsNoOp(s: State)
    requires Running(s) && s.program[s.pc].Copy? && s.program[s.pc].dst.Value?
    ensures Step(s) == State(s.pc + 1, s.registers, s.program)
  {
  }

  /** A taken `jnz` moves `pc` by exactly its run-time offset (the `- 1` and
      the uniform `+ 1` cancel); an untaken one by 1. */
  lemma JumpMovesByOffset(s: State)
    requires Running(s) && s.program[s.pc].JumpNotZero?
    ensures var t := Step(s); var i := s.program[s.pc];
      t.registers == s.registers && t.program == s.program
      && t.pc == (if Eval(s.registers, i.test) != 0 then s.pc + Eval(s.registers, i.offset) else s.pc + 1)
  {
  }

  /** Toggling never inserts or removes instructions. */
  lemma {:induction false} RunKeepsLength(s: State, fuel: nat)
    ensures |Run(s, fuel).program| == |s.program|
    decreases fuel
  {
    if fuel > 0 && Running(s) {
      RunKeepsLength(Step(s), fuel - 1);
    }
  }

  function Example(): seq<Instruction> {
    [Copy(Value(2), Reg(A)), Toggle(A), Toggle(A), Toggle(A), Copy(Value(1), Reg(A)),
     Decrement(A), Decrement(A)]
  }

  /** The toggling example program `cpy 2 a, tgl a, tgl a, tgl a, cpy 1 a,
      dec a, dec a` halts after five passes with 3 in register a: the second
      `tgl` turns `cpy 1 a` into `jnz 1 a`, which jumps past the end. */
  lemma ExampleEndsWithThree()
    ensures Run(Initial(Example(), None), 10).registers == [3, 0, 0, 0]
    ensures Run(Initial(Example(), None), 10).pc == 7
  {
    var s0 := Initial(Example(), None);
    var s1 := Step(s0);
    var s2 := Step(s1);
    var s3 := Step(s2);
    var s4 := Step(s3);
    var s5 := Step(s4);
    assert s5.pc == 7 && s5.registers == [3, 0, 0, 0];
    assert Run(s5, 5) == s5;
    assert Run(s0, 10) == Run(s5, 5);
  }
}
