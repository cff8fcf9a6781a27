/** day25: the assembunny interpreter with `nop`, `add` and `out`, run as
    trials over seeds 0, 1, 2, ... of register a. A trial stops when the
    program ends or when a register-sourced `out` would repeat the previous
    register-sourced output. */
module ClockSignal {
  import opened Common
  import opened Assembunny
  import Text

  datatype Instruction =
    | Nop
    | Add(src: Operand, dst: Operand)
    | Copy(src: Operand, dst: Operand)
    | Increment(reg: Register)
    | Decrement(reg: Register)
    | JumpNotZero(test: Operand, offset: Operand)
    | Out(src: Operand)

  /** `Instruction::from` (day25 version): the first token picks the
      opcode; `nop` reads nothing more. */
  function ParseInstruction(line: string): (r: Result<Instruction>)
    ensures var t := Text.SplitWhitespace(line);
      r.Ok? ==> |t| > 0 && t[0] in {"nop", "add", "cpy", "inc", "dec", "jnz", "out"}
    ensures var t := Text.SplitWhitespace(line);
      |t| > 0 && t[0] == "nop" ==> r == Ok(Nop)
    ensures var t := Text.SplitWhitespace(line);
      |t| > 0 && t[0] == "add" ==>
        (r.Ok? <==> |t| >= 3 && ParseOperand(t[1]).Ok? && ParseOperand(t[2]).Ok?)
        && (r.Ok? ==> r.value == Add(ParseOperand(t[1]).value, ParseOperand(t[2]).value))
    ensures var t := Text.SplitWhitespace(line);
      |t| > 0 && t[0] == "cpy" ==>
        (r.Ok? <==> |t| >= 3 && ParseOperand(t[1]).Ok? && ParseOperand(t[2]).Ok?)
        && (r.Ok? ==> r.value == Copy(ParseOperand(t[1]).value, ParseOperand(t[2]).value))
    ensures var t := Text.SplitWhitespace(line);
      |t| > 0 && t[0] == "inc" ==>
        (r.Ok? <==> |t| >= 2 && ParseRegister(t[1]).Ok?)
        && (r.Ok? ==> r.value == Increment(ParseRegister(t[1]).value))
    ensures var t := Text.SplitWhitespace(line);
      |t| > 0 && t[0] == "dec" ==>
        (r.Ok? <==> |t| >= 2 && ParseRegister(t[1]).Ok?)
        && (r.Ok? ==> r.value == Decrement(ParseRegister(t[1]).value))
    ensures var t := Text.SplitWhitespace(line);
      |t| > 0 && t[0] == "jnz" ==>
        (r.Ok? <==> |t| >= 3 && ParseOperand(t[1]).Ok? && ParseOperand(t[2]).Ok?)
        && (r.Ok? ==> r.value == JumpNotZero(ParseOperand(t[1]).value, ParseOperand(t[2]).value))
    ensures var t := Text.SplitWhitespace(line);
      |t| > 0 && t[0] == "out" ==>
        (r.Ok? <==> |t| >= 2 && ParseOperand(t[1]).Ok?)
        && (r.Ok? ==> r.value == Out(ParseOperand(t[1]).value))
  {
    var tokens := Text.SplitWhitespace(line);
    if |tokens| == 0 then Panic("index out of bounds")
    else if tokens[0] == "nop" then Ok(Nop)
    else if tokens[0] == "add" || tokens[0] == "cpy" || tokens[0] == "jnz" then
      match OperandAt(tokens, 1)
      case Panic(why) => Panic(why)
      case Ok(first) =>
        match OperandAt(tokens, 2)
        case Panic(why) => Panic(why)
        case Ok(second) =>
          Ok(if tokens[0] == "add" then Add(first, second)
             else if tokens[0] == "cpy" then Copy(first, second)
             else JumpNotZero(first, second))
    else if tokens[0] == "inc" then
      MapResult(RegisterAt(tokens, 1), (reg: Register) => Increment(reg))
    else if tokens[0] == "dec" then
      MapResult(RegisterAt(tokens, 1), (reg: Register) => Decrement(reg))
    else if tokens[0] == "out" then
      MapResult(OperandAt(tokens, 1), (src: Operand) => Out(src))
    else Panic("Unexpected instruction")
  }

  /** The tokens of an instruction as the puzzle input writes it. */
  function Tokens(i: Instruction): seq<string> {
    match i
    case Nop => ["nop"]
    case Add(src, dst) => ["add", ShowOperand(src), ShowOperand(dst)]
    case Copy(src, dst) => ["cpy", ShowOperand(src), ShowOperand(dst)]
    case Increment(reg) => ["inc", Name(reg)]
    case Decrement(reg) => ["dec", Name(reg)]
    case JumpNotZero(test, offset) => ["jnz", ShowOperand(test), ShowOperand(offset)]
    case Out(src) => ["out", ShowOperand(src)]
  }

  /** The instruction's line: its tokens separated by single spaces. */
  function Show(i: Instruction): string {
    Text.Join(Tokens(i), " ")
  }

  /** The immediates of an instruction fit an i32. */
  predicate Writable(i: Instruction) {
    match i
    case Add(src, dst) => InI32(src) && InI32(dst)
    case Copy(src, dst) => InI32(src) && InI32(dst)
    case JumpNotZero(test, offset) => InI32(test) && InI32(offset)
    case Out(src) => InI32(src)
    case _ => true
  }

  /** Every writable instruction is read back from its written form: the
      opcode word decides the constructor. */
  lemma ParseShow(i: Instruction)
    requires Writable(i)
    ensures ParseInstruction(Show(i)) == Ok(i)
  {
    TokensAreWords(i);
    Text.SplitJoinedTokens(Tokens(i));
    ParseTokens(Show(i), i);
  }

  lemma TokensAreWords(i: Instruction)
    ensures forall k :: 0 <= k < |Tokens(i)| ==> Tokens(i)[k] != [] && Text.NoWhitespace(Tokens(i)[k])
  {
    match i
    case Add(src, dst) =>
      OperandToken(src);
      OperandToken(dst);
    case Copy(src, dst) =>
      OperandToken(src);
      OperandToken(dst);
    case JumpNotZero(test, offset) =>
      OperandToken(test);
      OperandToken(offset);
    case Out(src) => OperandToken(src);
    case _ =>
  }

  /** A line whose tokens are those of a writable instruction parses to it. */
  lemma ParseTokens(line: string, i: Instruction)
    requires Writable(i) && Text.SplitWhitespace(line) == Tokens(i)
    ensures ParseInstruction(line) == Ok(i)
  {
    match i
    case Nop =>
    case Add(src, dst) =>
      OperandRoundTrip(src);
      OperandRoundTrip(dst);
    case Copy(src, dst) =>
      OperandRoundTrip(src);
      OperandRoundTrip(dst);
    case JumpNotZero(test, offset) =>
      OperandRoundTrip(test);
      OperandRoundTrip(offset);
    case Out(src) => OperandRoundTrip(src);
    case Increment(reg) => RegisterRoundTrip(reg);
    case Decrement(reg) => RegisterRoundTrip(reg);
  }

  function ParseProgram(lines: seq<string>): Result<seq<Instruction>> {
    CollectAll(lines, ParseInstruction)
  }

  // ---------------------------------------------------------------------
  // One trial (day25/src/main.rs:105-175)

  /** The state of a trial. `recorded` lists the register-sourced outputs,
      whose last element is `last_out` (they are the values printed under
      `--debug`); `printed` lists the immediate outputs, printed always.
      `repeated` says the trial left the loop through `break 'exec`. */
  datatype Trial = Trial(pc: int, registers: RegisterFile, lastOut: Option<int>,
                         recorded: seq<int>, printed: seq<int>, repeated: bool)

  /** pc 0, registers [a, 0, 0, 0], no previous output. */
  function Start(a: int): Trial {
    Trial(0, [a, 0, 0, 0], None, [], [], false)
  }

  predicate Running(program: seq<Instruction>, t: Trial) {
    !t.repeated && 0 <= t.pc < |program|
  }

  function Step(program: seq<Instruction>, t: Trial): Trial
    requires Running(program, t)
  {
    var regs := t.registers;
    match program[t.pc]
    case Nop => t.(pc := t.pc + 1)
    case Add(src, dst) =>
      var regs' := if dst.Reg? then Set(regs, dst.r, Get(regs, dst.r) + Eval(regs, src)) else regs;
      t.(pc := t.pc + 1, registers := regs')
    case Copy(src, dst) => t.(pc := t.pc + 1, registers := SetOperand(regs, dst, Eval(regs, src)))
    case Increment(r) => t.(pc := t.pc + 1, registers := Set(regs, r, Get(regs, r) + 1))
    case Decrement(r) => t.(pc := t.pc + 1, registers := Set(regs, r, Get(regs, r) - 1))
    case JumpNotZero(test, offset) =>
      var pc := if Eval(regs, test) != 0 then t.pc + Eval(regs, offset) - 1 else t.pc;
      t.(pc := pc + 1)
    case Out(Value(v)) => t.(pc := t.pc + 1, printed := t.printed + [v])
    case Out(Reg(r)) =>
      var v := Get(regs, r);
      if t.lastOut.None? || t.lastOut.value != v then
        t.(pc := t.pc + 1, lastOut := Some(v), recorded := t.recorded + [v])
      else t.(repeated := true)
  }

  function Run(program: seq<Instruction>, t: Trial, fuel: nat): Trial
    decreases fuel
  {
    if fuel == 0 || !Running(program, t) then t else Run(program, Step(program, t), fuel - 1)
  }

  /** One pass of the `'exec` loop body; `repeated` is the `break 'exec`,
      which leaves pc where it is. */
  method ExecuteOne(program: seq<Instruction>, regs: array<int>, pc: int, lastOut: Option<int>,
                    recorded: seq<int>, printed: seq<int>)
    returns (pc': int, lastOut': Option<int>, recorded': seq<int>, printed': seq<int>, repeated: bool)
    requires regs.Length == 4 && 0 <= pc < |program|
    modifies regs
    ensures Trial(pc', regs[..], lastOut', recorded', printed', repeated)
         == Step(program, Trial(pc, old(regs[..]), lastOut, recorded, printed, false))
  {
    pc', lastOut', recorded', printed', repeated := pc, lastOut, recorded, printed, false;
    match program[pc] {
      case Nop =>
      case Add(src, dst) =>
        if dst.Reg? {
          regs[Slot(dst.r)] := regs[Slot(dst.r)] + match src case Value(v) => v case Reg(r) => regs[Slot(r)];
        }
      case Copy(src, dst) =>
        if dst.Reg? {
          regs[Slot(dst.r)] := match src case Value(v) => v case Reg(r) => regs[Slot(r)];
        }
      case Increment(r) =>
        regs[Slot(r)] := regs[Slot(r)] + 1;
      case Decrement(r) =>
        regs[Slot(r)] := regs[Slot(r)] - 1;
      case JumpNotZero(test, offset) =>
        var value := match test case Value(v) => v case Reg(r) => regs[Slot(r)];
        if value != 0 {
          pc' := pc' + match offset case Value(v) => v case Reg(r) => regs[Slot(r)];
          pc' := pc' - 1;
        }
      case Out(src) =>
        match src {
          case Value(v) =>
            printed' := printed' + [v];
          case Reg(r) =>
            var v := regs[Slot(r)];
            if lastOut.None? || lastOut.value != v {
              lastOut' := Some(v);
              recorded' := recorded' + [v];
            } else {
              repeated := true;
              return;
            }
        }
    }
    pc' := pc' + 1;
  }

  /** The `'exec` loop for seed `a`, over a mutable register file, for at
      most `fuel` passes. */
  method RunTrial(program: seq<Instruction>, a: int, fuel: nat) returns (t: Trial)
    ensures t == Run(program, Start(a), fuel)
  {
    var pc := 0;
    var regs := new int[4](_ => 0);
    regs[0] := a;
    var lastOut: Option<int> := None;
    var recorded: seq<int> := [];
    var printed: seq<int> := [];
    var repeated := false;
    var remaining := fuel;
    assert regs[..] == Start(a).registers;
    while !repeated && remaining > 0 && 0 <= pc < |program|
      invariant regs.Length == 4
      invariant Run(program, Trial(pc, regs[..], lastOut, recorded, printed, repeated), remaining)
             == Run(program, Start(a), fuel)
      decreases remaining
    {
      pc, lastOut, recorded, printed, repeated := ExecuteOne(program, regs, pc, lastOut, recorded, printed);
      remaining := remaining - 1;
    }
    t := Trial(pc, regs[..], lastOut, recorded, printed, repeated);
  }

  /** The outer `loop` in outline: the first `seeds` trials, for seeds
      0, 1, 2, ... in order (the program itself never stops sweeping). */
  method Sweep(program: seq<Instruction>, seeds: nat, fuel: nat) returns (trials: seq<Trial>)
    ensures |trials| == seeds
    ensures forall i :: 0 <= i < seeds ==> trials[i] == Run(program, Start(i), fuel)
  {
    var a := -1;
    trials := [];
    while |trials| < seeds
      invariant |trials| <= seeds && a == |trials| - 1
      invariant forall i :: 0 <= i < |trials| ==> trials[i] == Run(program, Start(i), fuel)
    {
      a := a + 1;
      var t := RunTrial(program, a, fuel);
      trials := trials + [t];
    }
  }

  // ---------------------------------------------------------------------
  // Properties

  predicate NoEqualNeighbours(s: seq<int>) {
    forall i :: 0 <= i < |s| - 1 ==> s[i] != s[i + 1]
  }

  /** What the trial keeps about its register-sourced outputs: `last_out`
      is the last recorded value, and no two neighbours are equal. */
  predicate OutputInvariant(t: Trial) {
    NoEqualNeighbours(t.recorded)
    && t.lastOut == (if t.recorded == [] then None else Some(t.recorded[|t.recorded| - 1]))
  }

  /** A register `out` stops the trial, without moving pc, exactly when its
      value equals the previous one; otherwise it records the value. */
  lemma RegisterOutStep(program: seq<Instruction>, t: Trial)
    requires Running(program, t) && program[t.pc].Out? && program[t.pc].src.Reg?
    ensures var u := Step(program, t); var v := Get(t.registers, program[t.pc].src.r);
      (u.repeated <==> t.lastOut == Some(v))
      && (u.repeated ==> u == t.(repeated := true))
      && (!u.repeated ==> u == t.(pc := t.pc + 1, lastOut := Some(v), recorded := t.recorded + [v]))
  {
  }

  /** An immediate `out` only prints: it neither records nor stops. */
  lemma ImmediateOutStep(program: seq<Instruction>, t: Trial)
    requires Running(program, t) && program[t.pc].Out? && program[t.pc].src.Value?
    ensures var u := Step(program, t);
      !u.repeated && u.lastOut == t.lastOut && u.recorded == t.recorded
      && u.registers == t.registers && u.pc == t.pc + 1
      && u.printed == t.printed + [program[t.pc].src.v]
  {
  }

  /** `add` into a register adds the source value to it and changes no other
      register; into an immediate it does nothing. `nop` moves pc only. */
  lemma AddAndNopStep(program: seq<Instruction>, t: Trial)
    requires Running(program, t) && (program[t.pc].Add? || program[t.pc].Nop?)
    ensures var u := Step(program, t);
      u.pc == t.pc + 1 && u.lastOut == t.lastOut && u.recorded == t.recorded && !u.repeated
    ensures var u := Step(program, t); var i := program[t.pc];
      (i.Nop? || (i.Add? && i.dst.Value?)) ==> u.registers == t.registers
    ensures var u := Step(program, t); var i := program[t.pc];
      i.Add? && i.dst.Reg? ==>
        Get(u.registers, i.dst.r) == Get(t.registers, i.dst.r) + Eval(t.registers, i.src)
        && forall q :: q != i.dst.r ==> Get(u.registers, q) == Get(t.registers, q)
  {
  }

  lemma StepKeepsOutputInvariant(program: seq<Instruction>, t: Trial)
    requires Running(program, t) && OutputInvariant(t)
    ensures OutputInvariant(Step(program, t))
  {
    var u := Step(program, t);
    if program[t.pc].Out? && program[t.pc].src.Reg? && !u.repeated {
      var v := Get(t.registers, program[t.pc].src.r);
      assert u.recorded == t.recorded + [v];
      assert t.recorded != [] ==> t.recorded[|t.recorded| - 1] != v;
    }
  }

  lemma {:induction false} RunKeepsOutputInvariant(program: seq<Instruction>, t: Trial, fuel: nat)
    requires OutputInvariant(t)
    ensures OutputInvariant(Run(program, t, fuel))
    decreases fuel
  {
    if fuel > 0 && Running(program, t) {
      StepKeepsOutputInvariant(program, t);
      RunKeepsOutputInvariant(program, Step(program, t), fuel - 1);
    }
  }

  /** However long a trial runs, its recorded outputs never have two equal
      neighbours, and `last_out` is the last of them. */
  lemma TrialOutputsAlternate(program: seq<Instruction>, a: int, fuel: nat)
    ensures OutputInvariant(Run(program, Start(a), fuel))
  {
    RunKeepsOutputInvariant(program, Start(a), fuel);
  }

  /** Outputs drawn from {0, 1} with no equal neighbours are the clock signal
      0, 1, 0, 1, ... or 1, 0, 1, 0, ... */
  lemma {:induction false} BinaryOutputsAreClock(s: seq<int>, i: nat)
    requires NoEqualNeighbours(s) && forall k :: 0 <= k < |s| ==> s[k] == 0 || s[k] == 1
    requires i < |s|
    ensures s[i] == (s[0] + i) % 2
  {
    if i > 0 {
      BinaryOutputsAreClock(s, i - 1);
      assert s[i - 1] != s[i];
    }
  }

  /** `cpy 1 a, out a, cpy 2 a, out a, out a` records 1 and 2, then stops at
      the third `out`, which would repeat 2. */
  function Example(): seq<Instruction> {
    [Copy(Value(1), Reg(A)), Out(Reg(A)), Copy(Value(2), Reg(A)), Out(Reg(A)), Out(Reg(A))]
  }

  lemma ExampleStopsOnRepeat(a: int)
    ensures var t := Run(Example(), Start(a), 10);
      t.repeated && t.pc == 4 && t.recorded == [1, 2] && t.lastOut == Some(2)
  {
    var p := Example();
    var t0 := Start(a);
    var t1 := Step(p, t0);
    var t2 := Step(p, t1);
    var t3 := Step(p, t2);
    var t4 := Step(p, t3);
    var t5 := Step(p, t4);
    assert t5.repeated && t5.pc == 4 && t5.recorded == [1, 2];
    assert Run(p, t5, 5) == t5;
    assert Run(p, t0, 10) == Run(p, t5, 5);
  }
}
