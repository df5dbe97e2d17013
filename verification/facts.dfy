/** Properties of the LS-8 model that relate several calls: the stack
    round trip, the loop's behaviour on unknown opcodes and on HLT, fuel
    monotonicity, the loader's placement of each line, and the ALU finding. */
module CpuFacts {
  import opened Runtime
  import Loader
  import opened Cpu

  /** The as-written ALU raises for "ADD" whatever the operands are. */
  lemma AluAsWrittenRejectsAdd(regs: Regs, a: int, b: int)
    ensures AluAsWritten("ADD", regs, a, b).Err?
    ensures -8 <= a < 8 && -8 <= b < 8 ==> AluAsWritten("ADD", regs, a, b) == Err(UnsupportedAluOp("ADD"))
  {
  }

  /** A concrete witness: with reg[0] = 2 and reg[1] = 3, `alu("ADD", 0, 1)`
      raises where the intended ALU yields 5 in reg[0]. */
  lemma AluAddCounterexample()
    ensures AluAsWritten("ADD", [2, 3, 0, 0, 0, 0, 0, 0], 0, 1) == Err(UnsupportedAluOp("ADD"))
    ensures Alu("ADD", [2, 3, 0, 0, 0, 0, 0, 0], 0, 1) == Ok([5, 3, 0, 0, 0, 0, 0, 0])
  {
    var regs: Regs := [2, 3, 0, 0, 0, 0, 0, 0];
    assert regs[0 := regs[0] + regs[1]] == [5, 3, 0, 0, 0, 0, 0, 0];
  }

  /** On "MUL", the only op `run` ever passes, both ALUs agree; so the
      machine built on the intended ALU behaves exactly as the code does. */
  lemma AluAgreesOnMul(regs: Regs, a: int, b: int)
    ensures AluAsWritten("MUL", regs, a, b) == Alu("MUL", regs, a, b)
  {
  }

  /** LDI r, v and then PRN r print v; pc has advanced by 3 + 2. */
  lemma LdiThenPrn(s: State)
    requires s.pc + 4 < RamSize
    requires s.ram[s.pc] == LDI && s.ram[s.pc + 3] == PRN
    requires 0 <= s.ram[s.pc + 1] < RegCount && s.ram[s.pc + 4] == s.ram[s.pc + 1]
    ensures Step(s).Continue? && Step(s).out == []
    ensures var t := Step(s).next;
      && Step(t).Continue?
      && Step(t).out == [s.ram[s.pc + 2]]
      && Step(t).next.pc == s.pc + 5
  {
    var t := Step(s).next;
    assert t.ram == s.ram;
  }

  /** PUSH r followed by POP q (neither the stack pointer, and the stack cell
      not overlapping the POP instruction) moves the old reg[r] into reg[q]
      and gives reg[7] back its value from before the PUSH. */
  lemma PushThenPop(s: State)
    requires s.pc + 3 < RamSize
    requires s.ram[s.pc] == PUSH && s.ram[s.pc + 2] == POP
    requires 0 <= s.ram[s.pc + 1] < RegCount && s.ram[s.pc + 1] != SP
    requires 0 <= s.ram[s.pc + 3] < RegCount && s.ram[s.pc + 3] != SP
    requires 1 <= s.reg[SP] <= RamSize
    requires s.reg[SP] - 1 != s.pc + 2 && s.reg[SP] - 1 != s.pc + 3
    ensures Step(s).Continue? && Step(Step(s).next).Continue?
    ensures var u := Step(Step(s).next).next;
      && u.reg[s.ram[s.pc + 3]] == s.reg[s.ram[s.pc + 1]]
      && u.reg[SP] == s.reg[SP]
      && u.pc == s.pc + 4
      && (forall k :: 0 <= k < RegCount && k != s.ram[s.pc + 3] ==> u.reg[k] == s.reg[k])
      && u.ram == s.ram[s.reg[SP] - 1 := s.reg[s.ram[s.pc + 1]]]
  {
    var r, q, sp := s.ram[s.pc + 1], s.ram[s.pc + 3], s.reg[SP];
    var t := Step(s).next;
    assert t.ram == s.ram[sp - 1 := s.reg[r]];
    assert t.ram[t.pc] == POP && t.ram[t.pc + 1] == q;
    assert t.reg[SP] == sp - 1;
  }

  /** An opcode outside the table is a fixed point of the loop: it spins
      without printing until the fuel runs out. */
  lemma {:induction false} UnknownOpcodeSpins(s: State, fuel: nat)
    requires s.running && s.pc < RamSize && s.ram[s.pc] !in Opcodes
    ensures Loop(s, fuel) == OutOfFuel(s, [])
    decreases fuel
  {
    if fuel > 0 {
      UnknownOpcodeSpins(s, fuel - 1);
    }
  }

  /** HLT ends the run at once, with running false and pc one past the HLT. */
  lemma HaltStops(s: State, fuel: nat)
    requires s.running && fuel > 0 && s.pc < RamSize && s.ram[s.pc] == HLT
    ensures Loop(s, fuel) == Exited(s.(running := false, pc := s.pc + 1), [])
  {
  }

  /** More fuel never changes a run that has already ended. */
  lemma {:induction false} MoreFuelSameOutcome(s: State, fuel: nat, more: nat)
    requires fuel <= more
    requires !Loop(s, fuel).OutOfFuel?
    ensures Loop(s, more) == Loop(s, fuel)
    decreases fuel
  {
    if s.running && fuel > 0 {
      match Step(s)
      case Halted(_) =>
      case Raised(_) =>
      case Continue(t, o) =>
        assert !Loop(t, fuel - 1).OutOfFuel?;
        MoreFuelSameOutcome(t, fuel - 1, more - 1);
    }
  }

  /** Every contributing line of the program text lands, parsed, at its own
      address: the k-th such line at address k. */
  lemma LoadPlacesEachLine(s: State, lines: seq<string>)
    requires Cpu.Load(s, lines).Ok?
    ensures var cs := Loader.Commands(lines);
      && |cs| <= RamSize
      && (forall k :: 0 <= k < |cs| ==> Loader.ParseBinary(cs[k]).Some?)
      && (forall k :: 0 <= k < |cs| ==> Cpu.Load(s, lines).value.ram[k] == Loader.ParseBinary(cs[k]).value)
      && (forall a :: |cs| <= a < RamSize ==> Cpu.Load(s, lines).value.ram[a] == s.ram[a])
  {
    Loader.ParseAllSpec(Loader.Commands(lines));
  }

  /** A fresh CPU that is run sees reg[7] = 0xF4 and pc = 0 at its first fetch. */
  lemma RunStartsAtStackTop(lines: seq<string>)
    requires Cpu.Load(Init(), lines).Ok?
    ensures var b := Boot(Cpu.Load(Init(), lines).value);
      && b.reg[SP] == StackTop && b.pc == 0 && b.running
      && forall k :: 0 <= k < RegCount && k != SP ==> b.reg[k] == 0
  {
  }

  /** LDI R0,8; LDI R1,9; MUL R0,R1; PRN R0; HLT as bytes. */
  const MultiplyBytes: seq<int> := [LDI, 0, 8, LDI, 1, 9, MUL, 0, 1, PRN, 0, HLT]

  /** An iteration that prints nothing hands the rest of the run to the next state. */
  lemma SilentStep(s: State, fuel: nat)
    requires s.running && fuel > 0 && Step(s).Continue? && Step(s).out == []
    ensures Loop(s, fuel) == Loop(Step(s).next, fuel - 1)
  {
    var r := Loop(Step(s).next, fuel - 1);
    assert Prepend([], r) == r by {
      assert [] + r.out == r.out;
    }
  }

  /** An LDI with a register index in range: reg[r] := v, pc + 3, nothing printed. */
  lemma LdiStep(s: State)
    requires s.pc + 2 < RamSize && s.ram[s.pc] == LDI && 0 <= s.ram[s.pc + 1] < RegCount
    ensures Step(s) == Continue(s.(reg := s.reg[s.ram[s.pc + 1] := s.ram[s.pc + 2]], pc := s.pc + 3), [])
  {
    var e := Ldi(s).value.next;
    assert e.reg == s.reg[s.ram[s.pc + 1] := s.ram[s.pc + 2]];
  }

  /** A MUL of two registers in range: reg[a] := reg[a] * reg[b], pc + 3, nothing printed. */
  lemma MulStep(s: State)
    requires s.pc + 2 < RamSize && s.ram[s.pc] == MUL
    requires 0 <= s.ram[s.pc + 1] < RegCount && 0 <= s.ram[s.pc + 2] < RegCount
    ensures var a, b := s.ram[s.pc + 1], s.ram[s.pc + 2];
      Step(s) == Continue(s.(reg := s.reg[a := s.reg[a] * s.reg[b]], pc := s.pc + 3), [])
  {
    var a, b := s.ram[s.pc + 1], s.ram[s.pc + 2];
    var e := Mul(s).value.next;
    assert e.reg == s.reg[a := s.reg[a] * s.reg[b]];
  }

  /** A PRN of a register in range prints it and moves pc on by 2. */
  lemma PrnStep(s: State)
    requires s.pc + 1 < RamSize && s.ram[s.pc] == PRN && 0 <= s.ram[s.pc + 1] < RegCount
    ensures Step(s) == Continue(s.(pc := s.pc + 2), [s.reg[s.ram[s.pc + 1]]])
  {
  }

  /** The loop goes past an LDI with a register index in range without printing. */
  lemma LdiLoop(s: State, fuel: nat, t: State)
    requires s.running && fuel > 0
    requires s.pc + 2 < RamSize && s.ram[s.pc] == LDI && 0 <= s.ram[s.pc + 1] < RegCount
    requires t == s.(reg := s.reg[s.ram[s.pc + 1] := s.ram[s.pc + 2]], pc := s.pc + 3)
    ensures Loop(s, fuel) == Loop(t, fuel - 1)
  {
    LdiStep(s);
    SilentStep(s, fuel);
  }

  /** The loop goes past a MUL of two registers in range without printing. */
  lemma MulLoop(s: State, fuel: nat, t: State)
    requires s.running && fuel > 0
    requires s.pc + 2 < RamSize && s.ram[s.pc] == MUL
    requires 0 <= s.ram[s.pc + 1] < RegCount && 0 <= s.ram[s.pc + 2] < RegCount
    requires var a, b := s.ram[s.pc + 1], s.ram[s.pc + 2];
      t == s.(reg := s.reg[a := s.reg[a] * s.reg[b]], pc := s.pc + 3)
    ensures Loop(s, fuel) == Loop(t, fuel - 1)
  {
    MulStep(s);
    SilentStep(s, fuel);
  }

  /** PRN r immediately followed by HLT prints reg[r] and ends the run. */
  lemma PrnThenHalt(s: State, fuel: nat)
    requires s.running && fuel > 1
    requires s.pc + 2 < RamSize && s.ram[s.pc] == PRN && 0 <= s.ram[s.pc + 1] < RegCount
    requires s.ram[s.pc + 2] == HLT
    ensures Loop(s, fuel) == Exited(s.(running := false, pc := s.pc + 3), [s.reg[s.ram[s.pc + 1]]])
  {
    PrnStep(s);
    var t := s.(pc := s.pc + 2);
    assert Loop(t, fuel - 1) == Exited(t.(running := false, pc := t.pc + 1), []);
  }

  /** `program` sits in memory from address 0. */
  predicate Holds(ram: Ram, program: seq<int>) {
    |program| <= RamSize && forall k :: 0 <= k < |program| ==> ram[k] == program[k]
  }

  /** The multiply program's first two iterations: LDI R0,8 and LDI R1,9. */
  lemma MultiplyLoads(s: State, t: State)
    requires s.running && s.pc == 0 && Holds(s.ram, MultiplyBytes)
    requires t == s.(reg := s.reg[0 := 8][1 := 9], pc := 6)
    ensures Loop(s, 5) == Loop(t, 3)
  {
    assert s.ram[0] == LDI && s.ram[1] == 0 && s.ram[2] == 8;
    assert s.ram[3] == LDI && s.ram[4] == 1 && s.ram[5] == 9;
    var s1 := s.(reg := s.reg[0 := 8], pc := 3);
    LdiLoop(s, 5, s1);
    LdiLoop(s1, 4, t);
  }

  /** Its last three iterations: MUL R0,R1; PRN R0; HLT, with 8 and 9 in R0 and R1. */
  lemma MultiplyPrints(s: State)
    requires s.running && s.pc == 6 && s.reg[0] == 8 && s.reg[1] == 9
    requires Holds(s.ram, MultiplyBytes)
    ensures Loop(s, 3) == Exited(s.(reg := s.reg[0 := 72], running := false, pc := 12), [72])
  {
    assert s.ram[6] == MUL && s.ram[7] == 0 && s.ram[8] == 1;
    assert s.ram[9] == PRN && s.ram[10] == 0 && s.ram[11] == HLT;
    var t := s.(reg := s.reg[0 := 72], pc := 9);
    MulLoop(s, 3, t);
    PrnThenHalt(t, 2);
  }

  /** The whole program from pc 0: R0 ends as 72, R1 as 9, and 72 is printed. */
  lemma MultiplyLoop(s: State)
    requires s.pc == 0 && s.running && Holds(s.ram, MultiplyBytes)
    ensures Loop(s, 5) == Exited(s.(reg := s.reg[0 := 72][1 := 9], running := false, pc := 12), [72])
  {
    var t := s.(reg := s.reg[0 := 8][1 := 9], pc := 6);
    assert t.reg[0 := 72] == s.reg[0 := 72][1 := 9];
    assert t.(reg := t.reg[0 := 72], running := false, pc := 12) == s.(reg := s.reg[0 := 72][1 := 9], running := false, pc := 12);
    MultiplyLoads(s, t);
    MultiplyPrints(t);
  }

  /** The multiply program, already in memory, prints 72 and halts after five iterations. */
  lemma MultiplyProgramRuns(s: State)
    requires s.pc == 0 && s.running && Holds(s.ram, MultiplyBytes)
    ensures Run(s, 5).Exited? && Run(s, 5).out == [72]
    ensures Run(s, 5).final.reg[0] == 72 && Run(s, 5).final.pc == 12
  {
    MultiplyLoop(Boot(s));
  }

  /** End to end: a program text spelling the multiply program one byte per
      line (comments allowed), loaded into a fresh CPU and run, prints 72 and
      halts after five iterations. */
  lemma MultiplyProgram(lines: seq<string>, bits: seq<string>, pads: seq<string>, comments: seq<string>)
    requires |lines| == |bits| == |pads| == |comments| == |MultiplyBytes|
    requires forall k :: 0 <= k < |bits| ==> |bits[k]| == 8 && Loader.AllBits(bits[k])
    requires forall k :: 0 <= k < |bits| ==> Loader.BitsValue(bits[k]) == MultiplyBytes[k]
    requires forall k :: 0 <= k < |pads| ==> Loader.AllSpace(pads[k])
    requires forall k :: 0 <= k < |lines| ==>
      lines[k] == bits[k] + pads[k] || lines[k] == bits[k] + pads[k] + "#" + comments[k]
    ensures Execute(lines, 5).Ok?
    ensures Execute(lines, 5).value.Exited?
    ensures Execute(lines, 5).value.out == [72]
  {
    Loader.LoadByteLines(Init().ram, lines, bits, pads, comments);
    var s := Cpu.Load(Init(), lines).value;
    MultiplyProgramRuns(s);
  }
}
