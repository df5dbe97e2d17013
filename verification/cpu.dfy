/** The LS-8 CPU of ls8/cpu.py: 256 memory cells, 8 registers (register 7
    doubles as the stack pointer), a program counter and a running flag, and
    the fetch-and-execute loop over the six opcodes the program knows.
    Values are unbounded integers, as in Python: nothing wraps at 256. */
module Cpu {
  import opened Runtime
  import Loader

  const RamSize: nat := 256
  const RegCount: nat := 8

  type Ram = m: seq<int> | |m| == 256 witness seq(256, _ => 0)
  type Regs = g: seq<int> | |g| == 8 witness seq(8, _ => 0)

  /** One CPU. The loop's local `pc` and the attribute `self.pc` are one counter here. */
  datatype State = State(ram: Ram, pc: nat, reg: Regs, running: bool)

  // The opcode table `self.machine`.
  const MUL: int := 0xA2   // 0b10100010
  const HLT: int := 0x01   // 0b00000001
  const LDI: int := 0x82   // 0b10000010
  const PRN: int := 0x47   // 0b01000111
  const PUSH: int := 0x45  // 0b01000101
  const POP: int := 0x46   // 0b01000110

  const Opcodes: set<int> := {MUL, HLT, LDI, PRN, PUSH, POP}

  /** The register used as stack pointer, and the value `run` gives it. */
  const SP: nat := 7
  const StackTop: int := 0xF4

  /** A freshly constructed CPU. */
  function Init(): (s: State)
    ensures forall a :: 0 <= a < RamSize ==> s.ram[a] == 0
    ensures forall k :: 0 <= k < RegCount ==> s.reg[k] == 0
    ensures s.pc == 0 && s.running
  {
    State(seq(256, _ => 0), 0, seq(8, _ => 0), true)
  }

  /** `ram_read`: a memory subscript. */
  function RamRead(s: State, address: int): (r: Result<int>)
    ensures r.Ok? <==> -256 <= address < 256
    ensures r.Ok? ==> r.value == s.ram[Wrap(256, address)]
    ensures r.Err? ==> r.fault == RamIndex(address)
  {
    match Slot(|s.ram|, address)
    case Some(a) => Ok(s.ram[a])
    case None => Err(RamIndex(address))
  }

  /** A register-file subscript `self.reg[index]`. */
  function RegRead(s: State, index: int): (r: Result<int>)
    ensures r.Ok? <==> -8 <= index < 8
    ensures r.Ok? ==> r.value == s.reg[Wrap(8, index)]
    ensures r.Err? ==> r.fault == RegIndex(index)
  {
    match Slot(|s.reg|, index)
    case Some(k) => Ok(s.reg[k])
    case None => Err(RegIndex(index))
  }

  /** `ram_write`: despite its name it stores into the REGISTER FILE; memory,
      pc and the running flag are untouched. */
  function RamWrite(s: State, index: int, value: int): (r: Result<State>)
    ensures r.Ok? <==> -8 <= index < 8
    ensures r.Ok? ==> r.value.ram == s.ram && r.value.pc == s.pc && r.value.running == s.running
    ensures r.Ok? ==> r.value.reg[Wrap(8, index)] == value
    ensures r.Ok? ==> forall k :: 0 <= k < RegCount && k != Wrap(8, index) ==> r.value.reg[k] == s.reg[k]
    ensures r.Err? ==> r.fault == RegIndex(index)
  {
    match Slot(|s.reg|, index)
    case Some(k) => Ok(s.(reg := s.reg[k := value]))
    case None => Err(RegIndex(index))
  }

  /** A memory store `self.ram[address] = value`. */
  function RamStore(s: State, address: int, value: int): (r: Result<State>)
    ensures r.Ok? <==> -256 <= address < 256
    ensures r.Ok? ==> r.value.reg == s.reg && r.value.pc == s.pc && r.value.running == s.running
    ensures r.Ok? ==> r.value.ram[Wrap(256, address)] == value
    ensures r.Ok? ==> forall a :: 0 <= a < RamSize && a != Wrap(256, address) ==> r.value.ram[a] == s.ram[a]
  {
    match Slot(|s.ram|, address)
    case Some(a) => Ok(s.(ram := s.ram[a := value]))
    case None => Err(RamIndex(address))
  }

  /** `reg[a] += reg[b]` or `reg[a] *= reg[b]`: reg[a] is read before reg[b],
      so a bad `a` is the IndexError reported. */
  function Combine(regs: Regs, a: int, b: int, multiply: bool): (r: Result<Regs>)
    ensures r.Ok? <==> -8 <= a < 8 && -8 <= b < 8
    ensures r.Err? ==> r.fault == RegIndex(if -8 <= a < 8 then b else a)
  {
    match (Slot(8, a), Slot(8, b))
    case (None, _) => Err(RegIndex(a))
    case (_, None) => Err(RegIndex(b))
    case (Some(i), Some(j)) =>
      Ok(regs[i := if multiply then regs[i] * regs[j] else regs[i] + regs[j]])
  }

  /** `alu` exactly as written: `if op == "ADD": ...` followed by a separate
      `if op == "MUL": ... else: raise`, so every op but "MUL" raises, "ADD"
      included (after its addition has been done). */
  function AluAsWritten(op: string, regs: Regs, a: int, b: int): (r: Result<Regs>)
    ensures r.Ok? <==> op == "MUL" && -8 <= a < 8 && -8 <= b < 8
  {
    var added :- if op == "ADD" then Combine(regs, a, b, false) else Ok(regs);
    if op == "MUL" then Combine(added, a, b, true) else Err(UnsupportedAluOp(op))
  }

  /** `alu` as evidently intended (an if/elif/else chain): ADD adds, MUL
      multiplies, anything else raises. No result is reduced modulo 256. */
  function Alu(op: string, regs: Regs, a: int, b: int): (r: Result<Regs>)
    ensures r.Ok? <==> (op == "ADD" || op == "MUL") && -8 <= a < 8 && -8 <= b < 8
    ensures op != "ADD" && op != "MUL" ==> r == Err(UnsupportedAluOp(op))
    ensures r.Ok? && op == "ADD" ==> r.value[Wrap(8, a)] == regs[Wrap(8, a)] + regs[Wrap(8, b)]
    ensures r.Ok? && op == "MUL" ==> r.value[Wrap(8, a)] == regs[Wrap(8, a)] * regs[Wrap(8, b)]
    ensures r.Ok? ==> forall k :: 0 <= k < RegCount && k != Wrap(8, a) ==> r.value[k] == regs[k]
  {
    if op == "ADD" then Combine(regs, a, b, false)
    else if op == "MUL" then Combine(regs, a, b, true)
    else Err(UnsupportedAluOp(op))
  }

  /** The effect of one handler: the next state and what it printed. */
  datatype Effect = Effect(next: State, out: seq<int>)

  /** LDI: `ram_write(ram[pc+1], ram[pc+2])`, then pc += 3. */
  function Ldi(s: State): (r: Result<Effect>)
    ensures r.Ok? <==> s.pc + 2 < RamSize && -8 <= s.ram[s.pc + 1] < 8
    ensures r.Ok? ==> r.value.out == [] && r.value.next.pc == s.pc + 3
    ensures r.Ok? ==> r.value.next.ram == s.ram && r.value.next.running == s.running
    ensures r.Ok? ==> r.value.next.reg[Wrap(8, s.ram[s.pc + 1])] == s.ram[s.pc + 2]
    ensures r.Ok? ==> forall k :: 0 <= k < RegCount && k != Wrap(8, s.ram[s.pc + 1]) ==> r.value.next.reg[k] == s.reg[k]
  {
    var index :- RamRead(s, s.pc + 1);
    var value :- RamRead(s, s.pc + 2);
    var t :- RamWrite(s, index, value);
    Ok(Effect(t.(pc := s.pc + 3), []))
  }

  /** PRN: print `reg[ram[pc+1]]`, then pc += 2. Nothing else changes. */
  function Prn(s: State): (r: Result<Effect>)
    ensures r.Ok? <==> s.pc + 1 < RamSize && -8 <= s.ram[s.pc + 1] < 8
    ensures r.Ok? ==> r.value.next == s.(pc := s.pc + 2)
    ensures r.Ok? ==> r.value.out == [s.reg[Wrap(8, s.ram[s.pc + 1])]]
  {
    var index :- RamRead(s, s.pc + 1);
    var value :- RegRead(s, index);
    Ok(Effect(s.(pc := s.pc + 2), [value]))
  }

  /** MUL: `alu("MUL", ram[pc+1], ram[pc+2])`, then pc += 3. */
  function Mul(s: State): (r: Result<Effect>)
    ensures r.Ok? <==> s.pc + 2 < RamSize && -8 <= s.ram[s.pc + 1] < 8 && -8 <= s.ram[s.pc + 2] < 8
    ensures r.Ok? ==> r.value.out == [] && r.value.next.pc == s.pc + 3
    ensures r.Ok? ==> r.value.next.ram == s.ram && r.value.next.running == s.running
    ensures r.Ok? ==> var a, b := Wrap(8, s.ram[s.pc + 1]), Wrap(8, s.ram[s.pc + 2]);
      && r.value.next.reg[a] == s.reg[a] * s.reg[b]
      && forall k :: 0 <= k < RegCount && k != a ==> r.value.next.reg[k] == s.reg[k]
  {
    var a :- RamRead(s, s.pc + 1);
    var b :- RamRead(s, s.pc + 2);
    var regs :- Alu("MUL", s.reg, a, b);
    Ok(Effect(s.(reg := regs, pc := s.pc + 3), []))
  }

  /** PUSH: decrement reg[7], then store `reg[ram[pc+1]]` (read after the
      decrement) at `ram[reg[7]]`, then pc += 2. */
  function Push(s: State): (r: Result<Effect>)
    ensures r.Ok? <==> s.pc + 1 < RamSize && -8 <= s.ram[s.pc + 1] < 8 && -256 <= s.reg[SP] - 1 < 256
    ensures r.Ok? ==> r.value.out == [] && r.value.next.pc == s.pc + 2 && r.value.next.running == s.running
    ensures r.Ok? ==> var k := Wrap(8, s.ram[s.pc + 1]);
      && r.value.next.reg == s.reg[SP := s.reg[SP] - 1]
      && r.value.next.ram[Wrap(256, s.reg[SP] - 1)] == (if k == SP then s.reg[SP] - 1 else s.reg[k])
    ensures r.Ok? ==> forall a :: 0 <= a < RamSize && a != Wrap(256, s.reg[SP] - 1) ==> r.value.next.ram[a] == s.ram[a]
  {
    var lowered := s.(reg := s.reg[SP := s.reg[SP] - 1]);
    var index :- RamRead(lowered, s.pc + 1);
    var value :- RegRead(lowered, index);
    var stored :- RamStore(lowered, lowered.reg[SP], value);
    Ok(Effect(stored.(pc := s.pc + 2), []))
  }

  /** POP: `reg[ram[pc+1]] = ram[reg[7]]`, then reg[7] += 1 (reading reg[7]
      after that store), then pc += 2. Memory is left as it was: the popped
      cell is not cleared. */
  function Pop(s: State): (r: Result<Effect>)
    ensures r.Ok? <==> s.pc + 1 < RamSize && -8 <= s.ram[s.pc + 1] < 8 && -256 <= s.reg[SP] < 256
    ensures r.Ok? ==> r.value.out == [] && r.value.next.pc == s.pc + 2 && r.value.next.running == s.running
    ensures r.Ok? ==> r.value.next.ram == s.ram
    ensures r.Ok? ==> var k, v := Wrap(8, s.ram[s.pc + 1]), s.ram[Wrap(256, s.reg[SP])];
      r.value.next.reg == s.reg[k := v][SP := (if k == SP then v else s.reg[SP]) + 1]
  {
    var sp := s.reg[SP];
    var index :- RamRead(s, s.pc + 1);
    var value :- RamRead(s, sp);
    var t :- RamWrite(s, index, value);
    Ok(Effect(t.(reg := t.reg[SP := t.reg[SP] + 1], pc := s.pc + 2), []))
  }

  /** The result of one iteration of `run`'s loop. */
  datatype StepResult =
    | Continue(next: State, out: seq<int>)  // the loop goes round again
    | Halted(final: State)                  // HLT: running := false, pc += 1, sys.exit()
    | Raised(fault: Fault)                  // an uncaught exception ends the program

  function Lift(r: Result<Effect>): StepResult {
    match r
    case Ok(e) => Continue(e.next, e.out)
    case Err(f) => Raised(f)
  }

  /** One iteration, as a dispatch on the fetched opcode: at most one handler
      runs, and an opcode outside the table changes nothing at all. */
  function Step(s: State): (r: StepResult)
    ensures s.pc >= RamSize ==> r == Raised(RamIndex(s.pc))
    ensures r.Halted? <==> s.pc < RamSize && s.ram[s.pc] == HLT
    ensures r.Halted? ==> r.final == s.(running := false, pc := s.pc + 1)
    ensures s.pc < RamSize && s.ram[s.pc] !in Opcodes ==> r == Continue(s, [])
    ensures r.Continue? ==> |r.out| <= 1 && r.next.running == s.running
  {
    match RamRead(s, s.pc)
    case Err(f) => Raised(f)
    case Ok(ir) =>
      if ir == HLT then Halted(s.(running := false, pc := s.pc + 1))
      else if ir == LDI then Lift(Ldi(s))
      else if ir == PRN then Lift(Prn(s))
      else if ir == MUL then Lift(Mul(s))
      else if ir == PUSH then Lift(Push(s))
      else if ir == POP then Lift(Pop(s))
      else Continue(s, [])
  }

  /** One `if ir == ...:` block of the loop body: when it fires, its handler
      runs on the state the earlier blocks left. */
  function Then(r: Result<Effect>, fires: bool, handler: State -> Result<Effect>): Result<Effect> {
    if !fires then r
    else match r
      case Err(_) => r
      case Ok(e) =>
        match handler(e.next)
        case Err(f) => Err(f)
        case Ok(e') => Ok(Effect(e'.next, e.out + e'.out))
  }

  /** One iteration exactly as written: six separate `if` blocks tested in
      turn against the same fetched `ir`. */
  function StepAsWritten(s: State): (r: StepResult)
    ensures s.pc >= RamSize ==> r == Raised(RamIndex(s.pc))
    ensures r.Halted? <==> s.pc < RamSize && s.ram[s.pc] == HLT
    ensures s.pc < RamSize && s.ram[s.pc] !in Opcodes ==> r == Continue(s, [])
  {
    match RamRead(s, s.pc)
    case Err(f) => Raised(f)
    case Ok(ir) =>
      if ir == HLT then Halted(s.(running := false, pc := s.pc + 1))
      else
        var start := Ok(Effect(s, []));
        var afterLdi := Then(start, ir == LDI, Ldi);
        var afterPrn := Then(afterLdi, ir == PRN, Prn);
        var afterMul := Then(afterPrn, ir == MUL, Mul);
        var afterPush := Then(afterMul, ir == PUSH, Push);
        Lift(Then(afterPush, ir == POP, Pop))
  }

  /** Because the six opcodes are pairwise distinct, the chain of `if` blocks
      is the same as a dispatch: exactly one block (or none) fires. */
  lemma StepAsWrittenIsDispatch(s: State)
    ensures |Opcodes| == 6
    ensures StepAsWritten(s) == Step(s)
  {
  }

  /** How a run ends. */
  datatype Outcome =
    | Exited(final: State, out: seq<int>)    // HLT, or the loop found running false
    | Crashed(fault: Fault, out: seq<int>)   // an uncaught exception
    | OutOfFuel(last: State, out: seq<int>)  // still running after the allotted steps

  function Prepend(out: seq<int>, r: Outcome): (r': Outcome)
    ensures r'.out == out + r.out
    ensures r'.Exited? == r.Exited? && r'.Crashed? == r.Crashed? && r'.OutOfFuel? == r.OutOfFuel?
    ensures r'.Exited? ==> r'.final == r.final
    ensures r'.OutOfFuel? ==> r'.last == r.last
    ensures r'.Crashed? ==> r'.fault == r.fault
  {
    match r
    case Exited(t, o) => Exited(t, out + o)
    case Crashed(f, o) => Crashed(f, out + o)
    case OutOfFuel(t, o) => OutOfFuel(t, out + o)
  }

  /** `while self.running:` for at most `fuel` iterations, collecting what PRN prints. */
  function Loop(s: State, fuel: nat): (r: Outcome)
    ensures r.Exited? ==> !r.final.running
    ensures r.OutOfFuel? ==> r.last.running
    ensures |r.out| <= fuel
    decreases fuel
  {
    if !s.running then Exited(s, [])
    else if fuel == 0 then OutOfFuel(s, [])
    else match Step(s)
      case Halted(t) => Exited(t, [])
      case Raised(f) => Crashed(f, [])
      case Continue(t, o) => Prepend(o, Loop(t, fuel - 1))
  }

  /** What `run` does before its loop: seed the stack pointer. */
  function Boot(s: State): (t: State)
    ensures t.reg[SP] == StackTop
    ensures forall k :: 0 <= k < RegCount && k != SP ==> t.reg[k] == s.reg[k]
    ensures t.ram == s.ram && t.pc == s.pc && t.running == s.running
  {
    s.(reg := s.reg[SP := StackTop])
  }

  /** `run`, bounded by `fuel` iterations: reg[7] is seeded before the first
      test of `running`, so even a run that does nothing leaves it at 0xF4. */
  function Run(s: State, fuel: nat): (r: Outcome)
    ensures r.Exited? ==> !r.final.running
    ensures r.OutOfFuel? ==> r.last.running
    ensures |r.out| <= fuel
    ensures !s.running ==> r == Exited(s.(reg := s.reg[SP := StackTop]), [])
    ensures s.running && fuel == 0 ==> r == OutOfFuel(s.(reg := s.reg[SP := StackTop]), [])
    ensures s.running && fuel > 0 && s.pc < RamSize && s.ram[s.pc] == HLT ==>
      r == Exited(s.(reg := s.reg[SP := StackTop], running := false, pc := s.pc + 1), [])
  {
    Loop(Boot(s), fuel)
  }

  /** `load`: the program text into memory from address 0; registers, pc and
      the running flag are untouched. */
  function Load(s: State, lines: seq<string>): (r: Result<State>)
    ensures r.Ok? <==> Loader.Load(s.ram, lines).Ok?
    ensures r.Ok? ==> r.value == s.(ram := Loader.Load(s.ram, lines).value.ram)
  {
    var image :- Loader.Load(s.ram, lines);
    Ok(s.(ram := image.ram))
  }

  /** A fresh CPU, loaded with `lines` and run for at most `fuel` iterations. */
  function Execute(lines: seq<string>, fuel: nat): Result<Outcome> {
    var s :- Load(Init(), lines);
    Ok(Run(s, fuel))
  }
}
