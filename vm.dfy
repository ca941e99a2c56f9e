/**
 * The execution engine: machine state, one fetch-decode-execute step as a
 * function of the state, and the `VM` object whose methods update that
 * state in place.
 *
 * Everything the Rust code would panic on (a register index of 32 or more,
 * an operand byte past the end of the program, i32 overflow in a debug
 * build, division by zero, `i32::MIN / -1`, a relative jump that leaves the
 * `usize` range, a heap grown past `isize::MAX`) makes the step `Panicked`;
 * the `VM` methods require that it does not happen.
 */
module Vm {
  import opened Numeric
  import opened Opcodes

  const REGISTER_COUNT := 32

  /** The whole VM state as a value. */
  datatype Machine = Machine(
    registers: seq<int32>,
    pc: nat,
    program: seq<uint8>,
    heap: seq<uint8>,
    remainder: uint32,
    equalFlag: bool)

  predicate WellFormed(m: Machine) {
    |m.registers| == REGISTER_COUNT
  }

  /** `VM::new()`: zeroed registers, empty program and heap. */
  function Initial(): (m: Machine)
    ensures WellFormed(m) && m.pc == 0 && m.program == [] && m.heap == []
  {
    Machine(seq(REGISTER_COUNT, _ => 0), 0, [], [], 0, false)
  }

  /**
   * What one step does: the new state and the boolean the step returns,
   * or a panic.
   */
  datatype Outcome = Stepped(next: Machine, result: bool) | Panicked

  /** `execute_instruction`. */
  function Execute(m: Machine): (o: Outcome)
    requires WellFormed(m)
    ensures o.Stepped? ==> WellFormed(o.next)
    ensures o.Stepped? ==> o.next.program == m.program
  {
    if m.pc >= |m.program| then Stepped(m, true)
    else Dispatch(m.(pc := m.pc + 1), FromByte(m.program[m.pc]))
  }

  /** The arm of the match for `op`, with `pc` already past the opcode byte. */
  function Dispatch(m: Machine, op: Opcode): (o: Outcome)
    requires WellFormed(m)
    ensures o.Stepped? ==> WellFormed(o.next) && o.next.program == m.program
  {
    match op
    case HLT => Stepped(m, true)
    case IGL => Stepped(m, true)
    case LOAD => ExecLoad(m)
    case ADD => ExecArith(m, op)
    case SUB => ExecArith(m, op)
    case MUL => ExecArith(m, op)
    case DIV => ExecArith(m, op)
    case JMP => ExecJump(m, op)
    case JMPF => ExecJump(m, op)
    case JMPB => ExecJump(m, op)
    case EQ => ExecCompare(m, op)
    case NEQ => ExecCompare(m, op)
    case GT => ExecCompare(m, op)
    case LT => ExecCompare(m, op)
    case GTQ => ExecCompare(m, op)
    case LTQ => ExecCompare(m, op)
    case JEQ => ExecBranch(m, op)
    case JNEQ => ExecBranch(m, op)
    case ALOC => ExecAloc(m)
    // "Unrecognized opcode": only the opcode byte is consumed
    case NOP => Stepped(m, false)
  }

  /** The operand byte `k` places after `pc`, if the program has it. */
  predicate HasOperands(m: Machine, count: nat) {
    m.pc + count <= |m.program|
  }

  function OperandByte(m: Machine, k: nat): uint8
    requires m.pc + k < |m.program|
  {
    m.program[m.pc + k]
  }

  /** `LOAD r hi lo`: register r := hi * 256 + lo. */
  function ExecLoad(m: Machine): (o: Outcome)
    requires WellFormed(m)
    ensures o.Stepped? ==> WellFormed(o.next) && o.next.program == m.program
  {
    if !HasOperands(m, 3) || OperandByte(m, 0) >= REGISTER_COUNT then Panicked
    else
      var number := OperandByte(m, 1) as int * 256 + OperandByte(m, 2) as int;
      Stepped(m.(registers := m.registers[OperandByte(m, 0) := number], pc := m.pc + 3), false)
  }

  /** The value an arithmetic opcode computes, if it does not panic. */
  function ArithValue(op: Opcode, a: int32, b: int32): (v: int)
    requires op in {ADD, SUB, MUL, DIV}
    requires op == DIV ==> b != 0
  {
    match op
    case ADD => a + b
    case SUB => a - b
    case MUL => a * b
    case DIV => TruncDiv(a, b)
  }

  /** `ADD/SUB/MUL/DIV src1 src2 dest`. */
  function ExecArith(m: Machine, op: Opcode): (o: Outcome)
    requires WellFormed(m) && op in {ADD, SUB, MUL, DIV}
    ensures o.Stepped? ==> WellFormed(o.next) && o.next.program == m.program
  {
    if !HasOperands(m, 3) then Panicked
    else
      var s1, s2, d := OperandByte(m, 0), OperandByte(m, 1), OperandByte(m, 2);
      if s1 >= REGISTER_COUNT || s2 >= REGISTER_COUNT || d >= REGISTER_COUNT then Panicked
      else
        var a, b := m.registers[s1], m.registers[s2];
        if op == DIV && b == 0 then Panicked
        else
          var v := ArithValue(op, a, b);
          if !InInt32(v) then Panicked
          else
            var m' := m.(registers := m.registers[d := v], pc := m.pc + 3);
            if op == DIV then Stepped(m'.(remainder := AsUint32(TruncRem(a, b))), false)
            else Stepped(m', false)
  }

  /** The relation a comparison opcode tests. */
  function Compare(op: Opcode, a: int32, b: int32): bool
    requires op in {EQ, NEQ, GT, LT, GTQ, LTQ}
  {
    match op
    case EQ => a == b
    case NEQ => a != b
    case GT => a > b
    case LT => a < b
    case GTQ => a >= b
    case LTQ => a <= b
  }

  /** `EQ .. LTQ r1 r2`: only the flag changes; the instruction is 3 bytes. */
  function ExecCompare(m: Machine, op: Opcode): (o: Outcome)
    requires WellFormed(m) && op in {EQ, NEQ, GT, LT, GTQ, LTQ}
    ensures o.Stepped? ==> WellFormed(o.next) && o.next.program == m.program
  {
    if !HasOperands(m, 2) then Panicked
    else
      var r1, r2 := OperandByte(m, 0), OperandByte(m, 1);
      if r1 >= REGISTER_COUNT || r2 >= REGISTER_COUNT then Panicked
      else
        var flag := Compare(op, m.registers[r1], m.registers[r2]);
        Stepped(m.(equalFlag := flag, pc := m.pc + 2), false)
  }

  /** `JMP/JMPF/JMPB r`: absolute, forward and backward jumps. */
  function ExecJump(m: Machine, op: Opcode): (o: Outcome)
    requires WellFormed(m) && op in {JMP, JMPF, JMPB}
    ensures o.Stepped? ==> WellFormed(o.next) && o.next.program == m.program
  {
    if !HasOperands(m, 1) || OperandByte(m, 0) >= REGISTER_COUNT then Panicked
    else
      var target := AsUsize(m.registers[OperandByte(m, 0)]);
      var after := m.pc + 1;
      match op
      case JMP => Stepped(m.(pc := target), false)
      case JMPF =>
        if after + target >= USIZE_LIMIT then Panicked
        else Stepped(m.(pc := after + target), false)
      case JMPB =>
        if after < target then Panicked
        else Stepped(m.(pc := after - target), false)
  }

  /** `JEQ/JNEQ r`: jump to the register's value when the flag says so. */
  function ExecBranch(m: Machine, op: Opcode): (o: Outcome)
    requires WellFormed(m) && op in {JEQ, JNEQ}
    ensures o.Stepped? ==> WellFormed(o.next) && o.next.program == m.program
  {
    if !HasOperands(m, 1) || OperandByte(m, 0) >= REGISTER_COUNT then Panicked
    else
      var target := AsUsize(m.registers[OperandByte(m, 0)]);
      var taken := if op == JEQ then m.equalFlag else !m.equalFlag;
      if taken then Stepped(m.(pc := target), true)
      else Stepped(m.(pc := m.pc + 1), false)
  }

  /** `n` zero bytes, what `resize` fills the new part of the heap with. */
  function Zeros(n: nat): (z: seq<uint8>)
    ensures |z| == n
  {
    if n == 0 then [] else Zeros(n - 1) + [0]
  }

  lemma {:induction false} ZerosAreZero(n: nat)
    ensures forall i :: 0 <= i < n ==> Zeros(n)[i] == 0
  {
    if n > 0 {
      ZerosAreZero(n - 1);
      assert forall i :: 0 <= i < n - 1 ==> Zeros(n)[i] == Zeros(n - 1)[i];
    }
  }

  /** `ALOC r`: the heap grows by the register's value, zero-filled. */
  function ExecAloc(m: Machine): (o: Outcome)
    requires WellFormed(m)
    ensures o.Stepped? ==> WellFormed(o.next) && o.next.program == m.program
  {
    if !HasOperands(m, 1) || OperandByte(m, 0) >= REGISTER_COUNT then Panicked
    else
      var size := AsUsize(m.registers[OperandByte(m, 0)]);
      if |m.heap| + size > ISIZE_MAX then Panicked
      else Stepped(m.(heap := m.heap + Zeros(size), pc := m.pc + 1), false)
  }

  /**
   * The step loop of `run` as written: keep stepping while the step
   * returns true; `fuel` bounds the number of steps.
   */
  datatype RunOutcome = Finished(final: Machine) | OutOfFuel(last: Machine) | RunPanicked

  function RunAsWritten(m: Machine, fuel: nat): (r: RunOutcome)
    requires WellFormed(m)
    ensures r.Finished? ==> WellFormed(r.final)
    ensures r.OutOfFuel? ==> WellFormed(r.last)
    decreases fuel
  {
    if fuel == 0 then OutOfFuel(m)
    else match Execute(m)
      case Panicked => RunPanicked
      case Stepped(m', keepGoing) =>
        if keepGoing then RunAsWritten(m', fuel - 1) else Finished(m')
  }

  /**
   * Whether the step from `m` stops the machine: the end of the program,
   * HLT, IGL, or an opcode without an arm ("Unrecognized opcode found!
   * Terminating!").
   */
  predicate HaltsAt(program: seq<uint8>, pc: nat) {
    pc >= |program| || Stops(FromByte(program[pc]))
  }

  predicate Stops(op: Opcode) {
    op == HLT || op == IGL || op == NOP
  }

  /** The loop `run` evidently means: step until a step halts the machine. */
  function RunToHalt(m: Machine, fuel: nat): (r: RunOutcome)
    requires WellFormed(m)
    ensures r.Finished? ==> WellFormed(r.final)
    ensures r.OutOfFuel? ==> WellFormed(r.last)
    decreases fuel
  {
    if fuel == 0 then OutOfFuel(m)
    else match Execute(m)
      case Panicked => RunPanicked
      case Stepped(m', _) =>
        if HaltsAt(m.program, m.pc) then Finished(m') else RunToHalt(m', fuel - 1)
  }

  /** The corrected loop started from `m` with `fuel` steps ends with `r`. */
  ghost predicate Leads(m: Machine, fuel: nat, r: RunOutcome)
    requires WellFormed(m)
  {
    RunToHalt(m, fuel) == r
  }

  /** The loop `run` as written, started from `m` with `fuel` steps, ends with `r`. */
  ghost predicate LeadsAsWritten(m: Machine, fuel: nat, r: RunOutcome)
    requires WellFormed(m)
  {
    RunAsWritten(m, fuel) == r
  }

  /** A run as written that does not panic takes its first step without panicking. */
  lemma RunAsWrittenFirstStep(m: Machine, fuel: nat, r: RunOutcome)
    requires WellFormed(m) && fuel > 0 && LeadsAsWritten(m, fuel, r) && !r.RunPanicked?
    ensures Execute(m).Stepped?
  {
  }

  /**
   * One turn of the loop `run` as written: the step from `before` leads to
   * `after`; the loop goes on from there while the step returns true.
   */
  lemma RunAsWrittenAdvance(before: Machine, after: Machine, result: bool, fuel: nat, r: RunOutcome)
    requires WellFormed(before) && fuel > 0 && Execute(before) == Stepped(after, result)
    requires LeadsAsWritten(before, fuel, r)
    ensures result ==> LeadsAsWritten(after, fuel - 1, r)
    ensures !result ==> r == Finished(after)
  {
  }

  /** A run that does not panic takes its first step without panicking. */
  lemma RunToHaltFirstStep(m: Machine, fuel: nat)
    requires WellFormed(m) && fuel > 0 && !RunToHalt(m, fuel).RunPanicked?
    ensures Execute(m).Stepped?
  {
  }

  /** One turn of the corrected loop: the step from `before` leads to `after`. */
  lemma RunToHaltAdvance(before: Machine, after: Machine, result: bool, fuel: nat, halted: bool)
    requires WellFormed(before) && fuel > 0 && Execute(before) == Stepped(after, result)
    requires halted == HaltsAt(before.program, before.pc)
    ensures halted ==> RunToHalt(before, fuel) == Finished(after)
    ensures !halted ==> RunToHalt(before, fuel) == RunToHalt(after, fuel - 1)
  {
  }

  /** The VM object: fields updated in place, as in src/vm.rs. */
  class VM {
    var registers: array<int32>
    var pc: nat
    var program: seq<uint8>
    var heap: seq<uint8>
    var remainder: uint32
    var equalFlag: bool

    ghost predicate Valid()
      reads this
    {
      registers.Length == REGISTER_COUNT
    }

    /** The state as a value. */
    ghost function State(): (m: Machine)
      reads this, registers
      requires Valid()
      ensures WellFormed(m)
    {
      Machine(registers[..], pc, program, heap, remainder, equalFlag)
    }

    /** `VM::new`. */
    constructor ()
      ensures Valid() && fresh(registers)
      ensures State() == Initial()
    {
      registers := new int32[REGISTER_COUNT](_ => 0);
      pc := 0;
      program := [];
      heap := [];
      remainder := 0;
      equalFlag := false;
    }

    /** `next_8_bits`: the byte at pc, and pc moves past it. */
    method Next8() returns (b: uint8)
      requires pc < |program|
      modifies this`pc
      ensures b == program[old(pc)] && pc == old(pc) + 1
    {
      b := program[pc];
      pc := pc + 1;
    }

    /**
     * `next_16_bits`: the two bytes at pc, high byte first (the shift by 8
     * and the or of two 8-bit values are a multiply by 256 and an add).
     */
    method Next16() returns (v: uint16)
      requires pc + 1 < |program|
      modifies this`pc
      ensures v == program[old(pc)] as int * 256 + program[old(pc) + 1] as int
      ensures pc == old(pc) + 2
    {
      v := program[pc] as int * 256 + program[pc + 1] as int;
      pc := pc + 2;
    }

    /** `decode_opcode`: the opcode at pc, and pc moves past it. */
    method DecodeOpcode() returns (op: Opcode)
      requires pc < |program|
      modifies this`pc
      ensures op == FromByte(program[old(pc)]) && pc == old(pc) + 1
    {
      op := FromByte(program[pc]);
      pc := pc + 1;
    }

    /** `add_byte`: appends one byte to the program. */
    method AddByte(b: uint8)
      modifies this`program
      ensures program == old(program) + [b]
    {
      program := program + [b];
    }

    /** `execute_instruction`: one step, as `Execute` describes it. */
    method Step() returns (result: bool)
      requires Valid() && Execute(State()).Stepped?
      modifies this`pc, this`heap, this`remainder, this`equalFlag, registers
      ensures Valid()
      ensures Execute(old(State())) == Stepped(State(), result)
    {
      if pc >= |program| {
        return true;
      }
      ghost var m := State().(pc := pc + 1);
      var op := DecodeOpcode();
      assert State() == m;
      assert Execute(old(State())) == Dispatch(m, op);
      match op {
        case HLT =>
          result := true;
        case IGL =>
          result := true;
        case LOAD =>
          result := Load();
        case ADD | SUB | MUL | DIV =>
          result := Arith(op);
        case JMP | JMPF | JMPB =>
          result := Jump(op);
        case EQ | NEQ | GT | LT | GTQ | LTQ =>
          result := Comparison(op);
        case JEQ | JNEQ =>
          result := Branch(op);
        case ALOC =>
          result := Aloc();
        case NOP =>
          result := false;
      }
    }

    /** The LOAD arm. */
    method Load() returns (result: bool)
      requires Valid() && ExecLoad(State()).Stepped?
      modifies this`pc, registers
      ensures ExecLoad(old(State())) == Stepped(State(), result)
    {
      var r := Next8();
      var number := Next16();
      registers[r] := number;
      result := false;
    }

    /** The ALOC arm: the heap is resized to its length plus the register's value. */
    method Aloc() returns (result: bool)
      requires Valid() && ExecAloc(State()).Stepped?
      modifies this`pc, this`heap
      ensures ExecAloc(old(State())) == Stepped(State(), result)
    {
      var r := Next8();
      var size := AsUsize(registers[r]);
      var newLen := |heap| + size;
      heap := heap + Zeros(newLen - |heap|);
      result := false;
    }

    /** The ADD/SUB/MUL/DIV arms. */
    method Arith(op: Opcode) returns (result: bool)
      requires Valid() && op in {ADD, SUB, MUL, DIV} && ExecArith(State(), op).Stepped?
      modifies this`pc, this`remainder, registers
      ensures ExecArith(old(State()), op) == Stepped(State(), result)
    {
      ghost var m := State();
      var s1 := Next8();
      var register1 := registers[s1];
      var s2 := Next8();
      var register2 := registers[s2];
      var d := Next8();
      var value: int32;
      match op {
        case ADD =>
          value := register1 + register2;
        case SUB =>
          value := register1 - register2;
        case MUL =>
          value := register1 * register2;
        case DIV =>
          value := TruncDiv(register1, register2);
          remainder := AsUint32(TruncRem(register1, register2));
      }
      assert value == ArithValue(op, register1, register2);
      registers[d] := value;
      assert registers[..] == m.registers[d := value];
      result := false;
    }

    /** The EQ .. LTQ arms. */
    method Comparison(op: Opcode) returns (result: bool)
      requires Valid() && op in {EQ, NEQ, GT, LT, GTQ, LTQ} && ExecCompare(State(), op).Stepped?
      modifies this`pc, this`equalFlag
      ensures ExecCompare(old(State()), op) == Stepped(State(), result)
    {
      var r1 := Next8();
      var register1 := registers[r1];
      var r2 := Next8();
      var register2 := registers[r2];
      match op {
        case EQ => equalFlag := register1 == register2;
        case NEQ => equalFlag := register1 != register2;
        case GT => equalFlag := register1 > register2;
        case LT => equalFlag := register1 < register2;
        case GTQ => equalFlag := register1 >= register2;
        case LTQ => equalFlag := register1 <= register2;
      }
      result := false;
    }

    /** The JMP/JMPF/JMPB arms. */
    method Jump(op: Opcode) returns (result: bool)
      requires Valid() && op in {JMP, JMPF, JMPB} && ExecJump(State(), op).Stepped?
      modifies this`pc
      ensures ExecJump(old(State()), op) == Stepped(State(), result)
    {
      var r := Next8();
      var target := AsUsize(registers[r]);
      match op {
        case JMP => pc := target;
        case JMPF => pc := pc + target;
        case JMPB => pc := pc - target;
      }
      result := false;
    }

    /** The JEQ/JNEQ arms. */
    method Branch(op: Opcode) returns (result: bool)
      requires Valid() && op in {JEQ, JNEQ} && ExecBranch(State(), op).Stepped?
      modifies this`pc
      ensures ExecBranch(old(State()), op) == Stepped(State(), result)
    {
      var r := Next8();
      var target := AsUsize(registers[r]);
      var taken := if op == JEQ then equalFlag else !equalFlag;
      if taken {
        pc := target;
        return true;
      }
      result := false;
    }

    /** `run_once`: one step, its result discarded. */
    method RunOnce()
      requires Valid() && Execute(State()).Stepped?
      modifies this`pc, this`heap, this`remainder, this`equalFlag, registers
      ensures Valid()
      ensures State() == Execute(old(State())).next
    {
      var _ := Step();
    }

    /** One turn of `run`'s loop as written: the step, and whether the loop goes on. */
    method StepAsWritten(ghost fuel: nat, ghost expected: RunOutcome) returns (isRunning: bool)
      requires Valid() && fuel > 0
      requires LeadsAsWritten(State(), fuel, expected) && !expected.RunPanicked?
      modifies this`pc, this`heap, this`remainder, this`equalFlag, registers
      ensures Valid()
      ensures isRunning ==> LeadsAsWritten(State(), fuel - 1, expected)
      ensures !isRunning ==> expected == Finished(State())
    {
      ghost var before := State();
      RunAsWrittenFirstStep(before, fuel, expected);
      isRunning := Step();
      RunAsWrittenAdvance(before, State(), isRunning, fuel, expected);
    }

    /**
     * `run` as written: loops while the step returns true. Without a step
     * bound it may never return, so `fuel` bounds the steps taken.
     */
    method Run(fuel: nat) returns (finished: bool)
      requires Valid() && !RunAsWritten(State(), fuel).RunPanicked?
      modifies this`pc, this`heap, this`remainder, this`equalFlag, registers
      ensures Valid()
      ensures RunAsWritten(old(State()), fuel)
           == if finished then Finished(State()) else OutOfFuel(State())
    {
      ghost var expected := RunAsWritten(State(), fuel);
      assert LeadsAsWritten(State(), fuel, expected);
      var isRunning := true;
      var steps := 0;
      while isRunning && steps < fuel
        invariant Valid()
        invariant 0 <= steps <= fuel
        invariant !expected.RunPanicked?
        invariant isRunning ==> LeadsAsWritten(State(), fuel - steps, expected)
        invariant !isRunning ==> expected == Finished(State())
        decreases fuel - steps, isRunning
      {
        isRunning := StepAsWritten(fuel - steps, expected);
        steps := steps + 1;
      }
      finished := !isRunning;
    }

    /**
     * One turn of the corrected loop: whether this step halts the machine,
     * then the step. `expected` is where the corrected loop ends.
     */
    method StepUntilHalt(ghost fuel: nat, ghost expected: RunOutcome) returns (halted: bool)
      requires Valid() && fuel > 0
      requires Leads(State(), fuel, expected) && !expected.RunPanicked?
      modifies this`pc, this`heap, this`remainder, this`equalFlag, registers
      ensures Valid()
      ensures halted ==> expected == Finished(State())
      ensures !halted ==> Leads(State(), fuel - 1, expected)
    {
      ghost var before := State();
      RunToHaltFirstStep(before, fuel);
      halted := HaltsAt(program, pc);
      var result := Step();
      RunToHaltAdvance(before, State(), result, fuel, halted);
    }

    /** The corrected loop: step until a step halts the machine. */
    method RunUntilHalt(fuel: nat) returns (finished: bool)
      requires Valid() && !RunToHalt(State(), fuel).RunPanicked?
      modifies this`pc, this`heap, this`remainder, this`equalFlag, registers
      ensures Valid()
      ensures RunToHalt(old(State()), fuel)
           == if finished then Finished(State()) else OutOfFuel(State())
    {
      ghost var expected := RunToHalt(State(), fuel);
      assert Leads(State(), fuel, expected);
      var halted := false;
      var left: nat := fuel;
      while !halted && left > 0
        invariant Valid()
        invariant left <= fuel
        invariant !expected.RunPanicked?
        invariant !halted ==> Leads(State(), left, expected)
        invariant halted ==> expected == Finished(State())
        decreases left, !halted
      {
        halted := StepUntilHalt(left, expected);
        left := left - 1;
      }
      finished := halted;
    }
  }
}
