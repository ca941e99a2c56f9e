/**
 * What one step of the VM does, opcode by opcode, stated as whole-state
 * equations ("this changes, nothing else does"), together with the
 * scenarios of the VM's tests and the behaviour of the `run` loop.
 */
module VmProperties {
  import opened Numeric
  import opened Opcodes
  import opened Vm

  /** The opcode the step from `m` decodes (requires a byte at pc). */
  function OpAt(m: Machine): Opcode
    requires m.pc < |m.program|
  {
    FromByte(m.program[m.pc])
  }

  /** How many bytes an instruction with this opcode occupies, opcode included. */
  function Width(op: Opcode): nat {
    match op
    case LOAD => 4
    case ADD => 4
    case SUB => 4
    case MUL => 4
    case DIV => 4
    case EQ => 3
    case NEQ => 3
    case GT => 3
    case LT => 3
    case GTQ => 3
    case LTQ => 3
    case JMP => 2
    case JMPF => 2
    case JMPB => 2
    case JEQ => 2
    case JNEQ => 2
    case ALOC => 2
    case HLT => 1
    case IGL => 1
    case NOP => 1
  }

  /** Opcodes after which execution continues at the next instruction. */
  predicate FallsThrough(op: Opcode) {
    op !in {JMP, JMPF, JMPB, JEQ, JNEQ}
  }

  // ---------------------------------------------------------------------
  // Terminal and fall-through steps

  /** Past the end of the program a step returns true and changes nothing. */
  lemma StepPastEnd(m: Machine)
    requires WellFormed(m) && m.pc >= |m.program|
    ensures Execute(m) == Stepped(m, true)
  {
  }

  /**
   * HLT and IGL move pc past the opcode byte and return true; an opcode
   * with no arm of its own does the same but returns false.
   */
  lemma HaltingAndUnrecognizedSteps(m: Machine)
    requires WellFormed(m) && m.pc < |m.program| && OpAt(m) in {HLT, IGL, NOP}
    ensures Execute(m) == Stepped(m.(pc := m.pc + 1), OpAt(m) != NOP)
  {
  }

  /** A byte outside the table halts the step without touching any register. */
  lemma UnknownByteHalts(m: Machine)
    requires WellFormed(m) && m.pc < |m.program| && FromByte(m.program[m.pc]) == IGL
    ensures Execute(m) == Stepped(m.(pc := m.pc + 1), true)
    ensures Execute(m).next.registers == m.registers
  {
  }

  // ---------------------------------------------------------------------
  // LOAD

  /**
   * `LOAD r hi lo` puts the zero-extended big-endian 16-bit value into
   * register r and moves pc by 4; it panics exactly when a byte is missing
   * or r is not a register.
   */
  lemma LoadStep(m: Machine)
    requires WellFormed(m) && m.pc < |m.program| && OpAt(m) == LOAD
    ensures Execute(m).Panicked? <==> m.pc + 3 >= |m.program| || m.program[m.pc + 1] >= REGISTER_COUNT
    ensures Execute(m).Stepped? ==>
      var r, hi, lo := m.program[m.pc + 1], m.program[m.pc + 2] as int, m.program[m.pc + 3] as int;
      && 0 <= hi * 256 + lo < 0x1_0000
      && Execute(m) == Stepped(m.(registers := m.registers[r := hi * 256 + lo], pc := m.pc + 4), false)
  {
  }

  // ---------------------------------------------------------------------
  // ADD, SUB, MUL, DIV

  /**
   * The arithmetic opcodes read src1, src2 and dest in that order and set
   * dest to `reg[src1] op reg[src2]` (Rust's truncating quotient for DIV,
   * which alone also sets the remainder); pc moves by 4.
   */
  lemma ArithStep(m: Machine)
    requires WellFormed(m) && m.pc < |m.program| && OpAt(m) in {ADD, SUB, MUL, DIV}
    ensures Execute(m).Stepped? ==>
      && m.pc + 3 < |m.program|
      && var s1, s2, d := m.program[m.pc + 1], m.program[m.pc + 2], m.program[m.pc + 3];
      && s1 < REGISTER_COUNT && s2 < REGISTER_COUNT && d < REGISTER_COUNT
      && var a, b := m.registers[s1], m.registers[s2];
      && var v := match OpAt(m)
           case ADD => a + b
           case SUB => a - b
           case MUL => a * b
           case DIV => if b == 0 then 0 else TruncDiv(a, b);
      && (OpAt(m) == DIV ==> b != 0)
      && InInt32(v)
      && Execute(m) == Stepped(m.(registers := m.registers[d := v], pc := m.pc + 4,
           remainder := if OpAt(m) == DIV then AsUint32(TruncRem(a, b)) else m.remainder), false)
  {
  }

  /** Arithmetic panics exactly on a missing byte, a bad index, division by zero or overflow. */
  lemma ArithPanics(m: Machine)
    requires WellFormed(m) && m.pc + 3 < |m.program| && OpAt(m) in {ADD, SUB, MUL, DIV}
    requires m.program[m.pc + 1] < REGISTER_COUNT && m.program[m.pc + 2] < REGISTER_COUNT
    requires m.program[m.pc + 3] < REGISTER_COUNT
    ensures var a, b := m.registers[m.program[m.pc + 1]], m.registers[m.program[m.pc + 2]];
      Execute(m).Panicked? <==>
        match OpAt(m)
        case ADD => !InInt32(a as int + b)
        case SUB => !InInt32(a as int - b)
        case MUL => !InInt32(a as int * b)
        case DIV => b == 0 || (a == -0x8000_0000 && b == -1)
  {
    var a, b := m.registers[m.program[m.pc + 1]], m.registers[m.program[m.pc + 2]];
    if OpAt(m) == DIV && b != 0 {
      DivOverflowsOnlyAtMinByMinusOne(a, b);
    }
  }

  /** The quotient of two i32 values leaves the i32 range only for `i32::MIN / -1`. */
  lemma DivOverflowsOnlyAtMinByMinusOne(a: int32, b: int32)
    requires b != 0
    ensures !InInt32(TruncDiv(a, b)) <==> a == -0x8000_0000 && b == -1
  {
    var n := Abs(a) / Abs(b);
    if Abs(b) >= 2 {
      assert n <= Abs(a) / 2 by {
        DivMonotone(Abs(a), Abs(b));
      }
    }
  }

  lemma DivMonotone(x: nat, y: nat)
    requires y >= 2
    ensures x / y <= x / 2
  {
    var q := x / y;
    assert y * q <= x;
    assert 2 * q <= y * q;
  }

  /** Rust's `/` and `%`: 10 / 3 = 3 rem 1, and -7 / 2 = -3 rem -1 (stored as 2^32 - 1). */
  lemma DivExamples()
    ensures TruncDiv(10, 3) == 3 && AsUint32(TruncRem(10, 3)) == 1
    ensures TruncDiv(-7, 2) == -3 && TruncRem(-7, 2) == -1
    ensures AsUint32(TruncRem(-7, 2)) == 0xFFFF_FFFF
  {
  }

  // ---------------------------------------------------------------------
  // Comparisons

  /**
   * EQ .. LTQ take 3 bytes and set only the flag, to the relation between
   * the two registers.
   */
  lemma CompareStep(m: Machine)
    requires WellFormed(m) && m.pc < |m.program| && OpAt(m) in {EQ, NEQ, GT, LT, GTQ, LTQ}
    ensures Execute(m).Panicked? <==>
      m.pc + 2 >= |m.program| || m.program[m.pc + 1] >= REGISTER_COUNT || m.program[m.pc + 2] >= REGISTER_COUNT
    ensures Execute(m).Stepped? ==>
      var a, b := m.registers[m.program[m.pc + 1]], m.registers[m.program[m.pc + 2]];
      var holds := match OpAt(m)
        case EQ => a == b
        case NEQ => a != b
        case GT => a > b
        case LT => a < b
        case GTQ => a >= b
        case LTQ => a <= b;
      Execute(m) == Stepped(m.(equalFlag := holds, pc := m.pc + 3), false)
  {
  }

  // ---------------------------------------------------------------------
  // Jumps

  /**
   * JMP goes to the register's value; JMPF and JMPB add it to, or subtract
   * it from, the pc just past the operand byte (old pc + 2). The value is
   * taken `as usize`, so a negative register is a target 2^64 below its
   * value (a jump far past the end, or a panic for JMPF and JMPB).
   */
  lemma JumpStep(m: Machine)
    requires WellFormed(m) && m.pc + 1 < |m.program| && OpAt(m) in {JMP, JMPF, JMPB}
    requires m.program[m.pc + 1] < REGISTER_COUNT
    ensures var v := AsUsize(m.registers[m.program[m.pc + 1]]);
      match OpAt(m)
      case JMP => Execute(m) == Stepped(m.(pc := v), false)
      case JMPF =>
        if m.pc + 2 + v < USIZE_LIMIT then Execute(m) == Stepped(m.(pc := m.pc + 2 + v), false)
        else Execute(m).Panicked?
      case JMPB =>
        if v <= m.pc + 2 then Execute(m) == Stepped(m.(pc := m.pc + 2 - v), false)
        else Execute(m).Panicked?
  {
  }

  /**
   * JEQ (JNEQ) jumps to the register's value and returns true when the
   * flag is set (clear); otherwise pc moves by 2 and the step returns false.
   */
  lemma BranchStep(m: Machine)
    requires WellFormed(m) && m.pc + 1 < |m.program| && OpAt(m) in {JEQ, JNEQ}
    requires m.program[m.pc + 1] < REGISTER_COUNT
    ensures var target := AsUsize(m.registers[m.program[m.pc + 1]]);
      if m.equalFlag == (OpAt(m) == JEQ) then Execute(m) == Stepped(m.(pc := target), true)
      else Execute(m) == Stepped(m.(pc := m.pc + 2), false)
  {
  }

  // ---------------------------------------------------------------------
  // ALOC

  /**
   * ALOC grows the heap by exactly the register's value: earlier bytes stay,
   * new bytes are 0, and nothing else but pc changes. It panics exactly on
   * a missing byte, a bad index, a negative size or a length past
   * `isize::MAX`.
   */
  lemma AlocStep(m: Machine)
    requires WellFormed(m) && m.pc < |m.program| && OpAt(m) == ALOC
    ensures Execute(m).Panicked? <==>
      || m.pc + 1 >= |m.program| || m.program[m.pc + 1] >= REGISTER_COUNT
      || m.registers[m.program[m.pc + 1]] < 0
      || |m.heap| + m.registers[m.program[m.pc + 1]] > ISIZE_MAX
    ensures Execute(m).Stepped? ==>
      && m.pc + 1 < |m.program| && m.program[m.pc + 1] < REGISTER_COUNT
      && var size := m.registers[m.program[m.pc + 1]];
      && var h := Execute(m).next.heap;
      && size >= 0
      && |h| == |m.heap| + size
      && (forall i :: 0 <= i < |m.heap| ==> h[i] == m.heap[i])
      && (forall i :: |m.heap| <= i < |h| ==> h[i] == 0)
      && Execute(m) == Stepped(m.(heap := h, pc := m.pc + 2), false)
  {
    if Execute(m).Stepped? {
      ZerosAreZero(AsUsize(m.registers[m.program[m.pc + 1]]));
    }
  }

  /** A negative size can never be allocated. */
  lemma AlocNegativePanics(m: Machine)
    requires WellFormed(m) && m.pc + 1 < |m.program| && OpAt(m) == ALOC
    requires m.program[m.pc + 1] < REGISTER_COUNT && m.registers[m.program[m.pc + 1]] < 0
    ensures Execute(m).Panicked?
  {
  }

  // ---------------------------------------------------------------------
  // Whole-step facts

  /**
   * Every instruction that falls through moves pc by exactly its width,
   * and a step that does not panic never changes the program or shrinks
   * the heap.
   */
  lemma StepWidth(m: Machine)
    requires WellFormed(m) && m.pc < |m.program| && Execute(m).Stepped?
    ensures FallsThrough(OpAt(m)) ==> Execute(m).next.pc == m.pc + Width(OpAt(m))
    ensures Execute(m).next.program == m.program
    ensures |m.heap| <= |Execute(m).next.heap| && Execute(m).next.heap[..|m.heap|] == m.heap
  {
  }

  // ---------------------------------------------------------------------
  // The VM's tests, step by step

  /** A machine as the tests set it up: `VM::new()` then a program. */
  function TestVm(program: seq<uint8>): (m: Machine)
    ensures WellFormed(m)
  {
    Initial().(program := program)
  }

  /** `[1, 0, 1, 244]` loads 500 (= 1 * 256 + 244, big-endian) into register 0. */
  lemma LoadTest()
    ensures Execute(TestVm([1, 0, 1, 244])).next.registers[0] == 500
  {
  }

  /** JMP to register 0 = 1 sets pc to 1. */
  lemma JmpTest()
    ensures var m := TestVm([6, 0, 0, 0]).(registers := Initial().registers[0 := 1]);
      Execute(m) == Stepped(m.(pc := 1), false)
  {
  }

  /** JMPF by register 0 = 2 from pc 0 lands on 4. */
  lemma JmpfTest()
    ensures var m := TestVm([7, 0, 0, 0, 6, 0, 0, 0]).(registers := Initial().registers[0 := 2]);
      Execute(m) == Stepped(m.(pc := 4), false)
  {
  }

  /**
   * The JMPB test starts at pc 4, where the byte is 6: the step runs JMP
   * (pc := 2, what the test expects), never the JMPB at 0. Had a JMPB been
   * at pc 4, pc would have become 4 + 2 - 2 = 4.
   */
  lemma JmpbTestRunsJmp()
    ensures var m := TestVm([8, 0, 0, 0, 6, 0, 0, 0]).(registers := Initial().registers[0 := 2], pc := 4);
      OpAt(m) == JMP && Execute(m) == Stepped(m.(pc := 2), false)
    ensures var m := TestVm([8, 0, 0, 0, 8, 0, 0, 0]).(registers := Initial().registers[0 := 2], pc := 4);
      Execute(m) == Stepped(m.(pc := 4), false)
  {
  }

  /**
   * The LTQ test lays its instructions out 4 bytes apart, but LTQ is 3
   * bytes long: the second `run_once` executes the 0 at pc 3 as HLT, and
   * the flag is still true only because nothing touched it.
   */
  lemma LtqTestTrace()
    ensures
      var m0 := TestVm([14, 0, 1, 0, 14, 0, 1, 0, 14, 0, 1, 0]).(registers := Initial().registers[0 := 10][1 := 20]);
      var m1 := Execute(m0).next;
      && m1.equalFlag && m1.pc == 3
      && var m2 := Execute(m1.(registers := m1.registers[1 := 10])).next;
      && OpAt(m1) == HLT && m2.equalFlag && m2.pc == 4
      && var m3 := Execute(m2.(registers := m2.registers[1 := 5])).next;
      && !m3.equalFlag && m3.pc == 7
  {
    var m0 := TestVm([14, 0, 1, 0, 14, 0, 1, 0, 14, 0, 1, 0]).(registers := Initial().registers[0 := 10][1 := 20]);
    CompareStep(m0);
    var m1 := m0.(equalFlag := true, pc := 3);
    assert Execute(m0).next == m1;
    var m1' := m1.(registers := m1.registers[1 := 10]);
    HaltingAndUnrecognizedSteps(m1');
    var m2 := m1'.(pc := 4);
    assert Execute(m1').next == m2;
    CompareStep(m2.(registers := m2.registers[1 := 5]));
  }

  /** The EQ test: flag true for 10 == 10, then false for 10 == 20. */
  lemma EqTest()
    ensures
      var m0 := TestVm([9, 0, 1, 9, 0, 1]).(registers := Initial().registers[0 := 10][1 := 10]);
      var m1 := Execute(m0).next;
      && m1.equalFlag
      && !Execute(m1.(registers := m1.registers[1 := 20])).next.equalFlag
  {
    var m0 := TestVm([9, 0, 1, 9, 0, 1]).(registers := Initial().registers[0 := 10][1 := 10]);
    CompareStep(m0);
    var m1 := m0.(equalFlag := true, pc := 3);
    assert Execute(m0).next == m1;
    CompareStep(m1.(registers := m1.registers[1 := 20]));
  }

  /** The NEQ test: flag false for 10 != 10, then true for 10 != 20. */
  lemma NeqTest()
    ensures
      var m0 := TestVm([10, 0, 1, 10, 0, 1]).(registers := Initial().registers[0 := 10][1 := 10]);
      var m1 := Execute(m0).next;
      && !m1.equalFlag
      && Execute(m1.(registers := m1.registers[1 := 20])).next.equalFlag
  {
    var m0 := TestVm([10, 0, 1, 10, 0, 1]).(registers := Initial().registers[0 := 10][1 := 10]);
    CompareStep(m0);
    var m1 := m0.(equalFlag := false, pc := 3);
    assert Execute(m0).next == m1;
    CompareStep(m1.(registers := m1.registers[1 := 20]));
  }

  /** The GT test: flag true for 20 > 10, then false for 20 > 30. */
  lemma GtTest()
    ensures
      var m0 := TestVm([11, 0, 1, 11, 0, 1]).(registers := Initial().registers[0 := 20][1 := 10]);
      var m1 := Execute(m0).next;
      && m1.equalFlag
      && !Execute(m1.(registers := m1.registers[1 := 30])).next.equalFlag
  {
    var m0 := TestVm([11, 0, 1, 11, 0, 1]).(registers := Initial().registers[0 := 20][1 := 10]);
    CompareStep(m0);
    var m1 := m0.(equalFlag := true, pc := 3);
    assert Execute(m0).next == m1;
    CompareStep(m1.(registers := m1.registers[1 := 30]));
  }

  /** The LT test: flag true for 10 < 20, then false for 10 < 5. */
  lemma LtTest()
    ensures
      var m0 := TestVm([12, 0, 1, 12, 0, 1]).(registers := Initial().registers[0 := 10][1 := 20]);
      var m1 := Execute(m0).next;
      && m1.equalFlag
      && !Execute(m1.(registers := m1.registers[1 := 5])).next.equalFlag
  {
    var m0 := TestVm([12, 0, 1, 12, 0, 1]).(registers := Initial().registers[0 := 10][1 := 20]);
    CompareStep(m0);
    var m1 := m0.(equalFlag := true, pc := 3);
    assert Execute(m0).next == m1;
    CompareStep(m1.(registers := m1.registers[1 := 5]));
  }

  /** The GTQ test: 20 >= 10 and 20 >= 20 set the flag, 20 >= 30 clears it. */
  lemma GtqTest()
    ensures
      var m0 := TestVm([13, 0, 1, 13, 0, 1, 13, 0, 1]).(registers := Initial().registers[0 := 20][1 := 10]);
      var m1 := Execute(m0).next;
      && m1.equalFlag
      && var m2 := Execute(m1.(registers := m1.registers[1 := 20])).next;
      && m2.equalFlag
      && !Execute(m2.(registers := m2.registers[1 := 30])).next.equalFlag
  {
    var m0 := TestVm([13, 0, 1, 13, 0, 1, 13, 0, 1]).(registers := Initial().registers[0 := 20][1 := 10]);
    CompareStep(m0);
    var m1 := m0.(equalFlag := true, pc := 3);
    assert Execute(m0).next == m1;
    var m1' := m1.(registers := m1.registers[1 := 20]);
    CompareStep(m1');
    var m2 := m1'.(equalFlag := true, pc := 6);
    assert Execute(m1').next == m2;
    CompareStep(m2.(registers := m2.registers[1 := 30]));
  }

  /** The JEQ test: taken jump to 4, JMP to 0, then the untaken JEQ moves pc to 2. */
  lemma JeqTest()
    ensures
      var m0 := TestVm([15, 0, 6, 1, 6, 2]).(registers := Initial().registers[0 := 4][1 := 2], equalFlag := true);
      var m1 := Execute(m0).next;
      && m1.pc == 4
      && var m2 := Execute(m1).next;
      && m2.pc == 0
      && Execute(m2.(equalFlag := false)).next.pc == 2
  {
    var m0 := TestVm([15, 0, 6, 1, 6, 2]).(registers := Initial().registers[0 := 4][1 := 2], equalFlag := true);
    BranchStep(m0);
    var m1 := m0.(pc := 4);
    assert Execute(m0).next == m1;
    JumpStep(m1);
    var m2 := m1.(pc := 0);
    assert Execute(m1).next == m2;
    BranchStep(m2.(equalFlag := false));
  }

  /** The JNEQ test: the taken JNEQ goes to 2, the JMP there to 4, the JMP at 4 to 0. */
  lemma JneqTest()
    ensures
      var m0 := TestVm([16, 0, 6, 1, 6, 2]).(registers := Initial().registers[0 := 2][1 := 4]);
      var m1 := Execute(m0).next;
      && m1.pc == 2
      && var m2 := Execute(m1).next;
      && m2.pc == 4
      && Execute(m2.(equalFlag := true)).next.pc == 0
  {
    var m0 := TestVm([16, 0, 6, 1, 6, 2]).(registers := Initial().registers[0 := 2][1 := 4]);
    BranchStep(m0);
    var m1 := m0.(pc := 2);
    assert Execute(m0).next == m1;
    JumpStep(m1);
    var m2 := m1.(pc := 4);
    assert Execute(m1).next == m2;
    JumpStep(m2.(equalFlag := true));
  }

  /** ALOC with register 0 = 1024 gives a 1024-byte heap. */
  lemma AlocTest()
    ensures |Execute(TestVm([17, 0, 0, 0]).(registers := Initial().registers[0 := 1024])).next.heap| == 1024
  {
  }

  // ---------------------------------------------------------------------
  // `run` as written, and as intended

  /** As written, once pc is past the end `run` steps forever. */
  lemma {:induction false} RunAsWrittenSpinsPastEnd(m: Machine, fuel: nat)
    requires WellFormed(m) && m.pc >= |m.program|
    ensures RunAsWritten(m, fuel) == OutOfFuel(m)
  {
    if fuel > 0 {
      RunAsWrittenSpinsPastEnd(m, fuel - 1);
    }
  }

  /** As written, `run` returns right after the first step that returns false. */
  lemma RunAsWrittenStopsAfterOrdinaryStep(m: Machine, fuel: nat)
    requires WellFormed(m) && fuel > 0 && Execute(m).Stepped? && !Execute(m).result
    ensures RunAsWritten(m, fuel) == Finished(Execute(m).next)
  {
  }

  /** A program made only of halting bytes (HLT or IGL). */
  predicate OnlyHalts(program: seq<uint8>) {
    forall i :: 0 <= i < |program| ==> FromByte(program[i]) in {HLT, IGL}
  }

  /** As written, `run` never returns on a program of HLT and IGL bytes. */
  lemma {:induction false} RunAsWrittenNeverReturnsOnHalts(m: Machine, fuel: nat)
    requires WellFormed(m) && OnlyHalts(m.program)
    ensures RunAsWritten(m, fuel).OutOfFuel?
    decreases fuel
  {
    if fuel > 0 {
      var next := if m.pc < |m.program| then m.(pc := m.pc + 1) else m;
      if m.pc < |m.program| {
        HaltingAndUnrecognizedSteps(m);
      }
      assert Execute(m) == Stepped(next, true);
      RunAsWrittenNeverReturnsOnHalts(next, fuel - 1);
    }
  }

  /** So the HLT and IGL tests, which expect `run` to stop with pc = 1, cannot pass. */
  lemma HaltTestsNeverReturn(fuel: nat)
    ensures RunAsWritten(TestVm([0, 0, 0, 0]), fuel).OutOfFuel?
    ensures RunAsWritten(TestVm([200, 0, 0, 0]), fuel).OutOfFuel?
  {
    RunAsWrittenNeverReturnsOnHalts(TestVm([0, 0, 0, 0]), fuel);
    RunAsWrittenNeverReturnsOnHalts(TestVm([200, 0, 0, 0]), fuel);
  }

  /** Corrected: HLT, IGL and an opcode without an arm stop the run right after that byte. */
  lemma RunToHaltStopsAtHalt(m: Machine, fuel: nat)
    requires WellFormed(m) && fuel > 0 && m.pc < |m.program| && OpAt(m) in {HLT, IGL, NOP}
    ensures RunToHalt(m, fuel) == Finished(m.(pc := m.pc + 1))
  {
    HaltingAndUnrecognizedSteps(m);
    assert HaltsAt(m.program, m.pc);
  }

  /** Corrected: HLT and IGL stop the run with pc = 1, as the tests expect. */
  lemma RunToHaltHaltTests(fuel: nat)
    requires fuel > 0
    ensures RunToHalt(TestVm([0, 0, 0, 0]), fuel) == Finished(TestVm([0, 0, 0, 0]).(pc := 1))
    ensures RunToHalt(TestVm([200, 0, 0, 0]), fuel) == Finished(TestVm([200, 0, 0, 0]).(pc := 1))
  {
    RunToHaltStopsAtHalt(TestVm([0, 0, 0, 0]), fuel);
    RunToHaltStopsAtHalt(TestVm([200, 0, 0, 0]), fuel);
  }

  /** Corrected: past the end the run stops at once, changing nothing. */
  lemma RunToHaltPastEnd(m: Machine, fuel: nat)
    requires WellFormed(m) && fuel > 0 && m.pc >= |m.program|
    ensures RunToHalt(m, fuel) == Finished(m)
  {
  }

  /**
   * Corrected: a LOAD followed by HLT runs both instructions and stops
   * past the HLT with the loaded value in place.
   */
  lemma RunToHaltLoadThenHalt(fuel: nat)
    requires fuel >= 2
    ensures var r := RunToHalt(TestVm([1, 0, 1, 244, 0]), fuel);
      r.Finished? && r.final.registers[0] == 500 && r.final.pc == 5
  {
    var m := TestVm([1, 0, 1, 244, 0]);
    var m1 := m.(registers := m.registers[0 := 500], pc := 4);
    LoadStep(m);
    assert Execute(m) == Stepped(m1, false);
    RunToHaltAdvance(m, m1, false, fuel, false);
    RunToHaltStopsAtHalt(m1, fuel - 1);
  }

  /**
   * Corrected: a taken JEQ/JNEQ does not stop the run; the run goes on
   * from the jump target.
   */
  lemma RunToHaltContinuesAfterBranch(m: Machine, fuel: nat)
    requires WellFormed(m) && m.pc < |m.program| && OpAt(m) in {JEQ, JNEQ}
    requires Execute(m).Stepped?
    ensures RunToHalt(m, fuel + 1) == RunToHalt(Execute(m).next, fuel)
  {
  }
}
