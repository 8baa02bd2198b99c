/** The 6502 processor state shared by both emulator variants, its status
    flags, and the semantics of the instructions the variants decode. Each
    variant supplies its own opcode table (a Decode function) and chooses how
    the high byte of a two-byte operand is addressed. */
module Processor {
  import opened MemoryMap

  const FLAG_ZERO: bv8 := 0x02
  const FLAG_NEGATIVE: bv8 := 0x80
  /** Every status bit except Zero and Negative: no implemented instruction touches them. */
  const UNTOUCHED_FLAGS: bv8 := 0x7D
  const RESET_VECTOR: nat := 0xFFFC
  const RESET_SP: Byte := 0xFD
  /** Status after reset: bit 5 (unused, reads as 1) and IRQ-disable. */
  const RESET_STATUS: bv8 := 0x24

  /** Registers, RAM contents and the fixed program ROM. The 8- and 16-bit
      widths of the registers are enforced by their types at every update. */
  datatype State = State(pc: Word, a: Byte, x: Byte, y: Byte, sp: Byte, status: bv8,
                         ram: seq<Byte>, rom: seq<Byte>)
  {
    /** RAM has its fixed size and the ROM is non-empty (the reset-vector
        fetch that creates a processor reads ROM). */
    predicate Valid() {
      |ram| == RAM_SIZE && |rom| > 0
    }

    function Read(address: nat): Byte
      requires Valid()
    {
      MemoryMap.Read(ram, rom, address)
    }
  }

  /** The state of a freshly constructed processor: PC from the little-endian
      word at the reset vector, A = X = Y = 0, SP = 0xFD, status = 0x24. */
  function Reset(ram: seq<Byte>, rom: seq<Byte>): (s: State)
    requires |ram| == RAM_SIZE && |rom| > 0
    ensures s.Valid() && s.ram == ram && s.rom == rom
    ensures s.pc == LittleEndian(rom[0x7FFC % |rom|], rom[0x7FFD % |rom|])
    ensures s.a == s.x == s.y == 0 && s.sp == 0xFD && s.status == 0x24
  {
    State(ReadWordWrapped(ram, rom, RESET_VECTOR), 0, 0, 0, RESET_SP, RESET_STATUS, ram, rom)
  }

  /** `status` with `flag` set (on) or cleared (off): the flag bits become
      all ones or all zeros and every other bit is kept. */
  function WithFlag(status: bv8, flag: bv8, on: bool): (r: bv8)
    ensures r & flag == (if on then flag else 0)
    ensures r & !flag == status & !flag
  {
    if on then status | flag else status & !flag
  }

  function FlagSet(status: bv8, flag: bv8): bool {
    status & flag != 0
  }

  /** Reading a single-bit flag after setting it gives the value set, and
      setting it leaves every other single-bit flag as it was. */
  lemma FlagRoundTrip(status: bv8, flag: bv8, on: bool, other: bv8)
    requires flag != 0 && flag & (flag - 1) == 0
    ensures FlagSet(WithFlag(status, flag, on), flag) == on
    ensures other & flag == 0 ==> FlagSet(WithFlag(status, flag, on), other) == FlagSet(status, other)
  {
  }

  /** The flag update after a load or an increment, in the source's order:
      Zero from `value == 0`, then Negative from `value & 0x80`, which for a
      byte is non-zero exactly when the byte is at least 0x80. */
  function WithZeroNegative(status: bv8, value: Byte): (r: bv8)
    ensures FlagSet(r, FLAG_ZERO) <==> value == 0
    ensures FlagSet(r, FLAG_NEGATIVE) <==> value >= 0x80
  {
    WithFlag(WithFlag(status, FLAG_ZERO, value == 0), FLAG_NEGATIVE, value >= 0x80)
  }

  /** The source tests bit 7 with `value & 0x80`; for a byte that bit is set
      exactly when the byte is at least 0x80, the test WithZeroNegative uses. */
  lemma NegativeIsBit7(value: bv8)
    ensures (value & 0x80 != 0) <==> value as int >= 0x80
  {
  }

  datatype Register = A | X | Y

  /** One entry of an opcode table. Break and Unimplemented behave like Nop
      today; they are kept apart so that the tables say which opcodes the
      emulator recognises. */
  datatype Instruction =
    | LoadImmediate(target: Register)
    | StoreAbsolute
    | JumpAbsolute
    | IncrementX
    | DecrementX
    | Nop
    | Break
    | Unimplemented(opcode: Byte)

  /** How the address of an operand byte after the first is formed. */
  datatype OperandFetch =
    | Wrapping   // `(address) & 0xFFFF`
    | Unmasked   // plain `address`, which can reach 0x10000

  /** Total length in bytes, opcode included. */
  function Length(inst: Instruction): nat {
    match inst
    case LoadImmediate(_) => 2
    case StoreAbsolute => 3
    case JumpAbsolute => 3
    case _ => 1
  }

  /** Address of the operand byte `k` places after `next`, the address just
      past the opcode (which is already below 0x10000). */
  function OperandAddress(next: Word, k: nat, fetch: OperandFetch): nat {
    match fetch
    case Wrapping => (next + k) % 0x1_0000
    case Unmasked => next + k
  }

  /** The two-byte little-endian operand that follows the opcode. */
  function AbsoluteOperand(s: State, fetch: OperandFetch): Word
    requires s.Valid()
  {
    var next := (s.pc + 1) % 0x1_0000;
    LittleEndian(s.Read(next), s.Read(OperandAddress(next, 1, fetch)))
  }

  /** One instruction, already decoded from the opcode at `s.pc`. */
  function Execute(s: State, inst: Instruction, fetch: OperandFetch): (t: State)
    requires s.Valid()
    ensures t.Valid() && t.rom == s.rom && t.sp == s.sp
  {
    var next := (s.pc + 1) % 0x1_0000;
    match inst
    case LoadImmediate(target) =>
      var value := s.Read(next);
      var s' := s.(pc := (next + 1) % 0x1_0000, status := WithZeroNegative(s.status, value));
      (match target
       case A => s'.(a := value)
       case X => s'.(x := value)
       case Y => s'.(y := value))
    case StoreAbsolute =>
      s.(pc := (next + 2) % 0x1_0000, ram := Store(s.ram, AbsoluteOperand(s, fetch), s.a))
    case JumpAbsolute =>
      s.(pc := AbsoluteOperand(s, fetch))
    case IncrementX =>
      var x := (s.x + 1) % 0x100;
      s.(pc := next, x := x, status := WithZeroNegative(s.status, x))
    case DecrementX =>
      var x := (s.x - 1) % 0x100;
      s.(pc := next, x := x, status := WithZeroNegative(s.status, x))
    case _ =>
      s.(pc := next)
  }

  /** No instruction touches a status bit other than Zero and Negative. */
  lemma StatusUntouched(s: State, inst: Instruction, fetch: OperandFetch)
    requires s.Valid()
    ensures Execute(s, inst, fetch).status & UNTOUCHED_FLAGS == s.status & UNTOUCHED_FLAGS
  {
    var t := Execute(s, inst, fetch);
    if inst.LoadImmediate? || inst.IncrementX? || inst.DecrementX? {
      var value := if inst.LoadImmediate? then s.Read((s.pc + 1) % 0x1_0000) else t.x;
      assert t.status == WithZeroNegative(s.status, value);
      ZeroNegativeUntouched(s.status, value);
    } else {
      assert t.status == s.status;
    }
  }

  /** The Zero/Negative update keeps every other status bit. */
  lemma ZeroNegativeUntouched(status: bv8, value: Byte)
    ensures WithZeroNegative(status, value) & UNTOUCHED_FLAGS == status & UNTOUCHED_FLAGS
  {
  }

  /** PC advance law: every instruction but a jump moves PC forward by its
      length, modulo 64 KiB; a jump sets PC to its operand, whatever PC was. */
  lemma PcAdvance(s: State, inst: Instruction, fetch: OperandFetch)
    requires s.Valid()
    ensures !inst.JumpAbsolute? ==> Execute(s, inst, fetch).pc == (s.pc + Length(inst)) % 0x1_0000
    ensures inst.JumpAbsolute? ==> Execute(s, inst, fetch).pc == AbsoluteOperand(s, fetch)
  {
    var next := (s.pc + 1) % 0x1_0000;
    if inst.LoadImmediate? {
      assert (next + 1) % 0x1_0000 == (s.pc + 2) % 0x1_0000;
    } else if inst.StoreAbsolute? {
      assert (next + 2) % 0x1_0000 == (s.pc + 3) % 0x1_0000;
    }
  }

  /** Only a load into a register, or an increment or decrement of X, changes
      that register; only a store changes RAM; and a store changes only the
      cell its operand selects. */
  lemma ExecuteFrame(s: State, inst: Instruction, fetch: OperandFetch)
    requires s.Valid()
    ensures inst != LoadImmediate(A) ==> Execute(s, inst, fetch).a == s.a
    ensures inst != LoadImmediate(X) && !inst.IncrementX? && !inst.DecrementX? ==>
              Execute(s, inst, fetch).x == s.x
    ensures inst != LoadImmediate(Y) ==> Execute(s, inst, fetch).y == s.y
    ensures !inst.StoreAbsolute? ==> Execute(s, inst, fetch).ram == s.ram
    ensures inst.StoreAbsolute? ==>
              Execute(s, inst, fetch).ram == Store(s.ram, AbsoluteOperand(s, fetch), s.a)
  {
  }
}
