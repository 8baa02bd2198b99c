/** The memory map and 6502-subset interpreter of EMUAI4K.py: five decoded
    opcodes, and operand and word fetches whose second address is not masked
    to 16 bits. */
module Ai4k {
  import opened MemoryMap
  import opened Processor

  /** The opcode table: LDA immediate, STA and JMP absolute, NOP and BRK;
      every other opcode, LDX, INX and DEX included, is unimplemented. */
  function Decode(opcode: Byte): (inst: Instruction)
    ensures inst.Unimplemented? <==> opcode !in {0xA9, 0x8D, 0x4C, 0xEA, 0x00}
    ensures inst.Unimplemented? ==> inst.opcode == opcode
    ensures inst.LoadImmediate? ==> inst.target == A
  {
    if opcode == 0xA9 then LoadImmediate(A)
    else if opcode == 0x8D then StoreAbsolute
    else if opcode == 0x4C then JumpAbsolute
    else if opcode == 0xEA then Nop
    else if opcode == 0x00 then Break
    else Unimplemented(opcode)
  }

  /** One fetch-decode-execute cycle. */
  function Exec(s: State): (t: State)
    requires s.Valid()
    ensures t.Valid() && t.rom == s.rom && t.sp == s.sp
  {
    Execute(s, Decode(s.Read(s.pc)), Unmasked)
  }

  /** `n` cycles in a row. */
  function Run(s: State, n: nat): (t: State)
    requires s.Valid()
    ensures t.Valid() && t.rom == s.rom && t.sp == s.sp
    decreases n
  {
    if n == 0 then s else Run(Exec(s), n - 1)
  }

  class Memory {
    /** Work RAM; the array is fixed, its contents change. */
    const ram: array<Byte>
    const prgRom: seq<Byte>

    ghost predicate Valid() {
      ram.Length == RAM_SIZE
    }

    /** RAM starts zeroed; the ROM is kept as given, even empty. */
    constructor (prgRom: seq<Byte>)
      ensures Valid() && fresh(ram) && this.prgRom == prgRom
      ensures ram[..] == seq(RAM_SIZE, _ => 0)
    {
      this.prgRom := prgRom;
      ram := new Byte[RAM_SIZE](_ => 0);
    }

    function Read(address: nat): (value: Byte)
      requires Valid()
      requires ROM_START <= address ==> |prgRom| > 0
      reads ram
      ensures value == MemoryMap.Read(ram[..], prgRom, address)
    {
      if address < RAM_END then ram[address % RAM_SIZE]
      else if address >= ROM_START then prgRom[(address - ROM_START) % |prgRom|]
      else 0
    }

    method Write(address: nat, value: int)
      requires Valid()
      modifies ram
      ensures ram[..] == Store(old(ram[..]), address, value)
    {
      if address < RAM_END {
        ram[address % RAM_SIZE] := value % 0x100;
      }
    }

    /** The high byte comes from `address + 1`, unmasked. */
    function ReadWord(address: nat): (word: Word)
      requires Valid() && |prgRom| > 0
      reads ram
      ensures word == ReadWordUnwrapped(ram[..], prgRom, address)
    {
      var lo := Read(address);
      var hi := Read(address + 1);
      LittleEndian(lo, hi)
    }
  }

  class Cpu {
    const memory: Memory
    var pc: Word
    var a: Byte
    var x: Byte
    var y: Byte
    var sp: Byte
    var status: bv8

    ghost predicate Valid() {
      memory.Valid() && |memory.prgRom| > 0
    }

    /** Registers and memory as one value. */
    ghost function Snapshot(): State
      reads this, memory.ram
    {
      State(pc, a, x, y, sp, status, memory.ram[..], memory.prgRom)
    }

    constructor (memory: Memory)
      requires memory.Valid() && |memory.prgRom| > 0
      ensures Valid() && this.memory == memory
      ensures Snapshot() == Reset(memory.ram[..], memory.prgRom)
    {
      this.memory := memory;
      pc := memory.ReadWord(RESET_VECTOR);
      a, x, y := 0, 0, 0;
      sp := RESET_SP;
      status := RESET_STATUS;
    }

    method SetFlag(flag: bv8, value: bool)
      modifies this`status
      ensures status == WithFlag(old(status), flag, value)
    {
      if value {
        status := status | flag;
      } else {
        status := status & !flag;
      }
    }

    function GetFlag(flag: bv8): bool
      reads this
    {
      FlagSet(status, flag)
    }

    /** One fetch-decode-execute cycle, updating the registers in place and
        RAM through Memory.Write. */
    method Step()
      requires Valid()
      modifies this, memory.ram
      ensures Snapshot() == Exec(old(Snapshot()))
    {
      var opcode := memory.Read(pc);
      pc := (pc + 1) % 0x1_0000;
      if opcode == 0xA9 {
        var value := memory.Read(pc);
        pc := (pc + 1) % 0x1_0000;
        a := value;
        SetFlag(FLAG_ZERO, a == 0);
        SetFlag(FLAG_NEGATIVE, a >= 0x80);
      } else if opcode == 0x8D {
        var lo := memory.Read(pc);
        var hi := memory.Read(pc + 1);
        var address := LittleEndian(lo, hi);
        pc := (pc + 2) % 0x1_0000;
        memory.Write(address, a);
      } else if opcode == 0x4C {
        var lo := memory.Read(pc);
        var hi := memory.Read(pc + 1);
        pc := LittleEndian(lo, hi);
      } else if opcode == 0xEA {
        // NOP
      } else if opcode == 0x00 {
        // BRK: recognised, not implemented
      } else {
        // unimplemented opcode
      }
    }
  }

  /** LDA immediate: A receives the byte at `(PC + 1) & 0xFFFF`, PC
      advances by 2, Zero and Negative describe A and nothing else changes. */
  lemma LoadAccumulatorLaw(s: State)
    requires s.Valid() && s.Read(s.pc) == 0xA9
    ensures var t, value := Exec(s), s.Read((s.pc + 1) % 0x1_0000);
      && t.a == value
      && t.pc == (s.pc + 2) % 0x1_0000
      && (FlagSet(t.status, FLAG_ZERO) <==> value == 0)
      && (FlagSet(t.status, FLAG_NEGATIVE) <==> value >= 0x80)
      && t.status & UNTOUCHED_FLAGS == s.status & UNTOUCHED_FLAGS
      && t.x == s.x && t.y == s.y && t.ram == s.ram
  {
    PcAdvance(s, LoadImmediate(A), Unmasked);
    StatusUntouched(s, LoadImmediate(A), Unmasked);
  }

  /** STA absolute: A is written to `lo | (hi << 8)`, with `lo` read at
      `next = (PC + 1) & 0xFFFF` and `hi` at `next + 1`, unmasked (0x10000
      when the opcode sits at 0xFFFE); PC advances by 3 and no register or
      flag changes. */
  lemma StoreAbsoluteLaw(s: State)
    requires s.Valid() && s.Read(s.pc) == 0x8D
    ensures var t, next := Exec(s), (s.pc + 1) % 0x1_0000;
      && t.ram == Store(s.ram, LittleEndian(s.Read(next), s.Read(next + 1)), s.a)
      && t.pc == (s.pc + 3) % 0x1_0000
      && t.a == s.a && t.x == s.x && t.y == s.y && t.status == s.status
  {
    PcAdvance(s, StoreAbsolute, Unmasked);
  }

  /** JMP absolute: PC becomes `lo | (hi << 8)`, with `lo` read at
      `next = (PC + 1) & 0xFFFF` and `hi` at `next + 1`, unmasked; nothing
      else changes. */
  lemma JumpAbsoluteLaw(s: State)
    requires s.Valid() && s.Read(s.pc) == 0x4C
    ensures var next := (s.pc + 1) % 0x1_0000;
      Exec(s) == s.(pc := LittleEndian(s.Read(next), s.Read(next + 1)))
  {
  }

  /** NOP, BRK and every opcode outside the five-entry table, LDX (0xA2),
      INX (0xE8) and DEX (0xCA) among them, only advance PC by 1. */
  lemma NoOperationLaw(s: State)
    requires s.Valid() && s.Read(s.pc) !in {0xA9, 0x8D, 0x4C}
    ensures Exec(s) == s.(pc := (s.pc + 1) % 0x1_0000)
  {
  }

  /** A jump whose opcode sits at 0xFFFE takes its high byte from address
      0x10000, which lands in ROM at offset 0x8000 modulo the ROM length. */
  lemma JumpAtTopReadsRom(s: State)
    requires s.Valid() && s.pc == 0xFFFE && s.Read(s.pc) == 0x4C
    ensures Exec(s).pc == LittleEndian(s.Read(0xFFFF), s.rom[0x8000 % |s.rom|])
  {
    assert (s.pc + 1) % 0x1_0000 == 0xFFFF;
    ReadPastTop(s.ram, s.rom);
    JumpAbsoluteLaw(s);
  }

  /** Nothing in the table writes X or Y, so they keep their values across
      any number of cycles. */
  lemma {:induction false} RunKeepsIndexRegisters(s: State, n: nat)
    requires s.Valid()
    ensures Run(s, n).x == s.x && Run(s, n).y == s.y
    decreases n
  {
    if n > 0 {
      ExecuteFrame(s, Decode(s.Read(s.pc)), Unmasked);
      RunKeepsIndexRegisters(Exec(s), n - 1);
    }
  }

  /** From reset, X and Y are 0 after any number of cycles. */
  lemma {:induction false} IndexRegistersStayZero(ram: seq<Byte>, rom: seq<Byte>, n: nat)
    requires |ram| == RAM_SIZE && |rom| > 0
    ensures Run(Reset(ram, rom), n).x == 0 && Run(Reset(ram, rom), n).y == 0
  {
    RunKeepsIndexRegisters(Reset(ram, rom), n);
  }

  /** The reset vector is read the same way as in EMUNESV0.py: 0xFFFD needs
      no masking. */
  lemma ResetUsesUnwrappedWord(ram: seq<Byte>, rom: seq<Byte>)
    requires |ram| == RAM_SIZE && |rom| > 0
    ensures Reset(ram, rom).pc == ReadWordUnwrapped(ram, rom, RESET_VECTOR)
  {
  }

  /** `LDA #$05; STA $0200; JMP $8000`, assembled. */
  const LOOP_PROGRAM: seq<Byte> := [0xA9, 0x05, 0x8D, 0x00, 0x02, 0x4C, 0x00, 0x80]

  lemma LoopFirstStep(s: State)
    requires s.Valid() && s.pc == 0x8000 && |s.rom| >= 8 && s.rom[..8] == LOOP_PROGRAM
    ensures var t := Exec(s); t.a == 5 && t.pc == 0x8002 && t.ram == s.ram && t.rom == s.rom
  {
    RomPrefix(s.ram, s.rom, 0);
    RomPrefix(s.ram, s.rom, 1);
    LoadAccumulatorLaw(s);
  }

  lemma LoopSecondStep(s: State)
    requires s.Valid() && s.pc == 0x8002 && |s.rom| >= 8 && s.rom[..8] == LOOP_PROGRAM
    ensures var t := Exec(s); t.a == s.a && t.pc == 0x8005 && t.ram == Store(s.ram, 0x0200, s.a)
  {
    assert s.rom[2] == 0x8D && s.rom[3] == 0x00 && s.rom[4] == 0x02 by {
      assert s.rom[..8][2..5] == [0x8D, 0x00, 0x02];
    }
    var next := (s.pc + 1) % 0x1_0000;
    assert next == 0x8003 && next + 1 == 0x8004;
    RomPrefix(s.ram, s.rom, 2);
    RomPrefix(s.ram, s.rom, 3);
    RomPrefix(s.ram, s.rom, 4);
    assert LittleEndian(s.Read(next), s.Read(next + 1)) == 0x0200;
    StoreAbsoluteLaw(s);
  }

  lemma LoopThirdStep(s: State)
    requires s.Valid() && s.pc == 0x8005 && |s.rom| >= 8 && s.rom[..8] == LOOP_PROGRAM
    ensures var t := Exec(s); t.a == s.a && t.pc == 0x8000 && t.ram == s.ram
  {
    RomPrefix(s.ram, s.rom, 5);
    RomPrefix(s.ram, s.rom, 6);
    RomPrefix(s.ram, s.rom, 7);
    JumpAbsoluteLaw(s);
  }

  /** The program `A9 05 8D 00 02 4C 00 80` at 0x8000, with the reset vector
      pointing there: after three cycles A is 5, address 0x0200 reads 5 and
      PC is back at 0x8000. */
  lemma LoopScenario(ram: seq<Byte>, rom: seq<Byte>)
    requires |ram| == RAM_SIZE && |rom| >= 8 && rom[..8] == LOOP_PROGRAM
    requires rom[0x7FFC % |rom|] == 0x00 && rom[0x7FFD % |rom|] == 0x80
    ensures var t := Run(Reset(ram, rom), 3);
      t.a == 5 && t.Read(0x0200) == 5 && t.pc == 0x8000
  {
    var s0 := Reset(ram, rom);
    LoopFirstStep(s0);
    var s1 := Exec(s0);
    LoopSecondStep(s1);
    var s2 := Exec(s1);
    LoopThirdStep(s2);
    assert Run(s0, 3) == Exec(s2);
  }
}
