/** The memory map and 6502-subset interpreter of EMUNESV0.py: nine decoded
    opcodes, and operand and word fetches whose second address wraps at
    64 KiB. */
module NesV0 {
  import opened MemoryMap
  import opened Processor

  /** The opcode table: LDA/LDX/LDY immediate, STA and JMP absolute, NOP,
      INX, DEX and BRK; every other opcode is unimplemented. */
  function Decode(opcode: Byte): (inst: Instruction)
    ensures inst.Unimplemented? <==>
              opcode !in {0xA9, 0xA2, 0xA0, 0x8D, 0x4C, 0xEA, 0xE8, 0xCA, 0x00}
    ensures inst.Unimplemented? ==> inst.opcode == opcode
  {
    if opcode == 0xA9 then LoadImmediate(A)
    else if opcode == 0xA2 then LoadImmediate(X)
    else if opcode == 0xA0 then LoadImmediate(Y)
    else if opcode == 0x8D then StoreAbsolute
    else if opcode == 0x4C then JumpAbsolute
    else if opcode == 0xEA then Nop
    else if opcode == 0xE8 then IncrementX
    else if opcode == 0xCA then DecrementX
    else if opcode == 0x00 then Break
    else Unimplemented(opcode)
  }

  /** One fetch-decode-execute cycle. */
  function Exec(s: State): (t: State)
    requires s.Valid()
    ensures t.Valid() && t.rom == s.rom && t.sp == s.sp
  {
    Execute(s, Decode(s.Read(s.pc)), Wrapping)
  }

  /** `n` cycles in a row. */
  function Run(s: State, n: nat): (t: State)
    requires s.Valid()
    ensures t.Valid() && t.rom == s.rom && t.sp == s.sp
    decreases n
  {
    if n == 0 then s else Run(Exec(s), n - 1)
  }

  class Memory {
    /** Work RAM; the array is fixed, its contents change. */
    const ram: array<Byte>
    const prgRom: seq<Byte>

    ghost predicate Valid() {
      ram.Length == RAM_SIZE
    }

    /** RAM starts zeroed; the ROM is kept as given, even empty. */
    constructor (prgRom: seq<Byte>)
      ensures Valid() && fresh(ram) && this.prgRom == prgRom
      ensures ram[..] == seq(RAM_SIZE, _ => 0)
    {
      this.prgRom := prgRom;
      ram := new Byte[RAM_SIZE](_ => 0);
    }

    function Read(address: nat): (value: Byte)
      requires Valid()
      requires ROM_START <= address ==> |prgRom| > 0
      reads ram
      ensures value == MemoryMap.Read(ram[..], prgRom, address)
    {
      if address < RAM_END then ram[address % RAM_SIZE]
      else if address >= ROM_START then prgRom[(address - ROM_START) % |prgRom|]
      else 0
    }

    method Write(address: nat, value: int)
      requires Valid()
      modifies ram
      ensures ram[..] == Store(old(ram[..]), address, value)
    {
      if address < RAM_END {
        ram[address % RAM_SIZE] := value % 0x100;
      }
    }

    function ReadWord(address: nat): (word: Word)
      requires Valid() && |prgRom| > 0
      reads ram
      ensures word == ReadWordWrapped(ram[..], prgRom, address)
    {
      var lo := Read(address);
      var hi := Read((address + 1) % 0x1_0000);
      LittleEndian(lo, hi)
    }
  }

  class Cpu {
    const memory: Memory
    var pc: Word
    var a: Byte
    var x: Byte
    var y: Byte
    var sp: Byte
    var status: bv8

    ghost predicate Valid() {
      memory.Valid() && |memory.prgRom| > 0
    }

    /** Registers and memory as one value. */
    ghost function Snapshot(): State
      reads this, memory.ram
    {
      State(pc, a, x, y, sp, status, memory.ram[..], memory.prgRom)
    }

    constructor (memory: Memory)
      requires memory.Valid() && |memory.prgRom| > 0
      ensures Valid() && this.memory == memory
      ensures Snapshot() == Reset(memory.ram[..], memory.prgRom)
    {
      this.memory := memory;
      pc := memory.ReadWord(RESET_VECTOR);
      a, x, y := 0, 0, 0;
      sp := RESET_SP;
      status := RESET_STATUS;
    }

    method SetFlag(flag: bv8, value: bool)
      modifies this`status
      ensures status == WithFlag(old(status), flag, value)
    {
      if value {
        status := status | flag;
      } else {
        status := status & !flag;
      }
    }

    function GetFlag(flag: bv8): bool
      reads this
    {
      FlagSet(status, flag)
    }

    /** The Zero/Negative update that follows every load and every change
        of X: two set_flag calls, Zero first. */
    method SetZeroNegative(value: Byte)
      modifies this`status
      ensures status == WithZeroNegative(old(status), value)
    {
      SetFlag(FLAG_ZERO, value == 0);
      SetFlag(FLAG_NEGATIVE, value >= 0x80);
    }

    /** One fetch-decode-execute cycle, updating the registers in place and
        RAM through Memory.Write. */
    method Step()
      requires Valid()
      modifies this, memory.ram
      ensures Snapshot() == Exec(old(Snapshot()))
    {
      ghost var s := Snapshot();
      var opcode := memory.Read(pc);
      pc := (pc + 1) % 0x1_0000;
      if opcode == 0xA9 {
        var value := memory.Read(pc);
        pc := (pc + 1) % 0x1_0000;
        a := value;
        SetZeroNegative(a);
      } else if opcode == 0xA2 {
        var value := memory.Read(pc);
        pc := (pc + 1) % 0x1_0000;
        x := value;
        SetZeroNegative(x);
      } else if opcode == 0xA0 {
        var value := memory.Read(pc);
        pc := (pc + 1) % 0x1_0000;
        y := value;
        SetZeroNegative(y);
      } else if opcode == 0x8D {
        var lo := memory.Read(pc);
        var hi := memory.Read((pc + 1) % 0x1_0000);
        var address := LittleEndian(lo, hi);
        pc := (pc + 2) % 0x1_0000;
        memory.Write(address, a);
      } else if opcode == 0x4C {
        var lo := memory.Read(pc);
        var hi := memory.Read((pc + 1) % 0x1_0000);
        pc := LittleEndian(lo, hi);
      } else if opcode == 0xEA {
        // NOP
      } else if opcode == 0xE8 {
        x := (x + 1) % 0x100;
        SetZeroNegative(x);
      } else if opcode == 0xCA {
        x := (x - 1) % 0x100;
        SetZeroNegative(x);
      } else if opcode == 0x00 {
        // BRK: recognised, not implemented
      } else {
        // unimplemented opcode
      }
      assert opcode != 0x8D ==> memory.ram[..] == s.ram;
    }
  }

  /** LDA/LDX/LDY immediate: the target register receives the byte after the
      opcode, PC advances by 2, Zero and Negative describe the new value and
      no other status bit, register or RAM cell changes. */
  lemma LoadImmediateLaw(s: State)
    requires s.Valid() && s.Read(s.pc) in {0xA9, 0xA2, 0xA0}
    ensures var t, value := Exec(s), s.Read((s.pc + 1) % 0x1_0000);
      && t.pc == (s.pc + 2) % 0x1_0000
      && t.a == (if s.Read(s.pc) == 0xA9 then value else s.a)
      && t.x == (if s.Read(s.pc) == 0xA2 then value else s.x)
      && t.y == (if s.Read(s.pc) == 0xA0 then value else s.y)
      && (FlagSet(t.status, FLAG_ZERO) <==> value == 0)
      && (FlagSet(t.status, FLAG_NEGATIVE) <==> value >= 0x80)
      && t.status & UNTOUCHED_FLAGS == s.status & UNTOUCHED_FLAGS
      && t.ram == s.ram
  {
    var inst := Decode(s.Read(s.pc));
    PcAdvance(s, inst, Wrapping);
    ExecuteFrame(s, inst, Wrapping);
    StatusUntouched(s, inst, Wrapping);
  }

  /** STA absolute: A is written to the operand address `lo | (hi << 8)`,
      with `hi` read at `(PC + 2) & 0xFFFF`; PC advances by 3 and no
      register or flag changes. */
  lemma StoreAbsoluteLaw(s: State)
    requires s.Valid() && s.Read(s.pc) == 0x8D
    ensures var t, next := Exec(s), (s.pc + 1) % 0x1_0000;
      && t.ram == Store(s.ram, LittleEndian(s.Read(next), s.Read((next + 1) % 0x1_0000)), s.a)
      && t.pc == (s.pc + 3) % 0x1_0000
      && t.a == s.a && t.x == s.x && t.y == s.y && t.status == s.status
  {
    PcAdvance(s, StoreAbsolute, Wrapping);
  }

  /** JMP absolute: PC becomes the operand, not PC plus anything; nothing else
      changes. */
  lemma JumpAbsoluteLaw(s: State)
    requires s.Valid() && s.Read(s.pc) == 0x4C
    ensures var next := (s.pc + 1) % 0x1_0000;
      Exec(s) == s.(pc := LittleEndian(s.Read(next), s.Read((next + 1) % 0x1_0000)))
  {
  }

  /** INX/DEX: X steps by one modulo 256 with Zero and Negative recomputed,
      PC advances by 1, nothing else changes. */
  lemma IncrementDecrementLaw(s: State)
    requires s.Valid() && s.Read(s.pc) in {0xE8, 0xCA}
    ensures var t := Exec(s);
      && t.x == (if s.Read(s.pc) == 0xE8 then (s.x + 1) % 0x100 else (s.x - 1) % 0x100)
      && t.pc == (s.pc + 1) % 0x1_0000
      && (FlagSet(t.status, FLAG_ZERO) <==> t.x == 0)
      && (FlagSet(t.status, FLAG_NEGATIVE) <==> t.x >= 0x80)
      && t.status & UNTOUCHED_FLAGS == s.status & UNTOUCHED_FLAGS
      && t.a == s.a && t.y == s.y && t.ram == s.ram
  {
    StatusUntouched(s, Decode(s.Read(s.pc)), Wrapping);
  }

  /** NOP, BRK and every opcode outside the table only advance PC by 1. */
  lemma NoOperationLaw(s: State)
    requires s.Valid() && s.Read(s.pc) !in {0xA9, 0xA2, 0xA0, 0x8D, 0x4C, 0xE8, 0xCA}
    ensures Exec(s) == s.(pc := (s.pc + 1) % 0x1_0000)
  {
  }

  /** Status bits other than Zero and Negative never change, so from reset
      `status & 0x7D` stays 0x24 forever. */
  lemma {:induction false} RunKeepsUntouchedFlags(s: State, n: nat)
    requires s.Valid()
    ensures Run(s, n).status & UNTOUCHED_FLAGS == s.status & UNTOUCHED_FLAGS
    decreases n
  {
    if n > 0 {
      StatusUntouched(s, Decode(s.Read(s.pc)), Wrapping);
      RunKeepsUntouchedFlags(Exec(s), n - 1);
    }
  }

  lemma {:induction false} StatusFromReset(ram: seq<Byte>, rom: seq<Byte>, n: nat)
    requires |ram| == RAM_SIZE && |rom| > 0
    ensures Run(Reset(ram, rom), n).status & UNTOUCHED_FLAGS == 0x24
  {
    RunKeepsUntouchedFlags(Reset(ram, rom), n);
  }

  /** Reset-vector bytes 0x34, 0x12 give an initial PC of 0x1234. */
  lemma ResetVectorExample(ram: seq<Byte>, rom: seq<Byte>)
    requires |ram| == RAM_SIZE && |rom| > 0
    requires rom[0x7FFC % |rom|] == 0x34 && rom[0x7FFD % |rom|] == 0x12
    ensures Reset(ram, rom).pc == 0x1234
  {
  }

  /** `LDA #$05; STA $0200; JMP $8000`, assembled. */
  const LOOP_PROGRAM: seq<Byte> := [0xA9, 0x05, 0x8D, 0x00, 0x02, 0x4C, 0x00, 0x80]

  lemma LoopFirstStep(s: State)
    requires s.Valid() && s.pc == 0x8000 && |s.rom| >= 8 && s.rom[..8] == LOOP_PROGRAM
    ensures var t := Exec(s); t.a == 5 && t.pc == 0x8002 && t.ram == s.ram && t.rom == s.rom
  {
    RomPrefix(s.ram, s.rom, 0);
    RomPrefix(s.ram, s.rom, 1);
    LoadImmediateLaw(s);
  }

  lemma LoopSecondStep(s: State)
    requires s.Valid() && s.pc == 0x8002 && |s.rom| >= 8 && s.rom[..8] == LOOP_PROGRAM
    ensures var t := Exec(s); t.a == s.a && t.pc == 0x8005 && t.ram == Store(s.ram, 0x0200, s.a)
  {
    assert s.rom[2] == 0x8D && s.rom[3] == 0x00 && s.rom[4] == 0x02 by {
      assert s.rom[..8][2..5] == [0x8D, 0x00, 0x02];
    }
    var next := (s.pc + 1) % 0x1_0000;
    assert next == 0x8003 && (next + 1) % 0x1_0000 == 0x8004;
    RomPrefix(s.ram, s.rom, 2);
    RomPrefix(s.ram, s.rom, 3);
    RomPrefix(s.ram, s.rom, 4);
    assert LittleEndian(s.Read(next), s.Read((next + 1) % 0x1_0000)) == 0x0200;
    StoreAbsoluteLaw(s);
  }

  lemma LoopThirdStep(s: State)
    requires s.Valid() && s.pc == 0x8005 && |s.rom| >= 8 && s.rom[..8] == LOOP_PROGRAM
    ensures var t := Exec(s); t.a == s.a && t.pc == 0x8000 && t.ram == s.ram
  {
    RomPrefix(s.ram, s.rom, 5);
    RomPrefix(s.ram, s.rom, 6);
    RomPrefix(s.ram, s.rom, 7);
    var next := (s.pc + 1) % 0x1_0000;
    assert next == 0x8006 && (next + 1) % 0x1_0000 == 0x8007;
    JumpAbsoluteLaw(s);
  }

  /** The program `A9 05 8D 00 02 4C 00 80` at 0x8000, with the reset vector
      pointing there: after three cycles A is 5, address 0x0200 reads 5 and
      PC is back at 0x8000. */
  lemma LoopScenario(ram: seq<Byte>, rom: seq<Byte>)
    requires |ram| == RAM_SIZE && |rom| >= 8 && rom[..8] == LOOP_PROGRAM
    requires rom[0x7FFC % |rom|] == 0x00 && rom[0x7FFD % |rom|] == 0x80
    ensures var t := Run(Reset(ram, rom), 3);
      t.a == 5 && t.Read(0x0200) == 5 && t.pc == 0x8000
  {
    var s0 := Reset(ram, rom);
    LoopFirstStep(s0);
    var s1 := Exec(s0);
    LoopSecondStep(s1);
    var s2 := Exec(s1);
    LoopThirdStep(s2);
    assert Run(s0, 3) == Exec(s2);
  }
}
