/** Where the two emulator variants part ways on the same state: the
    second operand byte of an instruction whose first operand byte sits at
    0xFFFF. */
module Variants {
  import opened MemoryMap
  import opened Processor
  import NesV0
  import Ai4k

  /** A JMP at 0xFFFE: EMUNESV0.py wraps the high-byte address to 0 and
      reads RAM, EMUAI4K.py reads address 0x10000, which is ROM. The two
      jump targets differ exactly when those two bytes differ. */
  lemma JumpAtTopDiverges(s: State)
    requires s.Valid() && s.pc == 0xFFFE && s.Read(s.pc) == 0x4C
    ensures NesV0.Exec(s).pc == LittleEndian(s.Read(0xFFFF), s.ram[0])
    ensures Ai4k.Exec(s).pc == LittleEndian(s.Read(0xFFFF), s.rom[0x8000 % |s.rom|])
    ensures NesV0.Exec(s).pc == Ai4k.Exec(s).pc <==> s.ram[0] == s.rom[0x8000 % |s.rom|]
  {
    assert (s.pc + 1) % 0x1_0000 == 0xFFFF;
    NesV0.JumpAbsoluteLaw(s);
    Ai4k.JumpAtTopReadsRom(s);
  }
}
