# NES emulator core: memory map, 6502-subset interpreter, iNES container

This project models the sequential core of two near-duplicate NES emulator
sketches, `EMUNESV0.py` and `EMUAI4K.py`, and proves properties of it in Dafny.
The core has three parts:

- **The CPU memory map.** It holds 2 KiB of work RAM and a program ROM. Below
  0x2000, RAM is mirrored modulo 0x800. From 0x8000 up, ROM is read modulo its
  actual length. Everything in between reads as 0 and ignores writes.
  `memory_map.dfy` (module `MemoryMap`) defines this map once, as pure
  functions over the RAM contents and the ROM.
- **The 6502 interpreter.** Its state is `PC`, `A`, `X`, `Y`, `SP` and an 8-bit
  status register. Each `step` fetches an opcode, decodes it and updates
  registers, flags and RAM.
  - `processor.dfy` (module `Processor`) holds what both variants share: the
    state value, the flag updates, the reset state and the meaning of each
    decoded instruction (`Execute`).
  - `nes_v0.dfy` (module `NesV0`) has the nine-opcode table of `EMUNESV0.py`.
  - `ai4k.dfy` (module `Ai4k`) has the five-opcode table of `EMUAI4K.py`.
  - `variants.dfy` (module `Variants`) compares the two on the same state.
  - Each of those two modules has a `Memory` class and a `Cpu` class. `Memory`
    keeps RAM in an `array` that `Write` updates in place. `Cpu` updates its
    register fields in place in `Step`, through `SetFlag` and `Memory.Write`.
    `Cpu.Step` is proved to produce exactly the state that the pure `Exec`
    function gives. The per-opcode laws, the trace lemmas over `Run` and the
    end-to-end scenario are proved about `Exec`.
- **The iNES container.** `ines.dfy` (module `INes`) covers three pieces of
  code, with the file handles removed: the loader `load_ines_rom`, the
  header builder `format_ines_rom`, and the inline loader in `EmulatorApp` of
  `EMUAI4K.py`. A file is a byte sequence. `f.read(n)` takes up to `n` bytes,
  so a truncated file gives short slices rather than an error.

Besides their opcode tables and ROM loading, the two variants differ in one
place. `EMUNESV0.py` masks the address of the
second operand byte, and the address of the high byte in `read_word`, with
`& 0xFFFF`. `EMUAI4K.py` does not mask them, so address 0x10000 can be read,
and it lands in ROM. `Processor.OperandFetch` names the two behaviours, and
`Variants.JumpAtTopDiverges` states both variants' result for a JMP at
0xFFFE.

How the source's values are represented:

- Bytes and 16-bit values are the subset types `Byte` (0..255) and `Word`
  (0..0xFFFF). The verifier checks every register update against them, which
  proves that `A`, `X`, `Y` stay in [0, 255] and `PC` stays in [0, 0xFFFF].
- Addresses are unbounded naturals, since one variant can form 0x10000.
- `value & 0xFF` on a Python integer equals Dafny's Euclidean `value % 0x100`,
  for negative values too. `(X - 1) & 0xFF` is written as `(x - 1) % 0x100`.
- `lo | (hi << 8)` is written `LittleEndian(lo, hi)`, which is
  `lo + hi * 0x100`. `MemoryMap.LittleEndianIsBitwise` proves that the two
  forms agree.
- The status register is a `bv8`. The Python integer never leaves [0, 255]:
  it starts at 0x24 and is only ever ORed with, or ANDed with the complement
  of, the one-byte flags 0x02 and 0x80.
- `self.A & 0x80` is used as a truth value, so it tests bit 7. For a byte,
  that bit is set exactly when the byte is at least 0x80
  (`Processor.NegativeIsBit7`), and the model writes the test that way.

Further facts about the code that the model keeps:

- `EMUAI4K.py` reads the first operand byte at the masked `PC`, but the
  second at the unmasked `PC + 1`, and the high byte of `read_word` at the
  unmasked `address + 1`. So 0x10000 is reachable.
- The ROM may have any non-zero length, and reads from 0x8000 up mirror by
  that length.
- A header of 4 to 6 bytes with a valid signature fails with
  `TruncatedHeader`, because indexing byte 4, 5 or 6 raises `IndexError`.

## Model

| member | source | states |
|---|---|---|
| `MemoryMap.Read` | EMUNESV0.py:17-22 | `read`: the address map, characterised by `RamMirror` (RAM mirrored below 0x2000), `RomMirror`/`RomPrefix` (ROM mirrored by its length from 0x8000), `OpenBusReadsZero` (0 in between) and `ReadPastTop` (0x10000 lands in ROM). |
| `MemoryMap.Store` | EMUNESV0.py:24-26 | `write`: RAM keeps its 2 KiB size; `StoreFrame` and `ReadAfterStore` state that only the mirrored cell changes, to `value & 0xFF`, and only below 0x2000. |
| `MemoryMap.LittleEndian` | EMUNESV0.py:31 | The word's low byte is `lo` and its high byte is `hi`. |
| `MemoryMap.LittleEndianIsBitwise` | EMUNESV0.py:78 | `lo + hi * 256` equals the source's `lo \| (hi << 8)` for all byte pairs. |
| `MemoryMap.ReadWordWrapped` | EMUNESV0.py:28-31 | Little-endian fetch: the low byte is `read(a)` and the high byte is `read((a + 1) & 0xFFFF)`. The result is below 0x10000. |
| `MemoryMap.ReadWordUnwrapped` | EMUAI4K.py:22-25 | Little-endian fetch: the low byte is `read(a)` and the high byte is `read(a + 1)`, with no mask. |
| `MemoryMap.RamMirror` | EMUNESV0.py:17-19 | Below 0x2000, `read(a + k*0x800)` is `ram[a % 0x800]`, the same cell as `read(a % 0x800)`. |
| `MemoryMap.RomMirror` | EMUNESV0.py:20-21 | `read(0x8000 + i)` is `prg_rom[i % len]`, and ROM repeats with period `len(prg_rom)`. |
| `MemoryMap.RomPrefix` | EMUNESV0.py:20-21 | The first `len(prg_rom)` bytes from 0x8000 are the ROM, unmirrored. |
| `MemoryMap.OpenBusReadsZero` | EMUNESV0.py:17-22 | Every address in [0x2000, 0x8000) reads 0, whatever RAM and ROM hold. |
| `MemoryMap.ReadPastTop` | EMUAI4K.py:14-15 | `read(0x10000)` takes the ROM branch at offset `0x8000 % len` and does not fail for a non-empty ROM. |
| `MemoryMap.StoreFrame` | EMUNESV0.py:24-26 | A write below 0x2000 sets only `ram[a % 0x800]`, to `v & 0xFF`, and leaves every other cell. A write at 0x2000 or above changes nothing. |
| `MemoryMap.ReadAfterStore` | EMUNESV0.py:17-26 | After `write(a, v)`, an address that mirrors the written cell reads `v & 0xFF`. Every other address, and every address after a write at 0x2000 or above, reads as before. |
| `Processor.Reset` | EMUNESV0.py:35-42 | The constructor's state: `PC` is the little-endian word from ROM offsets `0x7FFC % len` and `0x7FFD % len`, `A = X = Y = 0`, `SP = 0xFD` and `status = 0x24`. |
| `Processor.WithFlag` | EMUNESV0.py:44-48 | `set_flag`: the flag's bits become all set or all clear, and every other status bit is kept. |
| `Processor.FlagRoundTrip` | EMUNESV0.py:44-51 | `get_flag` of a single-bit flag after `set_flag` returns the value set. Setting a flag leaves every other single-bit flag as it was. |
| `Processor.WithZeroNegative` | EMUNESV0.py:61-62 | After the update, Zero is set iff the value is 0, and Negative is set iff bit 7 of the value is set. |
| `Processor.NegativeIsBit7` | EMUNESV0.py:62 | For every byte, `value & 0x80` is non-zero iff the value is at least 0x80, the test `WithZeroNegative` uses. |
| `Processor.ZeroNegativeUntouched` | EMUNESV0.py:61-62 | The Zero/Negative update keeps every status bit outside 0x82. |
| `Processor.Execute` | EMUNESV0.py:53-98 | Every decoded instruction keeps RAM at 2 KiB, keeps the ROM and keeps `SP`. |
| `Processor.StatusUntouched` | EMUNESV0.py:57-98 | No instruction changes a status bit outside Zero and Negative. |
| `Processor.PcAdvance` | EMUNESV0.py:53-84 | `PC` advances by 2 for a load, by 3 for STA and by 1 for every one-byte opcode, all mod 0x10000. JMP sets `PC` to its operand outright. |
| `Processor.ExecuteFrame` | EMUNESV0.py:57-94 | Only a load into a register, or INX/DEX on X, changes that register. Only STA changes RAM, and only at its operand address. |
| `NesV0.Decode` | EMUNESV0.py:57-98 | Exactly the opcodes A9, A2, A0, 8D, 4C, EA, E8, CA and 00 are recognised. Every other opcode is unimplemented. |
| `NesV0.Exec` | EMUNESV0.py:53-98 | One cycle keeps the state well-formed and keeps the ROM and `SP`. |
| `NesV0.Run` | EMUNESV0.py:203 | Any number of repeated `step` calls keeps the state well-formed, the ROM and `SP`. |
| `NesV0.Memory.constructor` | EMUNESV0.py:13-15 | RAM is 0x800 zero bytes, and the ROM is kept as given. |
| `NesV0.Memory.Read` | EMUNESV0.py:17-22 | The array-backed read returns the byte the address map gives for the live RAM contents. |
| `NesV0.Memory.Write` | EMUNESV0.py:24-26 | The RAM array afterwards is the address map's store of `value & 0xFF` at the address. |
| `NesV0.Memory.ReadWord` | EMUNESV0.py:28-31 | The wrapping little-endian word fetch over the live RAM. |
| `NesV0.Cpu.constructor` | EMUNESV0.py:35-42 | The new processor's state is the reset state over the memory given. |
| `NesV0.Cpu.SetFlag` | EMUNESV0.py:44-48 | `status` becomes `status \| flag` or `status & ~flag`, and nothing else changes. |
| `NesV0.Cpu.GetFlag` | EMUNESV0.py:50-51 | `get_flag` reads whether the flag's bits are set in the live status; `Processor.FlagRoundTrip` states that it returns what `set_flag` last set. |
| `NesV0.Cpu.SetZeroNegative` | EMUNESV0.py:61-62 | The pair of `set_flag` calls after a load or an X update leaves `status` as the Zero/Negative update of the old status, and changes nothing else. |
| `NesV0.Cpu.Step` | EMUNESV0.py:53-98 | The in-place step, including the RAM it writes, produces exactly `Exec` of the previous state. |
| `NesV0.LoadImmediateLaw` | EMUNESV0.py:57-74 | LDA/LDX/LDY immediate load `read(PC+1)` into their register and advance `PC` by 2. Zero and Negative describe the value, and no other register, flag bit or RAM cell changes. |
| `NesV0.StoreAbsoluteLaw` | EMUNESV0.py:75-80 | STA writes `A` at `lo \| (hi << 8)`, with `hi` read at `(PC+2) & 0xFFFF`. It advances `PC` by 3 and changes no register or flag. |
| `NesV0.JumpAbsoluteLaw` | EMUNESV0.py:81-84 | JMP sets `PC` to `lo \| (hi << 8)` and changes nothing else. |
| `NesV0.IncrementDecrementLaw` | EMUNESV0.py:87-94 | INX/DEX set `X := (X ± 1) & 0xFF`, recompute Zero/Negative from `X` and advance `PC` by 1. Nothing else changes. |
| `NesV0.NoOperationLaw` | EMUNESV0.py:85-98 | NOP, BRK and every unknown opcode only advance `PC` by 1. |
| `NesV0.RunKeepsUntouchedFlags` | EMUNESV0.py:53-98 | `status & 0x7D` is the same after any number of steps. |
| `NesV0.StatusFromReset` | EMUNESV0.py:42 | From reset, `status & 0x7D` stays 0x24 forever. |
| `NesV0.ResetVectorExample` | EMUNESV0.py:37 | Reset-vector bytes 0x34, 0x12 give an initial `PC` of 0x1234. |
| `NesV0.LoopScenario` | EMUNESV0.py:53-84 | With `A9 05 8D 00 02 4C 00 80` at 0x8000 and the reset vector at 0x8000, three steps give `A = 5`, `read(0x0200) = 5` and `PC = 0x8000`. |
| `Ai4k.Decode` | EMUAI4K.py:46-73 | Exactly the opcodes A9, 8D, 4C, EA and 00 are recognised. LDX, INX and DEX are unimplemented, and the only load targets `A`. |
| `Ai4k.Exec` | EMUAI4K.py:46-73 | One cycle keeps the state well-formed and keeps the ROM and `SP`. |
| `Ai4k.Run` | EMUAI4K.py:121 | Any number of repeated `step` calls keeps the state well-formed, the ROM and `SP`. |
| `Ai4k.Memory.constructor` | EMUAI4K.py:7-9 | RAM is 0x800 zero bytes, and the ROM is kept as given. |
| `Ai4k.Memory.Read` | EMUAI4K.py:11-16 | The array-backed read returns the byte the address map gives for the live RAM contents. |
| `Ai4k.Memory.Write` | EMUAI4K.py:18-20 | The RAM array afterwards is the address map's store of `value & 0xFF` at the address. |
| `Ai4k.Memory.ReadWord` | EMUAI4K.py:22-25 | The unmasked little-endian word fetch over the live RAM. |
| `Ai4k.Cpu.constructor` | EMUAI4K.py:28-35 | The new processor's state is the reset state over the memory given. |
| `Ai4k.Cpu.SetFlag` | EMUAI4K.py:37-41 | `status` becomes `status \| flag` or `status & ~flag`, and nothing else changes. |
| `Ai4k.Cpu.GetFlag` | EMUAI4K.py:43-44 | `get_flag` reads whether the flag's bits are set in the live status; `Processor.FlagRoundTrip` states that it returns what `set_flag` last set. |
| `Ai4k.Cpu.Step` | EMUAI4K.py:46-73 | The in-place step, including the RAM it writes, produces exactly `Exec` of the previous state. |
| `Ai4k.LoadAccumulatorLaw` | EMUAI4K.py:51-56 | LDA immediate sets `A := read((PC+1) & 0xFFFF)` and advances `PC` by 2. Zero and Negative describe `A`, and `X`, `Y`, RAM and the other status bits do not change. |
| `Ai4k.StoreAbsoluteLaw` | EMUAI4K.py:57-62 | STA writes `A` at `lo \| (hi << 8)`, with `lo` read at `(PC+1) & 0xFFFF` and `hi` at `((PC+1) & 0xFFFF) + 1`, unmasked. It advances `PC` by 3 and changes no register or flag. |
| `Ai4k.JumpAbsoluteLaw` | EMUAI4K.py:63-66 | JMP sets `PC` to `lo \| (hi << 8)`, with `lo` read at `(PC+1) & 0xFFFF` and `hi` at `((PC+1) & 0xFFFF) + 1`, unmasked. Nothing else changes. |
| `Ai4k.NoOperationLaw` | EMUAI4K.py:67-73 | Every opcode other than A9, 8D and 4C, including A2, E8 and CA, only advances `PC` by 1. |
| `Ai4k.JumpAtTopReadsRom` | EMUAI4K.py:63-66 | A JMP at 0xFFFE takes its high byte from address 0x10000, which is ROM offset `0x8000 % len`. |
| `Variants.JumpAtTopDiverges` | EMUAI4K.py:63-66 | For a JMP at 0xFFFE, `EMUNESV0.py` (lines 81-84) takes the high byte from RAM address 0 and `EMUAI4K.py` from ROM offset `0x8000 % len`. The two targets are equal iff those two bytes are equal. |
| `Ai4k.RunKeepsIndexRegisters` | EMUAI4K.py:46-73 | `X` and `Y` are unchanged by any number of steps. |
| `Ai4k.IndexRegistersStayZero` | EMUAI4K.py:31-33 | From reset, `X` and `Y` stay 0 forever. |
| `Ai4k.ResetUsesUnwrappedWord` | EMUAI4K.py:30 | The reset `PC` is `read_word(0xFFFC)` in this variant's unmasked form. |
| `Ai4k.LoopScenario` | EMUAI4K.py:46-66 | With `A9 05 8D 00 02 4C 00 80` at 0x8000 and the reset vector at 0x8000, three steps give `A = 5`, `read(0x0200) = 5` and `PC = 0x8000`. |
| `INes.ReadUpTo` | EMUNESV0.py:136 | `f.read(n)` returns `min(n, remaining)` bytes from the current position. |
| `INes.Advance` | EMUNESV0.py:134 | After a read, the file position moves by exactly the number of bytes returned. |
| `INes.Load` | EMUNESV0.py:123-139 | Loading succeeds iff bytes 0–3 are `4E 45 53 1A` and byte 6 exists. It reports a bad signature iff the signature is wrong or missing. |
| `INes.LoadSlices` | EMUNESV0.py:129-139 | PRG is the up-to-`header[4]*16384` bytes from offset 16, or from 528 when `header[6] & 4` is set. CHR is the up-to-`header[5]*8192` bytes right after PRG, and empty when `header[5]` is 0. |
| `INes.Header` | EMUNESV0.py:226-230 | The header is 16 bytes: the signature, the PRG and CHR unit counts, then zeros. |
| `INes.Format` | EMUNESV0.py:211-236 | Formatting fails iff a floored unit count exceeds 255. Otherwise the output is the header followed by `prg ++ chr`. |
| `INes.FormattedFields` | EMUNESV0.py:226-236 | A formatted image is `16 + len(prg) + len(chr)` bytes long, with a signed header, no trainer flag, the whole PRG and CHR units in bytes 4 and 5, and `prg ++ chr` after the header. |
| `INes.LoadSignedImage` | EMUNESV0.py:123-139 | A signed, trainer-less image whose header declares `p` PRG bytes and `c` CHR bytes, both present after the header, loads as the first `p` body bytes and the next `c` bytes (empty when `c` is 0). |
| `INes.FormatThenLoad` | EMUNESV0.py:217-236 | Loading a formatted image of any sizes returns PRG cut to whole 16 KiB banks. CHR comes from where the declared PRG ends. |
| `INes.RoundTrip` | EMUNESV0.py:211-236 | For PRG and CHR that are whole units, at most 255 each, `load(format(prg, chr)) == (prg, chr)`. |
| `INes.LoadUnchecked` | EMUAI4K.py:99-104 | The inline loader succeeds iff header bytes 4 and 5 exist, with no signature check. |
| `INes.LoadUncheckedSlices` | EMUAI4K.py:99-104 | PRG is the up-to-`16384*header[4]` bytes from offset 16, whatever byte 6 says. CHR is the up-to-`8192*header[5]` bytes right after it. |
| `INes.LoadersAgree` | EMUAI4K.py:99-104 | With a valid signature and no trainer flag, the inline loader returns what `load_ines_rom` returns. |

## Left out

- The tkinter/PIL window, menus, canvas, status bar, file dialogs and message
  boxes are not modelled. They are presentation only.
- The `emulate` timer loop that calls `step` every 16 ms is not modelled. `Run`
  models the repeated calls, without timing.
- `PPU.render_frame` is not modelled. It always returns a black numpy frame,
  so it has no logic, and it depends on a foreign array library.
- The `Controller` stub is not modelled. It only stores and returns a value.
- File I/O is left out of `load_ines_rom`, `format_ines_rom` and the
  `EmulatorApp` constructor (`open`, `f.read`, `out.write`, `print`,
  `sys.exit`). The model keeps only the slicing and concatenation on byte
  sequences.
  - A missing file is not modelled.
  - `format_ines_rom` without a CHR file is modelled as an empty CHR sequence.
    The source writes the same bytes in that case.
- Command-line handling is not modelled: `main`, and the `__main__` block of
  `EMUAI4K.py`.
- `EMU4K4.2.25$1.0.py` is a third copy of the same core. It is not part of
  this model.
- Python exceptions are modelled as `Err` values. A bad signature is
  `ValueError`. An `IndexError` on a short header is `TruncatedHeader`, both
  when `open_rom` catches it and in `EMUAI4K.py`, where nothing catches it and
  the program stops. A unit count that does not fit in `bytearray` is
  `UnitCountTooLarge`.
- `NesV0.Cpu.constructor`: requires a non-empty ROM. With an empty ROM the
  source raises `ZeroDivisionError` while reading the reset vector, so no
  processor is ever created. `Ai4k.Cpu.constructor` and both `Step` methods
  rely on the same condition.
- `Ai4k.Cpu.constructor`: requires a non-empty ROM, for the same reason.
- Bytes read from a ROM file are assumed to be 0..255, as Python `bytes`
  elements are. The ROM is a `seq<Byte>`.
