/** The NES CPU address map shared by both emulator variants: 2 KiB of work
    RAM mirrored below 0x2000, program ROM mirrored by its actual length from
    0x8000 upwards, and an open region in between that reads as 0 and ignores
    writes. Everything here is a pure function of the RAM contents, the ROM
    and the address; the emulator's Memory classes are proved against it. */
module MemoryMap {

  /** An 8-bit value as stored in RAM, ROM and the 8-bit registers. */
  type Byte = b: int | 0 <= b < 0x100

  /** A 16-bit value: the program counter and a little-endian word. */
  type Word = w: int | 0 <= w < 0x1_0000

  const RAM_SIZE: nat := 0x800
  const RAM_END: nat := 0x2000
  const ROM_START: nat := 0x8000

  /** The byte at `address`. The ROM branch divides by the ROM's length,
      so only that branch needs a non-empty ROM. Addresses are unbounded
      naturals: one variant reads 0x10000 without masking it. */
  function Read(ram: seq<Byte>, rom: seq<Byte>, address: nat): Byte
    requires |ram| == RAM_SIZE
    requires ROM_START <= address ==> |rom| > 0
  {
    if address < RAM_END then ram[address % RAM_SIZE]
    else if address >= ROM_START then rom[(address - ROM_START) % |rom|]
    else 0
  }

  /** The RAM after writing `value` at `address`: only addresses below 0x2000
      reach RAM, and the stored byte is `value & 0xFF` (for every integer,
      including a negative one, this is Dafny's Euclidean `value % 0x100`). */
  function Store(ram: seq<Byte>, address: nat, value: int): (ram': seq<Byte>)
    requires |ram| == RAM_SIZE
    ensures |ram'| == RAM_SIZE
  {
    if address < RAM_END then ram[address % RAM_SIZE := value % 0x100] else ram
  }

  /** The 16-bit value whose low byte is `lo` and high byte is `hi`
      (`lo | (hi << 8)`; see LittleEndianIsBitwise). */
  function LittleEndian(lo: Byte, hi: Byte): (w: Word)
    ensures w % 0x100 == lo && w / 0x100 == hi
  {
    lo + hi * 0x100
  }

  /** The arithmetic form of LittleEndian agrees with the bitwise form the
      emulator writes, `lo | (hi << 8)`. */
  lemma LittleEndianIsBitwise(lo: bv8, hi: bv8)
    ensures LittleEndian(lo as int, hi as int) == ((lo as bv16) | ((hi as bv16) << 8)) as int
  {
    var w := (lo as bv16) | ((hi as bv16) << 8);
    assert w == (lo as bv16) + (hi as bv16) * 0x100;
  }

  /** Little-endian word fetch whose high-byte address wraps at 64 KiB. */
  function ReadWordWrapped(ram: seq<Byte>, rom: seq<Byte>, address: nat): (w: Word)
    requires |ram| == RAM_SIZE && |rom| > 0
    ensures w % 0x100 == Read(ram, rom, address)
    ensures w / 0x100 == Read(ram, rom, (address + 1) % 0x1_0000)
  {
    LittleEndian(Read(ram, rom, address), Read(ram, rom, (address + 1) % 0x1_0000))
  }

  /** Little-endian word fetch whose high-byte address is `address + 1`
      with no masking, so it can reach 0x10000. */
  function ReadWordUnwrapped(ram: seq<Byte>, rom: seq<Byte>, address: nat): (w: Word)
    requires |ram| == RAM_SIZE && |rom| > 0
    ensures w % 0x100 == Read(ram, rom, address)
    ensures w / 0x100 == Read(ram, rom, address + 1)
  {
    LittleEndian(Read(ram, rom, address), Read(ram, rom, address + 1))
  }

  /** Two addresses below 0x2000 that agree modulo 0x800 read the same cell:
      RAM appears four times in the low 8 KiB. */
  lemma RamMirror(ram: seq<Byte>, rom: seq<Byte>, address: nat, k: nat)
    requires |ram| == RAM_SIZE
    requires address + k * RAM_SIZE < RAM_END
    ensures Read(ram, rom, address + k * RAM_SIZE) == Read(ram, rom, address % RAM_SIZE)
    ensures Read(ram, rom, address + k * RAM_SIZE) == ram[address % RAM_SIZE]
  {
  }

  /** From 0x8000 upwards ROM repeats with period equal to its actual length. */
  lemma RomMirror(ram: seq<Byte>, rom: seq<Byte>, offset: nat)
    requires |ram| == RAM_SIZE && |rom| > 0
    ensures Read(ram, rom, ROM_START + offset) == rom[offset % |rom|]
    ensures Read(ram, rom, ROM_START + offset + |rom|) == Read(ram, rom, ROM_START + offset)
  {
    ModPeriod(offset, |rom|);
  }

  /** The first |rom| bytes from 0x8000 are the ROM itself, unmirrored. */
  lemma RomPrefix(ram: seq<Byte>, rom: seq<Byte>, offset: nat)
    requires |ram| == RAM_SIZE && offset < |rom|
    ensures Read(ram, rom, ROM_START + offset) == rom[offset]
  {
    ModUnique(offset, |rom|, 0, offset);
  }

  /** Adding the modulus does not change a remainder. */
  lemma ModPeriod(x: nat, n: nat)
    requires n > 0
    ensures (x + n) % n == x % n
  {
    var q, r := x / n, x % n;
    assert x + n == (q + 1) * n + r;
    ModUnique(x + n, n, q + 1, r);
  }

  /** Euclidean division determines the remainder uniquely. */
  lemma ModUnique(x: nat, n: nat, q: int, r: int)
    requires n > 0 && 0 <= r < n && x == q * n + r
    ensures x % n == r
  {
    var q', r' := x / n, x % n;
    if q < q' {
      MulAtLeast(q' - q, n);
    } else if q > q' {
      MulAtLeast(q - q', n);
    }
  }

  lemma MulAtLeast(d: int, n: nat)
    requires d >= 1
    ensures d * n >= n
  {
    assert d * n == (d - 1) * n + n;
  }

  /** The unmapped window reads as 0 whatever RAM and ROM hold. */
  lemma OpenBusReadsZero(ram: seq<Byte>, rom: seq<Byte>, address: nat)
    requires |ram| == RAM_SIZE
    requires RAM_END <= address < ROM_START
    ensures Read(ram, rom, address) == 0
  {
  }

  /** Address 0x10000, reachable only by an unmasked fetch, still takes the
      ROM branch and reads ROM offset 0x8000 modulo the ROM length. */
  lemma ReadPastTop(ram: seq<Byte>, rom: seq<Byte>)
    requires |ram| == RAM_SIZE && |rom| > 0
    ensures Read(ram, rom, 0x1_0000) == rom[0x8000 % |rom|]
  {
  }

  /** A write changes exactly the mirrored RAM cell it targets, to the low
      byte of the value, and a write at or above 0x2000 changes nothing. */
  lemma StoreFrame(ram: seq<Byte>, address: nat, value: int, i: nat)
    requires |ram| == RAM_SIZE && i < RAM_SIZE
    ensures address >= RAM_END ==> Store(ram, address, value) == ram
    ensures address < RAM_END && i == address % RAM_SIZE ==>
              Store(ram, address, value)[i] == value % 0x100
    ensures address < RAM_END && i != address % RAM_SIZE ==>
              Store(ram, address, value)[i] == ram[i]
  {
  }

  /** Reading after a write: an address that mirrors the written cell returns
      the stored low byte, every other address returns what it returned
      before. In particular a write at or above 0x2000 is invisible. */
  lemma ReadAfterStore(ram: seq<Byte>, rom: seq<Byte>, address: nat, value: int, other: nat)
    requires |ram| == RAM_SIZE
    requires ROM_START <= other ==> |rom| > 0
    ensures Read(Store(ram, address, value), rom, other) ==
              if address < RAM_END && other < RAM_END && address % RAM_SIZE == other % RAM_SIZE
              then value % 0x100
              else Read(ram, rom, other)
  {
  }
}
