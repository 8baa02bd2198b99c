/** The iNES cartridge container: the loader and the header builder of
    EMUNESV0.py and the header-driven slicing inlined in EmulatorApp of
    EMUAI4K.py. A file is a byte sequence; `f.read(n)` at a file position is
    "the next n bytes, or fewer at end of file", so a truncated file gives
    short slices and never an error. */
module INes {
  import opened MemoryMap

  const SIGNATURE: seq<Byte> := [0x4E, 0x45, 0x53, 0x1A]  // "NES" and MS-DOS end-of-file
  const HEADER_SIZE: nat := 16
  const TRAINER_SIZE: nat := 512
  const PRG_UNIT: nat := 0x4000  // 16 KiB
  const CHR_UNIT: nat := 0x2000  // 8 KiB

  datatype Cartridge = Cartridge(prg: seq<Byte>, chr: seq<Byte>)

  datatype LoadError =
    | BadSignature     // bytes 0-3 are not the signature (or the file is shorter)
    | TruncatedHeader  // a header byte the loader indexes is missing

  datatype FormatError = UnitCountTooLarge  // a unit count does not fit in a header byte

  datatype Result<T, E> = Ok(value: T) | Err(error: E)

  function Min(a: nat, b: nat): nat {
    if a <= b then a else b
  }

  /** `f.read(n)` at position `pos`: at most `n` bytes, fewer at end of file. */
  function ReadUpTo(file: seq<Byte>, pos: nat, n: nat): (chunk: seq<Byte>)
    requires pos <= |file|
    ensures |chunk| == Min(n, |file| - pos)
    ensures chunk == file[pos..pos + |chunk|]
  {
    file[pos..Min(pos + n, |file|)]
  }

  /** The file position after `f.read(n)` at `pos`. */
  function Advance(file: seq<Byte>, pos: nat, n: nat): (pos': nat)
    requires pos <= |file|
    ensures pos <= pos' <= |file|
    ensures pos' == pos + |ReadUpTo(file, pos, n)|
  {
    Min(pos + n, |file|)
  }

  /** Header byte 6, bit 2. */
  function TrainerPresent(flags6: Byte): bool {
    (flags6 as bv8) & 0x04 != 0
  }

  /** load_ines_rom: check the signature, skip the trainer when flagged, then
      read the PRG bytes and, when the header declares any, the CHR bytes. */
  function Load(file: seq<Byte>): (r: Result<Cartridge, LoadError>)
    ensures r.Ok? <==> |file| >= 7 && file[..4] == SIGNATURE
    ensures r == Err(BadSignature) <==> |file| < 4 || file[..4] != SIGNATURE
  {
    var header := ReadUpTo(file, 0, HEADER_SIZE);
    var pos := Advance(file, 0, HEADER_SIZE);
    if |header| < 4 || header[..4] != SIGNATURE then
      Err(BadSignature)
    else if |header| < 7 then
      Err(TruncatedHeader)
    else
      var prgSize := header[4] * PRG_UNIT;
      var chrSize := header[5] * CHR_UNIT;
      var pos := if TrainerPresent(header[6]) then Advance(file, pos, TRAINER_SIZE) else pos;
      var prg := ReadUpTo(file, pos, prgSize);
      var pos := Advance(file, pos, prgSize);
      var chr := if chrSize > 0 then ReadUpTo(file, pos, chrSize) else [];
      Ok(Cartridge(prg, chr))
  }

  /** Where a successful load takes its slices from, in absolute file
      offsets: PRG is the up-to-`header[4] * 16384` bytes from offset 16, or
      from 528 past a trainer; CHR is the up-to-`header[5] * 8192` bytes right
      after the declared PRG, and empty when `header[5]` is 0. */
  lemma LoadSlices(file: seq<Byte>)
    requires |file| >= 7 && file[..4] == SIGNATURE
    ensures var start := if TrainerPresent(file[6]) then HEADER_SIZE + TRAINER_SIZE else HEADER_SIZE;
      var prgEnd := start + file[4] * PRG_UNIT;
      && Load(file).value.prg == file[Min(start, |file|)..Min(prgEnd, |file|)]
      && Load(file).value.chr ==
           (if file[5] == 0 then []
            else file[Min(prgEnd, |file|)..Min(prgEnd + file[5] * CHR_UNIT, |file|)])
  {
    var header := ReadUpTo(file, 0, HEADER_SIZE);
    assert header[..7] == file[..7];
    assert header[4] == file[4] && header[5] == file[5] && header[6] == file[6];
  }

  /** The 16-byte header: signature, PRG and CHR unit counts, then zeros
      (mapper 0, no trainer). */
  function Header(prgUnits: Byte, chrUnits: Byte): (h: seq<Byte>)
    ensures |h| == HEADER_SIZE && h[..4] == SIGNATURE && h[4] == prgUnits && h[5] == chrUnits
    ensures forall i | 6 <= i < HEADER_SIZE :: h[i] == 0
  {
    SIGNATURE + [prgUnits, chrUnits] + seq(10, _ => 0)
  }

  /** format_ines_rom without its file handling: the header, then PRG, then
      CHR (empty when there is no CHR file). The unit counts are floored; a
      count above 255 cannot be stored in a header byte and fails. */
  function Format(prg: seq<Byte>, chr: seq<Byte>): (r: Result<seq<Byte>, FormatError>)
    ensures r.Ok? <==> |prg| / PRG_UNIT < 0x100 && |chr| / CHR_UNIT < 0x100
    ensures r.Ok? ==> |r.value| == HEADER_SIZE + |prg| + |chr|
    ensures r.Ok? ==> r.value[..HEADER_SIZE] == Header(|prg| / PRG_UNIT, |chr| / CHR_UNIT)
    ensures r.Ok? ==> r.value[HEADER_SIZE..] == prg + chr
  {
    var prgUnits := |prg| / PRG_UNIT;
    var chrUnits := |chr| / CHR_UNIT;
    if prgUnits >= 0x100 || chrUnits >= 0x100 then
      Err(UnitCountTooLarge)
    else
      var out := Header(prgUnits, chrUnits) + prg + chr;
      assert out[HEADER_SIZE..] == prg + chr;
      Ok(out)
  }

  /** The fields of a formatted image that the loader looks at: a signed
      header without a trainer flag, declaring the whole units of PRG and
      CHR, followed by the payload. */
  lemma FormattedFields(prg: seq<Byte>, chr: seq<Byte>)
    requires |prg| / PRG_UNIT < 0x100 && |chr| / CHR_UNIT < 0x100
    ensures Format(prg, chr).Ok?
    ensures var file := Format(prg, chr).value;
      && |file| == HEADER_SIZE + |prg| + |chr|
      && file[..4] == SIGNATURE && !TrainerPresent(file[6])
      && file[4] * PRG_UNIT == (|prg| / PRG_UNIT) * PRG_UNIT
      && file[5] * CHR_UNIT == (|chr| / CHR_UNIT) * CHR_UNIT
      && file[HEADER_SIZE..] == prg + chr
  {
    var file := Format(prg, chr).value;
    var h := Header(|prg| / PRG_UNIT, |chr| / CHR_UNIT);
    assert file[..HEADER_SIZE] == h;
    assert file[..4] == h[..4];
    assert file[4] == h[4] && file[5] == h[5] && file[6] == h[6] == 0;
  }

  /** Loading a formatted image for any payload sizes: the header declares
      whole units only, so PRG comes back cut to whole 16 KiB banks, and CHR
      is read from where the declared PRG ends, which takes in the PRG bytes
      past the last whole bank when PRG is not a multiple of 16 KiB. */
  lemma {:induction false} FormatThenLoad(prg: seq<Byte>, chr: seq<Byte>)
    requires |prg| / PRG_UNIT < 0x100 && |chr| / CHR_UNIT < 0x100
    ensures var body, p, c := prg + chr, (|prg| / PRG_UNIT) * PRG_UNIT, (|chr| / CHR_UNIT) * CHR_UNIT;
      && Format(prg, chr).Ok?
      && Load(Format(prg, chr).value) ==
           Ok(Cartridge(body[..p], if c == 0 then [] else body[p..p + c]))
  {
    var p, c := (|prg| / PRG_UNIT) * PRG_UNIT, (|chr| / CHR_UNIT) * CHR_UNIT;
    WholeUnits(|prg|, PRG_UNIT);
    WholeUnits(|chr|, CHR_UNIT);
    FormattedFields(prg, chr);
    LoadSignedImage(Format(prg, chr).value, prg + chr, p, c);
  }

  /** Whole units of `unit` never exceed the length they are taken from. */
  lemma WholeUnits(n: nat, unit: nat)
    requires unit > 0
    ensures (n / unit) * unit <= n
  {
  }

  /** Loading a signed, trainer-less image whose header declares `p` PRG
      bytes and `c` CHR bytes, both present in the body after the header. */
  lemma LoadSignedImage(file: seq<Byte>, body: seq<Byte>, p: nat, c: nat)
    requires |file| == HEADER_SIZE + |body| && |file| >= 7 && p + c <= |body|
    requires file[..4] == SIGNATURE && !TrainerPresent(file[6])
    requires file[4] * PRG_UNIT == p && file[5] * CHR_UNIT == c
    requires file[HEADER_SIZE..] == body
    ensures Load(file) == Ok(Cartridge(body[..p], if c == 0 then [] else body[p..p + c]))
  {
    LoadSlices(file);
    assert Min(HEADER_SIZE, |file|) == HEADER_SIZE;
    assert Min(HEADER_SIZE + p, |file|) == HEADER_SIZE + p;
    assert Load(file).value.prg == body[..p] by {
      assert file[HEADER_SIZE..HEADER_SIZE + p] == body[..p];
    }
    if c > 0 {
      assert Min(HEADER_SIZE + p + c, |file|) == HEADER_SIZE + p + c;
      assert Load(file).value.chr == body[p..p + c] by {
        assert file[HEADER_SIZE + p..HEADER_SIZE + p + c] == body[p..p + c];
      }
    }
  }

  /** Round trip: when PRG and CHR are whole numbers of 16 KiB and 8 KiB
      units, at most 255 each, loading the formatted image gives them back. */
  lemma {:induction false} RoundTrip(prg: seq<Byte>, chr: seq<Byte>)
    requires |prg| % PRG_UNIT == 0 && |prg| / PRG_UNIT < 0x100
    requires |chr| % CHR_UNIT == 0 && |chr| / CHR_UNIT < 0x100
    ensures Format(prg, chr).Ok?
    ensures Load(Format(prg, chr).value) == Ok(Cartridge(prg, chr))
  {
    FormatThenLoad(prg, chr);
    ExactUnits(|prg|, PRG_UNIT);
    ExactUnits(|chr|, CHR_UNIT);
    var body := prg + chr;
    assert body[..|prg|] == prg;
    assert body[|prg|..|prg| + |chr|] == chr;
  }

  /** A length that is a whole number of units is that many units. */
  lemma ExactUnits(n: nat, unit: nat)
    requires unit > 0 && n % unit == 0
    ensures (n / unit) * unit == n
  {
  }

  /** The loader inlined in EmulatorApp of EMUAI4K.py: no signature check and
      no trainer skip; PRG is read right after the header and CHR right
      after that, even when the header declares none. */
  function LoadUnchecked(file: seq<Byte>): (r: Result<Cartridge, LoadError>)
    ensures r.Ok? <==> |file| >= 6
  {
    var header := ReadUpTo(file, 0, HEADER_SIZE);
    var pos := Advance(file, 0, HEADER_SIZE);
    if |header| < 6 then
      Err(TruncatedHeader)
    else
      var prgSize := PRG_UNIT * header[4];
      var chrSize := CHR_UNIT * header[5];
      var prg := ReadUpTo(file, pos, prgSize);
      var pos := Advance(file, pos, prgSize);
      var chr := ReadUpTo(file, pos, chrSize);
      Ok(Cartridge(prg, chr))
  }

  /** The inline loader's slices in absolute offsets: PRG from offset 16
      whatever byte 6 says, CHR right after the declared PRG. */
  lemma LoadUncheckedSlices(file: seq<Byte>)
    requires |file| >= 6
    ensures var prgEnd := HEADER_SIZE + file[4] * PRG_UNIT;
      && LoadUnchecked(file).value.prg == file[Min(HEADER_SIZE, |file|)..Min(prgEnd, |file|)]
      && LoadUnchecked(file).value.chr ==
           file[Min(prgEnd, |file|)..Min(prgEnd + file[5] * CHR_UNIT, |file|)]
  {
    var header := ReadUpTo(file, 0, HEADER_SIZE);
    assert header[4] == file[4] && header[5] == file[5];
  }

  /** On a file with a valid signature and no trainer the two loaders agree;
      the inline loader also accepts what load_ines_rom rejects. */
  lemma LoadersAgree(file: seq<Byte>)
    requires |file| >= 7 && file[..4] == SIGNATURE && !TrainerPresent(file[6])
    ensures LoadUnchecked(file) == Load(file)
  {
    LoadSlices(file);
    LoadUncheckedSlices(file);
  }
}
