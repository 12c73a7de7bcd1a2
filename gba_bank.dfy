/** The music-bank decoder: starting at a bank's base address, a 4-byte
    header, the table of song offsets, the instruments laid out one after
    another, and then each song at its own offset from the base, with its
    patterns of rows. Each row is either the offset 0 (an empty row) or an
    offset from the base to a bitmask that says which of the five fields
    of each channel's cell are stored, followed by only those bytes.

    Each stage is a specification function over the file's bytes, written
    step by step as the source reads, and a method with the source's loops
    that is proved to return what the function says. */
module GbaBank {
  import opened Bytes

  import opened GbaRecords
  import opened Song
  import Misc

  /** An instrument: its header and its `sampleLength` raw sample bytes
      (signed 8-bit PCM, kept here as the bytes that hold it). */
  datatype Instrument = Instrument(header: InstrumentHeader, sample: seq<byte>)

  datatype GbaSong = GbaSong(header: SongHeader, patternOrder: seq<byte>, patterns: seq<Pattern>)

  datatype Bank = Bank(instruments: seq<Instrument>, songs: seq<GbaSong>)

  // ---- row bitmasks

  /** `b & (0x80 >> s)` is nonzero: bit `7 - s` of `b` is set. */
  predicate BitSet(b: byte, s: nat)
    requires s < 8
  {
    match s
    case 0 => b / 0x80 % 2 == 1
    case 1 => b / 0x40 % 2 == 1
    case 2 => b / 0x20 % 2 == 1
    case 3 => b / 0x10 % 2 == 1
    case 4 => b / 0x08 % 2 == 1
    case 5 => b / 0x04 % 2 == 1
    case 6 => b / 0x02 % 2 == 1
    case 7 => b % 2 == 1
  }

  /** The number of bitmask bytes of a row: 5 bits per channel, rounded up
      to whole bytes. */
  function MaskLength(channelCount: nat): (n: nat)
    ensures 8 * n >= 5 * channelCount && 8 * n < 5 * channelCount + 8
  {
    (channelCount * 5 + 7) / 8
  }

  /** Bit `j` of a row bitmask, counted from the most significant bit of
      the first byte: `mask[j / 8] & (0x80 >> (j % 8))` is nonzero. */
  predicate Bit(mask: seq<byte>, j: nat)
    requires j < 8 * |mask|
  {
    BitSet(mask[j / 8], j % 8)
  }

  /** The bits of a row bitmask, in the order the fields are tested. */
  function Bits(mask: seq<byte>): (bits: seq<bool>)
    ensures |bits| == 8 * |mask|
    ensures forall j :: 0 <= j < |bits| ==> bits[j] == Bit(mask, j)
  {
    seq(8 * |mask|, j requires 0 <= j < 8 * |mask| => Bit(mask, j))
  }

  /** The number of set bits before bit `j`: how many field bytes precede
      the byte of field `j`, if that field is present. */
  function Rank(bits: seq<bool>, j: nat): (n: nat)
    requires j <= |bits|
    ensures n <= j
  {
    if j == 0 then 0 else Rank(bits, j - 1) + (if bits[j - 1] then 1 else 0)
  }

  lemma {:induction false} RankMonotone(bits: seq<bool>, i: nat, j: nat)
    requires i <= j <= |bits|
    ensures Rank(bits, i) <= Rank(bits, j)
    decreases j
  {
    if i < j {
      RankMonotone(bits, i, j - 1);
    }
  }

  /** Field `j` (channel `j / 5`, field `j % 5`) of a row whose field
      bytes start at `p0`: its byte if the bit is set, 0 otherwise. (A
      present field past the end makes the whole row fail; see `RowSpec`.) */
  function Present(data: seq<byte>, p0: nat, bits: seq<bool>, j: nat): byte
    requires j < |bits|
  {
    if bits[j] && p0 + Rank(bits, j) < |data| then data[p0 + Rank(bits, j)] else 0
  }

  /** The cell whose five fields are the bits `j` to `j + 4`: the cell
      of channel `c` is `RowCell(.., 5 * c)`. */
  function RowCell(data: seq<byte>, p0: nat, bits: seq<bool>, j: nat): Cell
    requires j + 5 <= |bits|
  {
    Cell(Present(data, p0, bits, j), Present(data, p0, bits, j + 1), Present(data, p0, bits, j + 2),
         Present(data, p0, bits, j + 3), Present(data, p0, bits, j + 4))
  }

  /** The cells of a row whose present fields start at `p0`. */
  function RowCells(data: seq<byte>, p0: nat, bits: seq<bool>, channelCount: nat): (cells: seq<Cell>)
    requires 5 * channelCount <= |bits|
    ensures |cells| == channelCount
  {
    seq(channelCount, c requires 0 <= c < channelCount => RowCell(data, p0, bits, 5 * c))
  }

  /** The bits of the bitmask of the row at `pos`; a row of no channels
      has an empty bitmask. */
  function MaskBits(data: seq<byte>, pos: nat, channelCount: nat): (bits: seq<bool>)
    requires channelCount == 0 || pos + MaskLength(channelCount) <= |data|
    ensures |bits| == 8 * MaskLength(channelCount) >= 5 * channelCount
  {
    if channelCount == 0 then [] else Bits(data[pos..pos + MaskLength(channelCount)])
  }

  /** The row at `pos` has no channels (and reads nothing), or its bitmask
      and all the field bytes it selects lie in the file. */
  predicate RowFits(data: seq<byte>, pos: nat, channelCount: nat) {
    channelCount == 0 ||
    (pos + MaskLength(channelCount) <= |data| &&
     pos + MaskLength(channelCount) + Rank(MaskBits(data, pos, channelCount), 5 * channelCount) <= |data|)
  }

  /** The row whose bitmask is at `pos`: `channelCount` cells, where field
      `k` of channel `c` is present iff bit `c * 5 + k` is set, and the
      present fields take one byte each, channel by channel and field by
      field, right after the bitmask. The row fails exactly when the
      bitmask or one of those bytes lies past the end. */
  function RowSpec(data: seq<byte>, pos: nat, channelCount: nat): (r: Result<Row>)
    ensures r.Ok? ==> |r.value.cells| == channelCount
  {
    var n := MaskLength(channelCount);
    var mask :- ReadBytes(data, pos, n);
    var p0, bits := pos + n, Bits(mask);
    assert bits == MaskBits(data, pos, channelCount);
    if channelCount == 0 || p0 + Rank(bits, 5 * channelCount) <= |data| then
      Ok(Row(RowCells(data, p0, bits, channelCount)))
    else
      Err(TruncatedInput)
  }

  /** One field test of the source: if bit `j` is set, the next byte of
      the stream is that field's value. */
  method ReadIfPresent(data: seq<byte>, p0: nat, bits: seq<bool>, j: nat, q: nat) returns (r: Result<(byte, nat)>)
    requires j < |bits|
    requires q == p0 + Rank(bits, j) <= |data|
    ensures r.Ok? <==> p0 + Rank(bits, j + 1) <= |data|
    ensures r.Ok? ==> r.value == (Present(data, p0, bits, j), p0 + Rank(bits, j + 1))
  {
    if bits[j] {
      if q >= |data| {
        return Err(TruncatedInput);
      }
      return Ok((data[q], q + 1));
    }
    return Ok((0, q));
  }

  /** The five field tests of a channel whose bits start at `j`, note to
      parameter, with the stream at `p`; a field whose bit is clear keeps
      the empty cell's 0. */
  method DecodeCell(data: seq<byte>, p0: nat, bits: seq<bool>, j: nat, p: nat) returns (r: Result<(Cell, nat)>)
    requires j + 5 <= |bits|
    requires p == p0 + Rank(bits, j) <= |data|
    ensures r.Ok? <==> p0 + Rank(bits, j + 5) <= |data|
    ensures r.Ok? ==> r.value == (RowCell(data, p0, bits, j), p0 + Rank(bits, j + 5))
  {
    RankMonotone(bits, j + 1, j + 5);
    RankMonotone(bits, j + 2, j + 5);
    RankMonotone(bits, j + 3, j + 5);
    RankMonotone(bits, j + 4, j + 5);
    var note :- ReadIfPresent(data, p0, bits, j, p);
    var inst :- ReadIfPresent(data, p0, bits, j + 1, note.1);
    var vol :- ReadIfPresent(data, p0, bits, j + 2, inst.1);
    var effect :- ReadIfPresent(data, p0, bits, j + 3, vol.1);
    var param :- ReadIfPresent(data, p0, bits, j + 4, effect.1);
    return Ok((Cell(note.0, inst.0, vol.0, effect.0, param.0), param.1));
  }

  /** The source's channel loop over the field bytes that start at `p0`:
      each cell starts empty and each present field reads the next byte. */
  method DecodeCells(data: seq<byte>, p0: nat, bits: seq<bool>, channelCount: nat) returns (r: Result<seq<Cell>>)
    requires 5 * channelCount <= |bits|
    requires channelCount == 0 || p0 <= |data|
    ensures r.Ok? <==> channelCount == 0 || p0 + Rank(bits, 5 * channelCount) <= |data|
    ensures r.Err? ==> r.error == TruncatedInput
    ensures r.Ok? ==> r.value == RowCells(data, p0, bits, channelCount)
  {
    var cells := EmptyRow(channelCount).cells;
    var p, c, j := p0, 0, 0;
    while c < channelCount
      invariant c <= channelCount && j == 5 * c
      invariant p == p0 + Rank(bits, j) && (channelCount > 0 ==> p <= |data|)
      invariant |cells| == channelCount
      invariant forall c' :: 0 <= c' < c ==> cells[c'] == RowCell(data, p0, bits, 5 * c')
    {
      var cr := DecodeCell(data, p0, bits, j, p);
      if cr.Err? {
        RankMonotone(bits, j + 5, 5 * channelCount);
        return Err(TruncatedInput);
      }
      cells := cells[c := cr.value.0];
      p := cr.value.1;
      c, j := c + 1, j + 5;
    }
    return Ok(cells);
  }

  /** `RowSpec` when the bitmask read fails: the row fails. */
  lemma RowSpecMaskPastEnd(data: seq<byte>, pos: nat, channelCount: nat)
    requires ReadBytes(data, pos, MaskLength(channelCount)).Err?
    ensures RowSpec(data, pos, channelCount) == Err(TruncatedInput)
  {
  }

  /** `RowSpec` once the bitmask is read: the row is its cells if their
      field bytes fit, and fails otherwise. */
  lemma RowSpecAfterMask(data: seq<byte>, pos: nat, channelCount: nat)
    requires ReadBytes(data, pos, MaskLength(channelCount)).Ok?
    ensures var n, bits := MaskLength(channelCount), MaskBits(data, pos, channelCount);
      RowSpec(data, pos, channelCount) ==
        if channelCount == 0 || pos + n + Rank(bits, 5 * channelCount) <= |data|
        then Ok(Row(RowCells(data, pos + n, bits, channelCount))) else Err(TruncatedInput)
  {
    MaskOfRead(data, pos, channelCount);
  }

  /** A row read succeeds exactly when it fits, and then its cells are
      the `RowCells` its bitmask selects. */
  lemma RowSpecMeaning(data: seq<byte>, pos: nat, channelCount: nat)
    ensures RowSpec(data, pos, channelCount).Ok? <==> RowFits(data, pos, channelCount)
    ensures RowSpec(data, pos, channelCount).Ok? ==>
      RowSpec(data, pos, channelCount) ==
        Ok(Row(RowCells(data, pos + MaskLength(channelCount), MaskBits(data, pos, channelCount), channelCount)))
  {
    if ReadBytes(data, pos, MaskLength(channelCount)).Err? {
      RowSpecMaskPastEnd(data, pos, channelCount);
    } else {
      RowSpecAfterMask(data, pos, channelCount);
    }
  }

  /** The bytes a mask read gives are the row's bitmask. */
  lemma MaskOfRead(data: seq<byte>, pos: nat, channelCount: nat)
    requires ReadBytes(data, pos, MaskLength(channelCount)).Ok?
    ensures Bits(ReadBytes(data, pos, MaskLength(channelCount)).value) == MaskBits(data, pos, channelCount)
  {
    if channelCount > 0 {
      assert ReadBytes(data, pos, MaskLength(channelCount)).value == data[pos..pos + MaskLength(channelCount)];
    }
  }

  /** The row decode at `pos`: the bitmask, then the channel loop. */
  method DecodeRow(data: seq<byte>, pos: nat, channelCount: nat) returns (r: Result<Row>)
    ensures r == RowSpec(data, pos, channelCount)
  {
    var n := MaskLength(channelCount);
    var mask := ReadBytes(data, pos, n);
    if mask.Err? {
      RowSpecMaskPastEnd(data, pos, channelCount);
      return Err(TruncatedInput);
    }
    RowSpecAfterMask(data, pos, channelCount);
    var bits := Bits(mask.value);
    MaskOfRead(data, pos, channelCount);
    var cells := DecodeCells(data, pos + n, bits, channelCount);
    if cells.Err? {
      return Err(TruncatedInput);
    }
    return Ok(Row(cells.value));
  }

  // ---- patterns

  /** One entry of a pattern's row-offset table, at `p`, and the row it
      gives: offset 0 is an empty row of `channelCount` cells and reads
      nothing else; any other offset locates the row's bitmask relative to
      the bank's base. The stream then returns to the next entry. */
  function RowEntryAt(data: seq<byte>, base: nat, channelCount: nat, p: nat): (r: Result<(Row, nat)>)
    ensures r.Ok? ==> |r.value.0.cells| == channelCount && r.value.1 == p + 4
  {
    var offset :- ReadU32(data, p);
    var row :- if offset == 0 then Ok(EmptyRow(channelCount)) else RowSpec(data, base + offset, channelCount);
    Ok((row, p + 4))
  }

  function RowEntry(data: seq<byte>, base: nat, channelCount: nat): nat -> Result<(Row, nat)> {
    (p: nat) => RowEntryAt(data, base, channelCount, p)
  }

  lemma RowEntryStrided(data: seq<byte>, base: nat, channelCount: nat)
    ensures Strided(RowEntry(data, base, channelCount), 4)
  {
    var step := RowEntry(data, base, channelCount);
    forall p: nat | step(p).Ok? ensures step(p).value.1 == p + 4 {
      assert step(p) == RowEntryAt(data, base, channelCount, p);
    }
  }

  /** The pattern at `pos` and the position after it: a u16 row count,
      alignment to 4, then `rowCount` row-offset entries read in turn. */
  function PatternAt(data: seq<byte>, base: nat, pos: nat, channelCount: nat): (r: Result<(Pattern, nat)>)
    ensures pos + 2 > |data| ==> r == Err(TruncatedInput)
    ensures r.Ok? ==> ReadU16(data, pos).Ok? && |r.value.0.rows| == ReadU16(data, pos).value
  {
    var rowCount :- ReadU16(data, pos);
    var rows :- Repeat(RowEntry(data, base, channelCount), Misc.Align(pos + 2, 4), rowCount);
    Ok((Pattern(rows.0), rows.1))
  }

  function PatternStep(data: seq<byte>, base: nat, channelCount: nat): nat -> Result<(Pattern, nat)> {
    (p: nat) => PatternAt(data, base, p, channelCount)
  }

  // ---- songs

  /** The `patternCount` patterns of a song, read one after another from `pos`. */
  function SongPatterns(data: seq<byte>, base: nat, h: SongHeader, pos: nat): Result<seq<Pattern>> {
    var patterns :- Repeat(PatternStep(data, base, h.channelCount), pos, h.patternCount);
    Ok(patterns.0)
  }

  /** Where the pattern order of the song whose header is at `pos` starts. */
  function OrderPos(pos: nat): nat {
    Misc.Align(pos + 6, 4)
  }

  /** The song at `offset` from the base: the 6-byte header, alignment to
      4, `songLength` pattern-order bytes, alignment to 4, then
      `patternCount` patterns one after another. */
  function SongAt(data: seq<byte>, base: nat, offset: nat): (r: Result<GbaSong>)
    ensures r.Ok? ==> ReadSongHeader(data, base + offset) == Ok(r.value.header)
    ensures r.Ok? ==> ReadBytes(data, OrderPos(base + offset), r.value.header.songLength) == Ok(r.value.patternOrder)
    ensures r.Ok? ==> SongPatterns(data, base, r.value.header,
                                   Misc.Align(OrderPos(base + offset) + r.value.header.songLength, 4)) == Ok(r.value.patterns)
  {
    var h :- ReadSongHeader(data, base + offset);
    var orderPos := OrderPos(base + offset);
    var order :- ReadBytes(data, orderPos, h.songLength);
    var patterns :- SongPatterns(data, base, h, Misc.Align(orderPos + h.songLength, 4));
    Ok(GbaSong(h, order, patterns))
  }

  predicate SongsReadable(data: seq<byte>, base: nat, offsets: seq<u32>) {
    forall i :: 0 <= i < |offsets| ==> SongAt(data, base, offsets[i]).Ok?
  }

  /** Song `i` is the one read at the base plus offset `i`. */
  function SongsOf(data: seq<byte>, base: nat, offsets: seq<u32>): (songs: seq<GbaSong>)
    requires SongsReadable(data, base, offsets)
    ensures |songs| == |offsets|
    ensures forall i :: 0 <= i < |offsets| ==> SongAt(data, base, offsets[i]) == Ok(songs[i])
  {
    seq(|offsets|, i requires 0 <= i < |offsets| => SongAt(data, base, offsets[i]).value)
  }

  // ---- instruments and the bank

  /** The instrument at `pos` and the position of the next one: the
      124-byte header, `sampleLength` sample bytes, alignment to 4. */
  function InstrumentAt(data: seq<byte>, pos: nat): (r: Result<(Instrument, nat)>)
    ensures r.Ok? <==> pos + 124 <= |data| && pos + 124 + ReadInstrumentHeader(data, pos).value.sampleLength <= |data|
    ensures r.Ok? ==> ReadInstrumentHeader(data, pos) == Ok(r.value.0.header)
    ensures r.Ok? ==> ReadBytes(data, pos + 124, r.value.0.header.sampleLength) == Ok(r.value.0.sample)
    ensures r.Ok? ==> r.value.1 == Misc.Align(pos + 124 + |r.value.0.sample|, 4)
  {
    var h :- ReadInstrumentHeader(data, pos);
    var sample :- ReadBytes(data, pos + 124, h.sampleLength);
    Ok((Instrument(h, sample), Misc.Align(pos + 124 + h.sampleLength, 4)))
  }

  function InstrumentStep(data: seq<byte>): nat -> Result<(Instrument, nat)> {
    (p: nat) => InstrumentAt(data, p)
  }

  /** One u32 of the song-offset table. */
  function U32Step(data: seq<byte>): nat -> Result<(u32, nat)> {
    (p: nat) => if p + 4 <= |data| then Ok((ReadU32(data, p).value, p + 4)) else Err(TruncatedInput)
  }

  lemma U32Strided(data: seq<byte>)
    ensures Strided(U32Step(data), 4)
  {
  }

  /** The song-offset table of the bank whose header `h` is at `base`,
      read right after that header. */
  function BankOffsets(data: seq<byte>, base: nat, h: BankHeader): Result<(seq<u32>, nat)> {
    Repeat(U32Step(data), base + 4, h.songCount)
  }

  /** The bank at `base`: the 4-byte header, `songCount` u32 song offsets
      right after it, the instruments right after the offsets, and song `i`
      at `base + offsets[i]`. */
  function BankAt(data: seq<byte>, base: nat): (r: Result<Bank>)
    ensures r.Ok? ==> ReadBankHeader(data, base).Ok? && BankOffsets(data, base, ReadBankHeader(data, base).value).Ok?
    ensures r.Ok? ==>
      var h := ReadBankHeader(data, base).value;
      var offsets := BankOffsets(data, base, h).value;
      var instruments := Repeat(InstrumentStep(data), offsets.1, h.instrumentCount);
      instruments.Ok? && instruments.value.0 == r.value.instruments &&
      SongsReadable(data, base, offsets.0) && r.value.songs == SongsOf(data, base, offsets.0)
  {
    var h :- ReadBankHeader(data, base);
    var offsets :- BankOffsets(data, base, h);
    var instruments :- Repeat(InstrumentStep(data), offsets.1, h.instrumentCount);
    if SongsReadable(data, base, offsets.0) then
      Ok(Bank(instruments.0, SongsOf(data, base, offsets.0)))
    else
      Err(TruncatedInput)
  }

  // ---- the decoder's loops

  /** One turn of the source's row loop: the offset entry at `p`, then,
      for a nonzero offset, the row read at the base plus that offset (a
      row with offset 0 keeps the `channelCount` empty cells it was sized
      with). */
  method DecodeRowEntry(data: seq<byte>, base: nat, channelCount: nat, p: nat) returns (r: Result<(Row, nat)>)
    ensures r == RowEntry(data, base, channelCount)(p)
  {
    assert RowEntry(data, base, channelCount)(p) == RowEntryAt(data, base, channelCount, p);
    var offset := ReadU32(data, p);
    if offset.Err? {
      RowEntryTruncated(data, base, channelCount, p);
      return Err(offset.error);
    }
    if offset.value == 0 {
      RowEntryEmpty(data, base, channelCount, p);
      return Ok((EmptyRow(channelCount), p + 4));
    }
    RowEntryRead(data, base, channelCount, p, offset.value);
    var row := DecodeRow(data, base + offset.value, channelCount);
    if row.Err? {
      return Err(row.error);
    }
    return Ok((row.value, p + 4));
  }

  /** `RowEntryAt` when the offset entry is past the end. */
  lemma RowEntryTruncated(data: seq<byte>, base: nat, channelCount: nat, p: nat)
    requires ReadU32(data, p).Err?
    ensures RowEntryAt(data, base, channelCount, p) == Err(ReadU32(data, p).error)
  {
  }

  /** `RowEntryAt` when the offset entry is 0: the empty row. */
  lemma RowEntryEmpty(data: seq<byte>, base: nat, channelCount: nat, p: nat)
    requires ReadU32(data, p) == Ok(0)
    ensures RowEntryAt(data, base, channelCount, p) == Ok((EmptyRow(channelCount), p + 4))
  {
  }

  /** `RowEntryAt` for a nonzero offset: the row read at the base plus the offset. */
  lemma RowEntryRead(data: seq<byte>, base: nat, channelCount: nat, p: nat, offset: nat)
    requires ReadU32(data, p) == Ok(offset) && offset != 0
    ensures var row := RowSpec(data, base + offset, channelCount);
      RowEntryAt(data, base, channelCount, p) == if row.Ok? then Ok((row.value, p + 4)) else Err(row.error)
  {
    var o := ReadU32(data, p);
    assert !o.IsFailure() && o.Extract() == offset;
    var row := RowSpec(data, base + offset, channelCount);
    assert RowEntryAt(data, base, channelCount, p) ==
      if row.IsFailure() then row.PropagateFailure() else Ok((row.Extract(), p + 4));
  }

  /** The source's row loop: the row count, alignment, then the offset
      table one entry at a time. */
  method DecodePattern(data: seq<byte>, base: nat, pos: nat, channelCount: nat) returns (r: Result<(Pattern, nat)>)
    ensures r == PatternStep(data, base, channelCount)(pos)
  {
    var rowCount :- ReadU16(data, pos);
    var table := Misc.Align(pos + 2, 4);
    ghost var step := RowEntry(data, base, channelCount);
    var rows, p := [], table;
    for i := 0 to rowCount
      invariant Repeat(step, table, i) == Ok((rows, p))
    {
      var entry := DecodeRowEntry(data, base, channelCount, p);
      if entry.Err? {
        RepeatStop(step, table, i, rowCount, rows, p);
        return Err(entry.error);
      }
      RepeatSnoc(step, table, i, rows, p, entry.value.0, entry.value.1);
      rows, p := rows + [entry.value.0], entry.value.1;
    }
    return Ok((Pattern(rows), p));
  }

  /** The pattern loop of a song: each pattern starts where the previous
      one's row-offset table ended. */
  method DecodePatterns(data: seq<byte>, base: nat, pos: nat, channelCount: nat, count: nat)
    returns (r: Result<(seq<Pattern>, nat)>)
    ensures r == Repeat(PatternStep(data, base, channelCount), pos, count)
  {
    ghost var step := PatternStep(data, base, channelCount);
    var patterns, p := [], pos;
    for k := 0 to count
      invariant Repeat(step, pos, k) == Ok((patterns, p))
    {
      var pattern := DecodePattern(data, base, p, channelCount);
      if pattern.Err? {
        RepeatStop(step, pos, k, count, patterns, p);
        return Err(pattern.error);
      }
      RepeatSnoc(step, pos, k, patterns, p, pattern.value.0, pattern.value.1);
      patterns, p := patterns + [pattern.value.0], pattern.value.1;
    }
    return Ok((patterns, p));
  }

  /** The song read: header, alignment, pattern order, alignment, patterns. */
  method DecodeSong(data: seq<byte>, base: nat, offset: nat) returns (r: Result<GbaSong>)
    ensures r == SongAt(data, base, offset)
  {
    var h :- ReadSongHeader(data, base + offset);
    var orderPos := OrderPos(base + offset);
    var order :- ReadBytes(data, orderPos, h.songLength);
    var patterns :- DecodeSongPatterns(data, base, h, Misc.Align(orderPos + h.songLength, 4));
    return Ok(GbaSong(h, order, patterns));
  }

  /** The patterns of the song with header `h`, without the end position. */
  method DecodeSongPatterns(data: seq<byte>, base: nat, h: SongHeader, pos: nat) returns (r: Result<seq<Pattern>>)
    ensures r == SongPatterns(data, base, h, pos)
  {
    var patterns :- DecodePatterns(data, base, pos, h.channelCount, h.patternCount);
    return Ok(patterns.0);
  }

  /** One turn of the instrument loop: header, sample bytes, alignment. */
  method DecodeInstrument(data: seq<byte>, p: nat) returns (r: Result<(Instrument, nat)>)
    ensures r == InstrumentStep(data)(p)
  {
    var header :- ReadInstrumentHeader(data, p);
    var sample :- ReadBytes(data, p + 124, header.sampleLength);
    return Ok((Instrument(header, sample), Misc.Align(p + 124 + header.sampleLength, 4)));
  }

  /** The instrument loop: each instrument starts where the previous one's
      alignment left the stream. */
  method DecodeInstruments(data: seq<byte>, pos: nat, count: nat) returns (r: Result<(seq<Instrument>, nat)>)
    ensures r == Repeat(InstrumentStep(data), pos, count)
  {
    ghost var step := InstrumentStep(data);
    var instruments, p := [], pos;
    for k := 0 to count
      invariant Repeat(step, pos, k) == Ok((instruments, p))
    {
      var instrument := DecodeInstrument(data, p);
      if instrument.Err? {
        RepeatStop(step, pos, k, count, instruments, p);
        return Err(instrument.error);
      }
      RepeatSnoc(step, pos, k, instruments, p, instrument.value.0, instrument.value.1);
      instruments, p := instruments + [instrument.value.0], instrument.value.1;
    }
    return Ok((instruments, p));
  }

  /** The song loop: each song is read at the base plus its offset. */
  method DecodeSongs(data: seq<byte>, base: nat, offsets: seq<u32>) returns (r: Result<seq<GbaSong>>)
    ensures r.Ok? <==> SongsReadable(data, base, offsets)
    ensures r.Ok? ==> r.value == SongsOf(data, base, offsets)
  {
    var songs := [];
    for i := 0 to |offsets|
      invariant |songs| == i
      invariant forall i' :: 0 <= i' < i ==> SongAt(data, base, offsets[i']) == Ok(songs[i'])
    {
      var song := DecodeSong(data, base, offsets[i]);
      if song.Err? {
        return Err(song.error);
      }
      songs := songs + [song.value];
    }
    return Ok(songs);
  }

  /** `readArray` of the song-offset table: `count` u32 values in a row. */
  method DecodeOffsets(data: seq<byte>, pos: nat, count: nat) returns (r: Result<(seq<u32>, nat)>)
    ensures r == Repeat(U32Step(data), pos, count)
  {
    ghost var step := U32Step(data);
    var offsets, p := [], pos;
    for k := 0 to count
      invariant Repeat(step, pos, k) == Ok((offsets, p))
    {
      var offset := ReadU32(data, p);
      if offset.Err? {
        RepeatStop(step, pos, k, count, offsets, p);
        return Err(offset.error);
      }
      RepeatSnoc(step, pos, k, offsets, p, offset.value, p + 4);
      offsets, p := offsets + [offset.value], p + 4;
    }
    return Ok((offsets, p));
  }

  /** The bank constructor: header, song-offset table, instruments, songs. */
  method DecodeBank(data: seq<byte>, base: nat) returns (r: Result<Bank>)
    ensures r == BankAt(data, base)
  {
    var h :- ReadBankHeader(data, base);
    var offsets :- DecodeOffsets(data, base + 4, h.songCount);
    assert offsets == BankOffsets(data, base, h).value;
    var instruments :- DecodeInstruments(data, offsets.1, h.instrumentCount);
    var songs := DecodeSongs(data, base, offsets.0);
    if songs.Err? {
      return Err(TruncatedInput);
    }
    return Ok(Bank(instruments.0, songs.value));
  }
}
