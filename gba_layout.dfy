/** Where the music-bank decoder finds each part of a bank, stated over the
    specification functions of `GbaBank`: the offset table right after the
    header, the instruments back to back with 4-byte alignment, each song at
    its offset from the base, each pattern's row-offset table read entry by
    entry, and the bytes a row's bitmask selects. */
module GbaLayout {
  import opened Bytes
  import opened Song
  import opened GbaRecords
  import opened GbaBank
  import Misc

  // ---- rows

  /** A row of no channels reads nothing and has no cells; any other row
      read at `pos` is its bitmask of `MaskLength` bytes, then the bytes of
      the present fields, all inside the file, and its cells are the
      `RowCells` of that bitmask. */
  lemma RowShape(data: seq<byte>, pos: nat, channelCount: nat, row: Row)
    requires RowSpec(data, pos, channelCount) == Ok(row)
    ensures channelCount == 0 ==> row == Row([])
    ensures channelCount > 0 ==> var n := MaskLength(channelCount);
      pos + n <= |data| && var bits := Bits(data[pos..pos + n]);
      pos + n + Rank(bits, 5 * channelCount) <= |data| && row == Row(RowCells(data, pos + n, bits, channelCount))
  {
    RowSpecMeaning(data, pos, channelCount);
  }

  lemma CellField(data: seq<byte>, p0: nat, bits: seq<bool>, j0: nat, k: nat)
    requires j0 + 5 <= |bits| && k < 5
    ensures Field(RowCell(data, p0, bits, j0), k) == Present(data, p0, bits, j0 + k)
  {
  }

  /** Inside a row whose field bytes fit, a set bit selects the byte after
      the ones of all the set bits before it, and a clear bit gives 0. */
  lemma PresentByte(data: seq<byte>, p0: nat, bits: seq<bool>, m: nat, j: nat)
    requires j < m <= |bits| && p0 + Rank(bits, m) <= |data|
    ensures bits[j] ==> p0 + Rank(bits, j) < |data| && Present(data, p0, bits, j) == data[p0 + Rank(bits, j)]
    ensures !bits[j] ==> Present(data, p0, bits, j) == 0
  {
    RankMonotone(bits, j + 1, m);
  }

  /** Field `k` of channel `c` is present iff bit `c * 5 + k` of the
      bitmask is set; a present field is the byte after the bytes of all
      the present fields before it, channel by channel and field by field;
      an absent field is 0. */
  lemma CellFields(data: seq<byte>, p0: nat, bits: seq<bool>, channelCount: nat, c: nat, k: nat)
    requires 5 * channelCount <= |bits| && p0 + Rank(bits, 5 * channelCount) <= |data|
    requires c < channelCount && k < 5
    ensures bits[5 * c + k] ==> (p0 + Rank(bits, 5 * c + k) < |data| &&
      Field(RowCells(data, p0, bits, channelCount)[c], k) == data[p0 + Rank(bits, 5 * c + k)])
    ensures !bits[5 * c + k] ==> Field(RowCells(data, p0, bits, channelCount)[c], k) == 0
  {
    CellField(data, p0, bits, 5 * c, k);
    PresentByte(data, p0, bits, 5 * channelCount, 5 * c + k);
  }

  /** A row offset of 0 gives `channelCount` empty cells, and the entry
      then depends on nothing but its own four bytes. */
  lemma ZeroOffsetRow(data: seq<byte>, other: seq<byte>, base: nat, channelCount: nat, p: nat)
    requires ReadU32(data, p) == Ok(0)
    requires p + 4 <= |other| && other[p..p + 4] == data[p..p + 4]
    ensures RowEntryAt(data, base, channelCount, p) == Ok((EmptyRow(channelCount), p + 4))
    ensures RowEntryAt(other, base, channelCount, p) == RowEntryAt(data, base, channelCount, p)
  {
    assert ReadBytes(other, p, 4) == ReadBytes(data, p, 4);
  }

  // ---- patterns

  /** A pattern is a u16 row count, alignment to 4, and then that many
      4-byte row-offset entries one after the other; the pattern ends
      right after that table. */
  lemma PatternEnd(data: seq<byte>, base: nat, pos: nat, channelCount: nat)
    requires PatternAt(data, base, pos, channelCount).Ok?
    ensures var rowCount := ReadU16(data, pos).value;
      var r := PatternAt(data, base, pos, channelCount).value;
      |r.0.rows| == rowCount && r.1 == Misc.Align(pos + 2, 4) + 4 * rowCount
  {
    var rowCount := ReadU16(data, pos).value;
    var table := Misc.Align(pos + 2, 4);
    RowEntryStrided(data, base, channelCount);
    RepeatStrided(RowEntry(data, base, channelCount), 4, table, rowCount);
  }

  /** Every row of a read pattern holds `channelCount` cells. */
  lemma PatternWidth(data: seq<byte>, base: nat, pos: nat, channelCount: nat)
    requires PatternAt(data, base, pos, channelCount).Ok?
    ensures HasWidth(PatternAt(data, base, pos, channelCount).value.0, channelCount)
  {
    var rowCount := ReadU16(data, pos).value;
    var table := Misc.Align(pos + 2, 4);
    var step := RowEntry(data, base, channelCount);
    var ok := (row: Row) => |row.cells| == channelCount;
    RepeatAll(step, ok, table, rowCount);
  }

  // ---- songs

  /** The patterns of a song are `patternCount` patterns, each
      `channelCount` wide. */
  lemma SongPatternsWidth(data: seq<byte>, base: nat, h: SongHeader, pos: nat, patterns: seq<Pattern>)
    requires SongPatterns(data, base, h, pos) == Ok(patterns)
    ensures |patterns| == h.patternCount
    ensures forall k :: 0 <= k < |patterns| ==> HasWidth(patterns[k], h.channelCount)
  {
    var step := PatternStep(data, base, h.channelCount);
    var ok := (p: Pattern) => HasWidth(p, h.channelCount);
    forall p: nat | step(p).Ok? ensures ok(step(p).value.0) {
      PatternWidth(data, base, p, h.channelCount);
    }
    RepeatAll(step, ok, pos, h.patternCount);
  }

  /** A song read at `base + offset` is its 6-byte header, then (after
      alignment to 4) its `songLength` pattern-order bytes, then (after
      alignment to 4) `patternCount` patterns, each `channelCount` wide. */
  lemma SongLayout(data: seq<byte>, base: nat, offset: nat, song: GbaSong)
    requires SongAt(data, base, offset) == Ok(song)
    ensures At(data, base + offset, SongHeaderBytes(song.header))
    ensures |song.patternOrder| == song.header.songLength
    ensures song.header.songLength > 0 ==> At(data, OrderPos(base + offset), song.patternOrder)
    ensures |song.patterns| == song.header.patternCount
    ensures forall k :: 0 <= k < |song.patterns| ==> HasWidth(song.patterns[k], song.header.channelCount)
  {
    SongHeadLayout(data, base, offset, song);
    SongBodyLayout(data, base, offset, song);
  }

  lemma SongHeadLayout(data: seq<byte>, base: nat, offset: nat, song: GbaSong)
    requires SongAt(data, base, offset) == Ok(song)
    ensures At(data, base + offset, SongHeaderBytes(song.header))
    ensures |song.patternOrder| == song.header.songLength
    ensures song.header.songLength > 0 ==> At(data, OrderPos(base + offset), song.patternOrder)
  {
    ReadSongHeaderIff(data, base + offset, song.header);
  }

  lemma SongBodyLayout(data: seq<byte>, base: nat, offset: nat, song: GbaSong)
    requires SongAt(data, base, offset) == Ok(song)
    ensures |song.patterns| == song.header.patternCount
    ensures forall k :: 0 <= k < |song.patterns| ==> HasWidth(song.patterns[k], song.header.channelCount)
  {
    var r := SongAt(data, base, offset);
    var pos := Misc.Align(OrderPos(base + offset) + r.value.header.songLength, 4);
    assert SongPatterns(data, base, r.value.header, pos) == Ok(r.value.patterns);
    SongPatternsWidth(data, base, r.value.header, pos, r.value.patterns);
  }

  // ---- instruments

  /** An instrument at `pos` is its 124-byte header, then `sampleLength`
      sample bytes, and the next instrument starts at the first multiple
      of 4 after them. */
  lemma InstrumentLayout(data: seq<byte>, pos: nat, inst: Instrument, next: nat)
    requires InstrumentAt(data, pos) == Ok((inst, next))
    ensures InstrumentHeaderWellFormed(inst.header) && At(data, pos, InstrumentHeaderBytes(inst.header))
    ensures |inst.sample| == inst.header.sampleLength && At(data, pos + 124, inst.sample)
    ensures next == Misc.Align(pos + 124 + |inst.sample|, 4) && next % 4 == 0
  {
    ReadInstrumentHeaderIff(data, pos, inst.header);
  }

  // ---- the bank

  /** Offset `i` is the u32 at `pos + 4 * i`, and the table ends `4 * count`
      bytes after `pos`. */
  lemma OffsetTable(data: seq<byte>, pos: nat, count: nat)
    requires Repeat(U32Step(data), pos, count).Ok?
    ensures Repeat(U32Step(data), pos, count).value.1 == pos + 4 * count
    ensures forall i: int :: 0 <= i < count ==>
      ReadU32(data, pos + 4 * i) == Ok(Repeat(U32Step(data), pos, count).value.0[i])
  {
    U32Strided(data);
    RepeatStrided(U32Step(data), 4, pos, count);
    var offsets := Repeat(U32Step(data), pos, count).value;
    forall i: int | 0 <= i < count
      ensures ReadU32(data, pos + 4 * i) == Ok(offsets.0[i])
    {
      assert U32Step(data)(pos + 4 * i).value.0 == offsets.0[i];
    }
  }

  /** A bank read at `base` is its 4-byte header and the `songCount` u32
      song offsets right after it; song `i` is the song read at the base
      plus offset `i`. */
  lemma BankLayout(data: seq<byte>, base: nat, bank: Bank)
    requires BankAt(data, base) == Ok(bank)
    ensures var h := ReadBankHeader(data, base).value;
      At(data, base, BankHeaderBytes(h)) &&
      |bank.instruments| == h.instrumentCount && |bank.songs| == h.songCount &&
      forall i: int :: 0 <= i < h.songCount ==>
        ReadU32(data, base + 4 + 4 * i).Ok? &&
        SongAt(data, base, ReadU32(data, base + 4 + 4 * i).value) == Ok(bank.songs[i])
  {
    var h := ReadBankHeader(data, base).value;
    ReadBankHeaderIff(data, base, h);
    var table := Repeat(U32Step(data), base + 4, h.songCount);
    assert BankOffsets(data, base, h) == table;
    OffsetTable(data, base + 4, h.songCount);
    var offsets := table.value.0;
    assert bank.songs == SongsOf(data, base, offsets);
    forall i: int | 0 <= i < h.songCount
      ensures ReadU32(data, base + 4 + 4 * i).Ok? &&
        SongAt(data, base, ReadU32(data, base + 4 + 4 * i).value) == Ok(bank.songs[i])
    {
      assert ReadU32(data, (base + 4) + 4 * i) == Ok(offsets[i]);
      assert SongAt(data, base, offsets[i]) == Ok(bank.songs[i]);
    }
  }

  /** The instruments of a bank are contiguous: the first starts right
      after the song-offset table (one entry per song), and each next one
      where the previous one's alignment ended. */
  lemma InstrumentsContiguous(data: seq<byte>, base: nat, bank: Bank) returns (starts: seq<nat>)
    requires BankAt(data, base) == Ok(bank)
    ensures |starts| == |bank.instruments| + 1
    ensures starts[0] == base + 4 + 4 * |bank.songs|
    ensures forall i :: 0 <= i < |bank.instruments| ==>
      InstrumentAt(data, starts[i]) == Ok((bank.instruments[i], starts[i + 1]))
  {
    var h := ReadBankHeader(data, base).value;
    var offsets := BankOffsets(data, base, h).value;
    OffsetTable(data, base + 4, h.songCount);
    var step := InstrumentStep(data);
    starts := RepeatChain(step, offsets.1, h.instrumentCount);
    forall i | 0 <= i < |bank.instruments|
      ensures InstrumentAt(data, starts[i]) == Ok((bank.instruments[i], starts[i + 1]))
    {
      assert step(starts[i]) == InstrumentAt(data, starts[i]);
    }
  }
}
