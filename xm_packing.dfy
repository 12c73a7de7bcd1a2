/** The packed pattern data of an XM file. Each cell is stored either as
    its five raw bytes, or as a control byte with bit 0x80 set whose bits
    0x01, 0x02, 0x04, 0x08 and 0x10 say which of note, instrument, volume,
    effect and parameter follow. A pattern is a 9-byte header giving its
    row count and the size of its packed data, then that data, row after
    row and channel after channel. */
module XmPacking {
  import opened Bytes
  import opened Song
  import opened XmRecords

  // ---- one cell

  /** `b & flag` is nonzero, for a single-bit `flag`. */
  predicate Flag(b: byte, flag: nat)
    requires flag > 0
  {
    b / flag % 2 == 1
  }

  /** A byte read as a control byte has bit 0x80 set exactly when it is at
      least 0x80. */
  lemma HighFlag(b: byte)
    ensures Flag(b, 0x80) <==> b >= 0x80
  {
  }

  /** The flags of a cell's nonzero fields OR-ed together: 0x01 note,
      0x02 instrument, 0x04 volume, 0x08 effect, 0x10 parameter. Each flag
      is a different bit, so the OR of those set is their sum. */
  function PresenceBits(c: Cell): (bits: nat)
    ensures bits < 0x20
  {
    (if c.note != 0 then 0x01 else 0) + (if c.inst != 0 then 0x02 else 0) + (if c.vol != 0 then 0x04 else 0) +
    (if c.effect != 0 then 0x08 else 0) + (if c.param != 0 then 0x10 else 0)
  }

  predicate AllPresent(c: Cell) {
    c.note != 0 && c.inst != 0 && c.vol != 0 && c.effect != 0 && c.param != 0
  }

  /** The one-byte form of a field: the field if it is nonzero, nothing
      otherwise. */
  function Optional(v: byte): (bs: seq<byte>)
    ensures |bs| <= 1
  {
    if v != 0 then [v] else []
  }

  /** The flag of field `k` (0 note, 1 instrument, 2 volume, 3 effect,
      4 parameter) in a control byte. */
  function FieldFlag(k: nat): (flag: nat)
    requires k < 5
    ensures flag > 0
  {
    match k
    case 0 => 0x01
    case 1 => 0x02
    case 2 => 0x04
    case 3 => 0x08
    case 4 => 0x10
  }

  /** The packed fields after a control byte, from field `k` on, in field
      order. */
  function PackedFields(c: Cell, k: nat): (bs: seq<byte>)
    requires k <= 5
    ensures |bs| <= 5 - k
    decreases 5 - k
  {
    if k == 5 then [] else Optional(Field(c, k)) + PackedFields(c, k + 1)
  }

  /** The bytes the encoder writes for one cell: the five raw fields when
      all are nonzero; otherwise the control byte `0x80 | PresenceBits(c)`
      followed by only the nonzero fields. */
  function PackCell(c: Cell): (bs: seq<byte>)
    ensures 1 <= |bs| <= 6
  {
    if PresenceBits(c) == 0x1f then [c.note, c.inst, c.vol, c.effect, c.param]
    else [ControlByte(c)] + PackedFields(c, 0)
  }

  /** The control byte of the compact form: `0x80 | PresenceBits(c)`. */
  function ControlByte(c: Cell): byte {
    0x80 + PresenceBits(c)
  }

  /** The encoder writes the five raw bytes exactly when no field is 0,
      and an empty cell as the single control byte 0x80. */
  lemma PackCellForms(c: Cell)
    ensures PresenceBits(c) == 0x1f <==> AllPresent(c)
    ensures AllPresent(c) ==> PackCell(c) == [c.note, c.inst, c.vol, c.effect, c.param]
    ensures !AllPresent(c) ==> PackCell(c)[0] >= 0x80 && |PackCell(c)| == 1 + |PackedFields(c, 0)|
    ensures c == EmptyCell ==> PackCell(c) == [0x80]
  {
  }

  /** A field that is present when `present` holds: one byte read at `q`,
      or 0 and no byte. */
  function ReadFlagged(data: seq<byte>, q: nat, present: bool): (r: Result<(byte, nat)>)
    ensures r.Ok? <==> !present || q < |data|
    ensures r.Ok? ==> r.value.1 == if present then q + 1 else q
  {
    if present then
      var v :- ReadU8(data, q);
      Ok((v, q + 1))
    else Ok((0, q))
  }

  /** One cell read at `p`: a control byte with bit 0x80 set selects the
      fields that follow, the others stay 0; a byte without it is the note,
      and instrument, volume, effect and parameter follow. */
  function UnpackCell(data: seq<byte>, p: nat): (r: Result<(Cell, nat)>)
    ensures r.Ok? ==> p < r.value.1 <= p + 6 && r.value.1 <= |data|
  {
    var bits :- ReadU8(data, p);
    if Flag(bits, 0x80) then UnpackFlagged(data, bits, p + 1, 0, EmptyCell)
    else
      var rest :- ReadBytes(data, p + 1, 4);
      Ok((Cell(bits, rest[0], rest[1], rest[2], rest[3]), p + 5))
  }

  /** The fields the control byte `bits` selects, from field `k` on, read
      from `q` on into `acc`: each field whose flag is set takes the next
      byte, the others are 0. */
  function UnpackFlagged(data: seq<byte>, bits: byte, q: nat, k: nat, acc: Cell): (r: Result<(Cell, nat)>)
    requires k <= 5
    ensures r.Ok? ==> q <= r.value.1 <= q + 5 - k
    decreases 5 - k
  {
    if k == 5 then Ok((acc, q))
    else
      var field :- ReadFlagged(data, q, Flag(bits, FieldFlag(k)));
      UnpackFlagged(data, bits, field.1, k + 1, WithField(acc, k, field.0))
  }

  /** A cell survives packing when its raw form cannot be taken for a
      control byte: a cell with all five fields nonzero has a note below
      0x80 (every note of the XM format is). */
  predicate Packable(c: Cell) {
    AllPresent(c) ==> c.note < 0x80
  }

  /** A field written in its one-byte form is read back by the read its
      own flag selects, and the rest of the bytes follow it. */
  lemma ReadFlaggedNext(data: seq<byte>, q: nat, v: byte, rest: seq<byte>)
    requires At(data, q, Optional(v) + rest)
    ensures var r := ReadFlagged(data, q, v != 0); r.Ok? && r.value.0 == v && r.value.1 == q + |Optional(v)|
    ensures At(data, q + |Optional(v)|, rest)
  {
    AtConcat(data, q, Optional(v), rest);
    if v != 0 {
      assert data[q] == Optional(v)[0];
    }
  }

  /** The control byte of a cell has bit 0x80 set, and the flag of each
      field exactly when the field is nonzero. */
  lemma ControlFlags(c: Cell)
    ensures var b := ControlByte(c);
      Flag(b, 0x80) && (Flag(b, 0x01) <==> c.note != 0) && (Flag(b, 0x02) <==> c.inst != 0) &&
      (Flag(b, 0x04) <==> c.vol != 0) && (Flag(b, 0x08) <==> c.effect != 0) && (Flag(b, 0x10) <==> c.param != 0)
  {
  }

  lemma ControlFlag(c: Cell, k: nat)
    requires k < 5
    ensures Flag(ControlByte(c), FieldFlag(k)) <==> Field(c, k) != 0
  {
    ControlFlags(c);
  }

  /** The first read of `UnpackFlagged` from field `k`, when it succeeds,
      leaves the rest of the fields to be read from where it ended. */
  lemma UnpackFlaggedStep(data: seq<byte>, bits: byte, q: nat, k: nat, acc: Cell)
    requires k < 5
    ensures var f := ReadFlagged(data, q, Flag(bits, FieldFlag(k)));
      f.Ok? ==> UnpackFlagged(data, bits, q, k, acc) == UnpackFlagged(data, bits, f.value.1, k + 1, WithField(acc, k, f.value.0))
  {
  }

  /** The compact form's fields from field `k` on are read back by the
      reads its control byte selects, into a cell that already holds the
      fields before `k`. */
  lemma {:induction false} UnpackFlaggedBack(data: seq<byte>, q: nat, c: Cell, k: nat, acc: Cell)
    requires k <= 5 && At(data, q, PackedFields(c, k))
    requires forall j :: 0 <= j < k ==> Field(acc, j) == Field(c, j)
    ensures var r := UnpackFlagged(data, ControlByte(c), q, k, acc);
      r.Ok? && r.value.0 == c && r.value.1 == q + |PackedFields(c, k)|
    decreases 5 - k
  {
    if k == 5 {
      CellExtensional(acc, c);
    } else {
      var v := Field(c, k);
      var q', acc' := q + |Optional(v)|, WithField(acc, k, v);
      ReadFlaggedNext(data, q, v, PackedFields(c, k + 1));
      ControlFlag(c, k);
      UnpackFlaggedStep(data, ControlByte(c), q, k, acc);
      UnpackFlaggedBack(data, q', c, k + 1, acc');
    }
  }

  /** Unpacking the bytes of a packable cell gives the cell back and
      consumes exactly its bytes. */
  lemma UnpackPackCell(data: seq<byte>, p: nat, c: Cell)
    requires Packable(c) && At(data, p, PackCell(c))
    ensures var r := UnpackCell(data, p); r.Ok? && r.value.0 == c && r.value.1 == p + |PackCell(c)|
  {
    PackCellForms(c);
    if AllPresent(c) {
      RawCellBack(data, p, c);
    } else {
      CompactCellBack(data, p, c);
    }
  }

  /** The raw form: a first byte below 0x80 is the note. */
  lemma RawCellBack(data: seq<byte>, p: nat, c: Cell)
    requires c.note < 0x80 && At(data, p, [c.note, c.inst, c.vol, c.effect, c.param])
    ensures var r := UnpackCell(data, p); r.Ok? && r.value.0 == c && r.value.1 == p + 5
  {
    assert data[p] == c.note;
    HighFlag(c.note);
    assert data[p + 1..p + 5] == [c.inst, c.vol, c.effect, c.param];
  }

  /** The compact form: the control byte, then the fields it selects. */
  lemma CompactCellBack(data: seq<byte>, p: nat, c: Cell)
    requires At(data, p, [ControlByte(c)] + PackedFields(c, 0))
    ensures var r := UnpackCell(data, p); r.Ok? && r.value.0 == c && r.value.1 == p + 1 + |PackedFields(c, 0)|
  {
    var b := ControlByte(c);
    AtConcat(data, p, [b], PackedFields(c, 0));
    UnpackCompact(data, p, b);
    UnpackFlaggedBack(data, p + 1, c, 0, EmptyCell);
  }

  /** A first byte with bit 0x80 set is a control byte: the fields it
      selects follow it. */
  lemma UnpackCompact(data: seq<byte>, p: nat, b: byte)
    requires At(data, p, [b]) && b >= 0x80
    ensures UnpackCell(data, p) == UnpackFlagged(data, b, p + 1, 0, EmptyCell)
  {
    assert data[p] == b;
    HighFlag(b);
  }

  /** A cell whose fields are all nonzero but whose note is 0x80 or more
      is read back as a different cell: its first byte is taken for a
      control byte. (0x80, 1, 1, 1, 1) packs as 80 01 01 01 01 and unpacks
      as an empty cell after one byte. */
  lemma UnpackMisreadsHighNote()
    ensures var c := Cell(0x80, 1, 1, 1, 1);
      !Packable(c) && PackCell(c) == [0x80, 1, 1, 1, 1] &&
      var r := UnpackCell(PackCell(c), 0); r.Ok? && r.value.0 == EmptyCell && r.value.1 == 1
  {
    var c := Cell(0x80, 1, 1, 1, 1);
    var data: seq<byte> := [0x80, 1, 1, 1, 1];
    PackCellForms(c);
    HighFlag(0x80);
    assert UnpackCell(data, 0) == UnpackFlagged(data, 0x80, 1, 0, EmptyCell);
    assert ControlByte(EmptyCell) == 0x80;
    forall j | 0 <= j < 5 ensures !Flag(0x80, FieldFlag(j)) && Field(EmptyCell, j) == 0 {
      ControlFlag(EmptyCell, j);
    }
    NoFlagsReadNothing(data, 0x80, 1, 0, EmptyCell);
  }

  /** With none of the flags from field `k` on set, nothing more is read
      and the remaining fields stay as they are. */
  lemma {:induction false} NoFlagsReadNothing(data: seq<byte>, bits: byte, q: nat, k: nat, acc: Cell)
    requires k <= 5
    requires forall j :: k <= j < 5 ==> !Flag(bits, FieldFlag(j)) && Field(acc, j) == 0
    ensures var r := UnpackFlagged(data, bits, q, k, acc); r.Ok? && r.value.0 == acc && r.value.1 == q
    decreases 5 - k
  {
    if k < 5 {
      CellExtensional(WithField(acc, k, 0), acc);
      NoFlagsReadNothing(data, bits, q, k + 1, acc);
    }
  }

  // ---- rows and patterns

  /** The packed bytes of a row: its cells one after another, each taking
      one to six bytes. */
  function PackRow(row: Row): (bs: seq<byte>)
    ensures |row.cells| <= |bs| <= 6 * |row.cells|
  {
    FlattenBounds(PackCell, 1, 6, row.cells);
    Flatten(PackCell, row.cells)
  }

  /** The packed data of a pattern: its rows one after another. */
  function PackRows(rows: seq<Row>): seq<byte> {
    Flatten(PackRow, rows)
  }

  /** Every cell of every row survives packing. */
  predicate RowsPackable(rows: seq<Row>) {
    forall r, k :: 0 <= r < |rows| && 0 <= k < |rows[r].cells| ==> Packable(rows[r].cells[k])
  }

  /** Only an empty row packs to no bytes. */
  lemma PackRowEmpty(row: Row)
    ensures PackRow(row) == [] <==> row.cells == []
  {
    if row.cells != [] {
      FlattenCovers(PackCell, row.cells, 0);
    }
  }

  function CellStep(data: seq<byte>): nat -> Result<(Cell, nat)> {
    (p: nat) => UnpackCell(data, p)
  }

  /** One row of `channelCount` cells read at `p`. */
  function RowAt(data: seq<byte>, channelCount: nat, p: nat): (r: Result<(Row, nat)>)
    ensures r.Ok? ==> |r.value.0.cells| == channelCount
  {
    var cells :- Repeat(CellStep(data), p, channelCount);
    Ok((Row(cells.0), cells.1))
  }

  function RowStep(data: seq<byte>, channelCount: nat): nat -> Result<(Row, nat)> {
    (p: nat) => RowAt(data, channelCount, p)
  }

  /** A pattern read at `p`: its 9-byte header, and then, unless the
      header declares no packed data, `rowCount` rows of `channelCount`
      cells. With no packed data the pattern is `rowCount` empty rows and
      nothing more is read. The header's own size field is not used. */
  function PatternAt(data: seq<byte>, channelCount: nat, p: nat): (r: Result<(Pattern, nat)>)
    ensures r.Ok? ==> HasWidth(r.value.0, channelCount)
  {
    var h :- ReadPatternHeader(data, p);
    if h.packedDataSize == 0 then
      Ok((Pattern(EmptyRows(h.rowCount, channelCount)), p + 9))
    else
      var rows :- Repeat(RowStep(data, channelCount), p + 9, h.rowCount);
      RowsWidth(data, channelCount, p + 9, h.rowCount);
      Ok((Pattern(rows.0), rows.1))
  }

  /** `count` rows of `channelCount` empty cells. */
  function EmptyRows(count: nat, channelCount: nat): (rows: seq<Row>)
    ensures |rows| == count
    ensures forall r :: 0 <= r < count ==> rows[r] == EmptyRow(channelCount)
  {
    seq(count, _ => EmptyRow(channelCount))
  }

  lemma RowsWidth(data: seq<byte>, channelCount: nat, p: nat, count: nat)
    requires Repeat(RowStep(data, channelCount), p, count).Ok?
    ensures HasWidth(Pattern(Repeat(RowStep(data, channelCount), p, count).value.0), channelCount)
  {
    var ok := (row: Row) => |row.cells| == channelCount;
    RepeatAll(RowStep(data, channelCount), ok, p, count);
  }

  function PatternStep(data: seq<byte>, channelCount: nat): nat -> Result<(Pattern, nat)> {
    (p: nat) => PatternAt(data, channelCount, p)
  }

  /** The header the encoder writes for a pattern: header size 9, packing
      type 0, and the row count and packed size cut to 16 bits. */
  function SavedPatternHeader(pattern: Pattern): PatternHeader {
    PatternHeader(9, 0, |pattern.rows| % 0x1_0000, |PackRows(pattern.rows)| % 0x1_0000)
  }

  /** A written pattern: its header, then its packed data. */
  function PatternBytes(pattern: Pattern): (bs: seq<byte>)
    ensures |bs| == 9 + |PackRows(pattern.rows)|
  {
    PatternHeaderBytes(SavedPatternHeader(pattern)) + PackRows(pattern.rows)
  }

  // ---- reading written patterns back

  lemma CellReadsBack(data: seq<byte>, q: nat, c: Cell)
    requires Packable(c)
    ensures ReadsBack(CellStep(data), PackCell, data, q, c)
  {
    if At(data, q, PackCell(c)) {
      UnpackPackCell(data, q, c);
    }
  }

  /** A row of packable cells is read back from its packed bytes. */
  lemma UnpackPackRow(data: seq<byte>, p: nat, row: Row)
    requires forall k :: 0 <= k < |row.cells| ==> Packable(row.cells[k])
    requires At(data, p, PackRow(row))
    ensures var r := RowAt(data, |row.cells|, p); r.Ok? && r.value.0 == row && r.value.1 == p + |PackRow(row)|
  {
    forall q: nat, k | 0 <= k < |row.cells| ensures ReadsBack(CellStep(data), PackCell, data, q, row.cells[k]) {
      CellReadsBack(data, q, row.cells[k]);
    }
    RepeatReadsBack(CellStep(data), PackCell, data, p, row.cells);
  }

  lemma RowReadsBack(data: seq<byte>, channelCount: nat, q: nat, row: Row)
    requires |row.cells| == channelCount && forall k :: 0 <= k < |row.cells| ==> Packable(row.cells[k])
    ensures ReadsBack(RowStep(data, channelCount), PackRow, data, q, row)
  {
    if At(data, q, PackRow(row)) {
      UnpackPackRow(data, q, row);
    }
  }

  /** Rows of `channelCount` packable cells are read back from their
      packed bytes. */
  lemma UnpackPackRows(data: seq<byte>, channelCount: nat, p: nat, rows: seq<Row>)
    requires HasWidth(Pattern(rows), channelCount) && RowsPackable(rows)
    requires At(data, p, PackRows(rows))
    ensures var r := Repeat(RowStep(data, channelCount), p, |rows|);
      r.Ok? && r.value.0 == rows && r.value.1 == p + |PackRows(rows)|
  {
    forall q: nat, r | 0 <= r < |rows| ensures ReadsBack(RowStep(data, channelCount), PackRow, data, q, rows[r]) {
      RowReadsBack(data, channelCount, q, rows[r]);
    }
    RepeatReadsBack(RowStep(data, channelCount), PackRow, data, p, rows);
  }

  /** What a pattern needs so that the encoder's output reads back as the
      same pattern: rows of `channelCount` packable cells, and a row count
      and packed size that fit the header's 16-bit fields. */
  predicate PatternEncodable(pattern: Pattern, channelCount: nat) {
    HasWidth(pattern, channelCount) && RowsPackable(pattern.rows) &&
    |pattern.rows| < 0x1_0000 && |PackRows(pattern.rows)| < 0x1_0000
  }

  /** A pattern with no packed data is all empty rows: either it has no
      rows or its rows have no cells. */
  lemma NoPackedData(pattern: Pattern, channelCount: nat)
    requires HasWidth(pattern, channelCount) && PackRows(pattern.rows) == []
    ensures pattern.rows == EmptyRows(|pattern.rows|, channelCount)
  {
    forall r | 0 <= r < |pattern.rows| ensures pattern.rows[r] == EmptyRow(channelCount) {
      FlattenCovers(PackRow, pattern.rows, r);
      PackRowEmpty(pattern.rows[r]);
      assert pattern.rows[r].cells == EmptyRow(channelCount).cells;
    }
  }

  /** The header the encoder writes is read back at the start of a
      written pattern, with the pattern's row count and packed size when
      they fit 16 bits. */
  lemma SavedHeaderBack(data: seq<byte>, p: nat, pattern: Pattern)
    requires At(data, p, PatternBytes(pattern))
    ensures ReadPatternHeader(data, p) == Ok(SavedPatternHeader(pattern))
    ensures At(data, p + 9, PackRows(pattern.rows))
  {
    var h := SavedPatternHeader(pattern);
    AtConcat(data, p, PatternHeaderBytes(h), PackRows(pattern.rows));
    ReadPatternHeaderIff(data, p, h);
  }

  /** A pattern read at `p` whose header declares packed data is the rows
      that follow its header. */
  lemma PatternAtPacked(data: seq<byte>, channelCount: nat, p: nat, h: PatternHeader, q: nat, rows: seq<Row>, end: nat)
    requires ReadPatternHeader(data, p) == Ok(h) && h.packedDataSize != 0 && h.rowCount == |rows| && q == p + 9
    requires var r := Repeat(RowStep(data, channelCount), q, |rows|); r.Ok? && r.value.0 == rows && r.value.1 == end
    ensures var r := PatternAt(data, channelCount, p); r.Ok? && r.value.0 == Pattern(rows) && r.value.1 == end
  {
  }

  /** A pattern read at `p` whose header declares no packed data is
      `rowCount` empty rows, and only the header is consumed. */
  lemma PatternAtEmpty(data: seq<byte>, channelCount: nat, p: nat, h: PatternHeader)
    requires ReadPatternHeader(data, p) == Ok(h) && h.packedDataSize == 0
    ensures var r := PatternAt(data, channelCount, p);
      r.Ok? && r.value.0 == Pattern(EmptyRows(h.rowCount, channelCount)) && r.value.1 == p + 9
  {
  }

  /** The saved header keeps the row count and the packed size when they
      fit its 16-bit fields. */
  lemma SavedHeaderFields(pattern: Pattern)
    requires |pattern.rows| < 0x1_0000 && |PackRows(pattern.rows)| < 0x1_0000
    ensures SavedPatternHeader(pattern).rowCount == |pattern.rows|
    ensures SavedPatternHeader(pattern).packedDataSize == |PackRows(pattern.rows)|
  {
  }

  /** An encodable pattern is read back from the bytes the encoder writes
      for it, which it consumes exactly. */
  lemma PatternRoundTrip(data: seq<byte>, channelCount: nat, p: nat, pattern: Pattern)
    requires PatternEncodable(pattern, channelCount)
    requires At(data, p, PatternBytes(pattern))
    ensures var r := PatternAt(data, channelCount, p);
      r.Ok? && r.value.0 == pattern && r.value.1 == p + |PatternBytes(pattern)|
  {
    var h := SavedPatternHeader(pattern);
    var rows, packed := pattern.rows, PackRows(pattern.rows);
    SavedHeaderBack(data, p, pattern);
    SavedHeaderFields(pattern);
    if packed == [] {
      NoPackedData(pattern, channelCount);
      PatternAtEmpty(data, channelCount, p, h);
    } else {
      var q: nat := p + 9;
      UnpackPackRows(data, channelCount, q, rows);
      PatternAtPacked(data, channelCount, p, h, q, rows, q + |PackRows(rows)|);
    }
  }

  /** A row of `width` cells that hold only the note 1. */
  function NoteOnlyRow(width: nat): (row: Row)
    ensures |row.cells| == width
  {
    Row(seq(width, _ => Cell(1, 0, 0, 0, 0)))
  }

  /** Each of its cells packs as a control byte and the note. */
  lemma NoteOnlyRowSize(width: nat)
    ensures |PackRows([NoteOnlyRow(width)])| == 2 * width
  {
    var row := NoteOnlyRow(width);
    forall k | 0 <= k < |row.cells| ensures |PackCell(row.cells[k])| == 2 {
      PackCellForms(row.cells[k]);
    }
    FlattenLength(PackCell, 2, row.cells);
    FlattenSnoc(PackRow, [], row);
    assert [] + [row] == [row];
  }

  /** Packed data of a nonzero multiple of 65536 bytes is written with a
      size of 0, and then read back as empty rows: one row of 32768 cells
      with only a note packs to 65536 bytes and reads back without its
      notes. */
  lemma WrappedPackedSize(data: seq<byte>, pattern: Pattern)
    requires pattern == Pattern([NoteOnlyRow(0x8000)])
    requires At(data, 0, PatternBytes(pattern))
    ensures |PackRows(pattern.rows)| == 0x1_0000 && SavedPatternHeader(pattern).packedDataSize == 0
    ensures var r := PatternAt(data, 0x8000, 0);
      r.Ok? && r.value.0 == Pattern([EmptyRow(0x8000)]) && r.value.0 != pattern && r.value.1 == 9
  {
    WrappedHeader(pattern);
    SavedHeaderBack(data, 0, pattern);
    WrappedReadsEmpty(data, SavedPatternHeader(pattern));
    assert EmptyRow(0x8000).cells[0] != NoteOnlyRow(0x8000).cells[0];
  }

  /** The header saved for the row of 32768 note-only cells: one row and
      a packed size of 65536 truncated to 0. */
  lemma WrappedHeader(pattern: Pattern)
    requires pattern == Pattern([NoteOnlyRow(0x8000)])
    ensures |PackRows(pattern.rows)| == 0x1_0000
    ensures SavedPatternHeader(pattern).packedDataSize == 0 && SavedPatternHeader(pattern).rowCount == 1
  {
    NoteOnlyRowSize(0x8000);
  }

  /** A header of one row and no packed data reads back as one empty row. */
  lemma WrappedReadsEmpty(data: seq<byte>, h: PatternHeader)
    requires ReadPatternHeader(data, 0) == Ok(h) && h.packedDataSize == 0 && h.rowCount == 1
    ensures var r := PatternAt(data, 0x8000, 0);
      r.Ok? && r.value.0 == Pattern([EmptyRow(0x8000)]) && r.value.1 == 9
  {
    PatternAtEmpty(data, 0x8000, 0, h);
    assert EmptyRows(1, 0x8000) == [EmptyRow(0x8000)];
  }

  // ---- the reader's and writer's loops

  /** One field test of the compact form: if the flag of field `k` is set,
      the next byte is that field; otherwise the field keeps the 0 the
      cell was created with. This is one step of `UnpackFlagged`. */
  method DecodeField(data: seq<byte>, bits: byte, k: nat, cell: Cell, q: nat) returns (r: Result<(Cell, nat)>)
    requires k < 5 && Field(cell, k) == 0
    ensures r.Err? ==> UnpackFlagged(data, bits, q, k, cell) == Err(r.error)
    ensures r.Ok? ==> UnpackFlagged(data, bits, q, k, cell) == UnpackFlagged(data, bits, r.value.1, k + 1, r.value.0)
    ensures r.Ok? ==> forall j :: 0 <= j < 5 && j != k ==> Field(r.value.0, j) == Field(cell, j)
  {
    if Flag(bits, FieldFlag(k)) {
      var v :- ReadU8(data, q);
      return Ok((WithField(cell, k, v), q + 1));
    }
    CellExtensional(WithField(cell, k, 0), cell);
    return Ok((cell, q));
  }

  /** The reader's five field tests after a control byte `bits`, with
      the stream at `q`. */
  method DecodeFlagged(data: seq<byte>, bits: byte, q: nat) returns (r: Result<(Cell, nat)>)
    ensures r == UnpackFlagged(data, bits, q, 0, EmptyCell)
  {
    var cell, p := EmptyCell, q;
    var f := DecodeField(data, bits, 0, cell, p);
    if f.Err? { return Err(f.error); }
    cell, p := f.value.0, f.value.1;
    f := DecodeField(data, bits, 1, cell, p);
    if f.Err? { return Err(f.error); }
    cell, p := f.value.0, f.value.1;
    f := DecodeField(data, bits, 2, cell, p);
    if f.Err? { return Err(f.error); }
    cell, p := f.value.0, f.value.1;
    f := DecodeField(data, bits, 3, cell, p);
    if f.Err? { return Err(f.error); }
    cell, p := f.value.0, f.value.1;
    f := DecodeField(data, bits, 4, cell, p);
    if f.Err? { return Err(f.error); }
    return Ok(f.value);
  }

  /** The reader's cell decode at `p`: the first byte, then either the
      fields its flags select or the four raw fields after the note. */
  method DecodeCell(data: seq<byte>, p: nat) returns (r: Result<(Cell, nat)>)
    ensures r == UnpackCell(data, p)
  {
    var bits :- ReadU8(data, p);
    if Flag(bits, 0x80) {
      r := DecodeFlagged(data, bits, p + 1);
      return;
    }
    var inst :- ReadU8(data, p + 1);
    var vol :- ReadU8(data, p + 2);
    var effect :- ReadU8(data, p + 3);
    var param :- ReadU8(data, p + 4);
    return Ok((Cell(bits, inst, vol, effect, param), p + 5));
  }

  /** The reader's channel loop for one row. */
  method DecodeRow(data: seq<byte>, channelCount: nat, p: nat) returns (r: Result<(Row, nat)>)
    ensures r == RowAt(data, channelCount, p)
  {
    ghost var step := CellStep(data);
    var cells, q := [], p;
    for channel := 0 to channelCount
      invariant Repeat(step, p, channel) == Ok((cells, q))
    {
      var cell := DecodeCell(data, q);
      if cell.Err? {
        RepeatStop(step, p, channel, channelCount, cells, q);
        return Err(cell.error);
      }
      RepeatSnoc(step, p, channel, cells, q, cell.value.0, cell.value.1);
      cells, q := cells + [cell.value.0], cell.value.1;
    }
    return Ok((Row(cells), q));
  }

  /** The reader's row loop for one pattern: each row starts as
      `channelCount` empty cells, and its cells are decoded only when the
      header declares packed data. */
  method DecodePattern(data: seq<byte>, channelCount: nat, p: nat) returns (r: Result<(Pattern, nat)>)
    ensures r == PatternAt(data, channelCount, p)
  {
    var h :- ReadPatternHeader(data, p);
    ghost var step := RowStep(data, channelCount);
    var rows, q := [], p + 9;
    for rowIndex := 0 to h.rowCount
      invariant h.packedDataSize == 0 ==> rows == EmptyRows(rowIndex, channelCount) && q == p + 9
      invariant h.packedDataSize != 0 ==> Repeat(step, p + 9, rowIndex) == Ok((rows, q))
    {
      var row := EmptyRow(channelCount);
      if h.packedDataSize != 0 {
        var decoded := DecodeRow(data, channelCount, q);
        if decoded.Err? {
          RepeatStop(step, p + 9, rowIndex, h.rowCount, rows, q);
          return Err(decoded.error);
        }
        RepeatSnoc(step, p + 9, rowIndex, rows, q, decoded.value.0, decoded.value.1);
        row, q := decoded.value.0, decoded.value.1;
      }
      rows := rows + [row];
    }
    if h.packedDataSize != 0 {
      RowsWidth(data, channelCount, p + 9, h.rowCount);
    }
    return Ok((Pattern(rows), q));
  }

  /** The reader's pattern loop: each pattern starts where the previous
      one's packed data ended. */
  method DecodePatterns(data: seq<byte>, channelCount: nat, pos: nat, count: nat) returns (r: Result<(seq<Pattern>, nat)>)
    ensures r == Repeat(PatternStep(data, channelCount), pos, count)
  {
    ghost var step := PatternStep(data, channelCount);
    var patterns, q := [], pos;
    for k := 0 to count
      invariant Repeat(step, pos, k) == Ok((patterns, q))
    {
      var pattern := DecodePattern(data, channelCount, q);
      if pattern.Err? {
        RepeatStop(step, pos, k, count, patterns, q);
        return Err(pattern.error);
      }
      RepeatSnoc(step, pos, k, patterns, q, pattern.value.0, pattern.value.1);
      patterns, q := patterns + [pattern.value.0], pattern.value.1;
    }
    return Ok((patterns, q));
  }

  /** The flags of the nonzero fields OR-ed together. The flags are
      distinct bits, so each OR adds its flag. */
  method PresenceOf(c: Cell) returns (bits: nat)
    ensures bits == PresenceBits(c)
  {
    bits := 0;
    if c.note != 0 { bits := bits + 0x01; }
    if c.inst != 0 { bits := bits + 0x02; }
    if c.vol != 0 { bits := bits + 0x04; }
    if c.effect != 0 { bits := bits + 0x08; }
    if c.param != 0 { bits := bits + 0x10; }
  }

  /** One push of the compact form: the field, if it is nonzero. */
  method PushIfNonzero(bs: seq<byte>, v: byte) returns (bs': seq<byte>)
    ensures bs' == bs + Optional(v)
  {
    bs' := bs;
    if v != 0 {
      bs' := bs' + [v];
    }
  }

  /** The writer's cell encoding: the raw form when all five flags are
      set, else the control byte `bits | 0x80` and the nonzero fields. */
  method EncodeCell(c: Cell) returns (bs: seq<byte>)
    ensures bs == PackCell(c)
  {
    var bits := PresenceOf(c);
    if bits == 0x1f {
      return [c.note, c.inst, c.vol, c.effect, c.param];
    }
    bs := [0x80 + bits];
    bs := PushIfNonzero(bs, c.note);
    bs := PushIfNonzero(bs, c.inst);
    bs := PushIfNonzero(bs, c.vol);
    bs := PushIfNonzero(bs, c.effect);
    bs := PushIfNonzero(bs, c.param);
    PackedFieldsOf(c, [0x80 + bits]);
  }

  /** The packed fields pushed one after another. */
  lemma PackedFieldsOf(c: Cell, start: seq<byte>)
    ensures start + PackedFields(c, 0) ==
      start + Optional(c.note) + Optional(c.inst) + Optional(c.vol) + Optional(c.effect) + Optional(c.param)
  {
    var n, i, v, e, m := Optional(c.note), Optional(c.inst), Optional(c.vol), Optional(c.effect), Optional(c.param);
    assert PackedFields(c, 4) == m + [];
    assert m + [] == m;
    assert PackedFields(c, 0) == n + (i + (v + (e + m)));
    assert start + (n + (i + (v + (e + m)))) == start + n + i + v + e + m;
  }

  /** The writer's loops for one pattern: the packed data row after row and
      cell after cell, then the header with the row count and the packed
      size cut to 16 bits, then the packed data. */
  method EncodePattern(pattern: Pattern) returns (bs: seq<byte>)
    ensures bs == PatternBytes(pattern)
  {
    var packed := [];
    for r := 0 to |pattern.rows|
      invariant packed == PackRows(pattern.rows[..r])
    {
      var row := pattern.rows[r];
      var rowBytes := [];
      for k := 0 to |row.cells|
        invariant rowBytes == PackRow(Row(row.cells[..k]))
      {
        var cellBytes := EncodeCell(row.cells[k]);
        FlattenSnoc(PackCell, row.cells[..k], row.cells[k]);
        assert row.cells[..k + 1] == row.cells[..k] + [row.cells[k]];
        rowBytes := rowBytes + cellBytes;
      }
      assert row.cells[..|row.cells|] == row.cells;
      FlattenSnoc(PackRow, pattern.rows[..r], row);
      assert pattern.rows[..r + 1] == pattern.rows[..r] + [row];
      packed := packed + rowBytes;
    }
    assert pattern.rows[..|pattern.rows|] == pattern.rows;
    var header := PatternHeader(9, 0, |pattern.rows| % 0x1_0000, |packed| % 0x1_0000);
    bs := PatternHeaderBytes(header) + packed;
  }
}
