/** The interchange song model shared by both formats: a cell holds five
    byte fields, a row is its sequence of cells (one per channel), and a
    pattern is its sequence of rows. A field value of 0 means "absent". */
module Song {
  import opened Bytes

  datatype Cell = Cell(note: byte, inst: byte, vol: byte, effect: byte, param: byte)

  datatype Row = Row(cells: seq<Cell>)

  datatype Pattern = Pattern(rows: seq<Row>)

  /** A default-constructed cell: every field absent. */
  const EmptyCell := Cell(0, 0, 0, 0, 0)

  /** Field `k` of a cell, in storage order: 0 note, 1 instrument,
      2 volume, 3 effect, 4 effect parameter. */
  function Field(c: Cell, k: nat): byte
    requires k < 5
  {
    match k
    case 0 => c.note
    case 1 => c.inst
    case 2 => c.vol
    case 3 => c.effect
    case 4 => c.param
  }

  /** The cell `c` with field `k` replaced by `v`. */
  function WithField(c: Cell, k: nat, v: byte): (r: Cell)
    requires k < 5
    ensures Field(r, k) == v
    ensures forall j :: 0 <= j < 5 && j != k ==> Field(r, j) == Field(c, j)
  {
    match k
    case 0 => c.(note := v)
    case 1 => c.(inst := v)
    case 2 => c.(vol := v)
    case 3 => c.(effect := v)
    case 4 => c.(param := v)
  }

  /** Two cells are equal exactly when their five fields are. */
  lemma CellExtensional(a: Cell, b: Cell)
    requires forall k :: 0 <= k < 5 ==> Field(a, k) == Field(b, k)
    ensures a == b
  {
    assert Field(a, 0) == Field(b, 0) && Field(a, 1) == Field(b, 1) && Field(a, 2) == Field(b, 2);
    assert Field(a, 3) == Field(b, 3) && Field(a, 4) == Field(b, 4);
  }

  /** A row resized to `channels` cells before any field is read. */
  function EmptyRow(channels: nat): (r: Row)
    ensures |r.cells| == channels
    ensures forall c :: 0 <= c < channels ==> r.cells[c] == EmptyCell
  {
    Row(seq(channels, _ => EmptyCell))
  }

  /** Every row of `p` holds exactly `channels` cells. */
  predicate HasWidth(p: Pattern, channels: nat) {
    forall r :: 0 <= r < |p.rows| ==> |p.rows[r].cells| == channels
  }
}
