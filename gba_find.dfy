/** The bank scanner: every multiple of 4 below the file length is tried
    as the base address of a music bank, and a candidate is accepted only
    if its header, its song-offset table, its instrument headers and its
    song headers are all plausible. All positions are stream positions: a
    seek past the end succeeds, and the next read then fails. */
module GbaFind {
  import opened Bytes
  import opened GbaRecords
  import opened GbaBank
  import Misc

  /** The bank format version the scanner looks for. */
  const Version: u16 := 0x0121

  /** The header of a candidate: the expected version and at least one
      instrument and one song. */
  predicate HeaderPlausible(h: BankHeader) {
    h.version == Version && h.instrumentCount != 0 && h.songCount != 0
  }

  /** One turn of the instrument check at `p`: the 124-byte header reads in
      full and neither envelope claims more than its 12 points; the stream
      then skips the sample bytes (a seek, which cannot fail) and aligns
      to 4, where the next instrument starts. */
  function CheckedInstrument(data: seq<byte>, p: nat): (r: Result<(InstrumentHeader, nat)>)
    ensures r.Ok? <==> (ReadInstrumentHeader(data, p).Ok? &&
      ReadInstrumentHeader(data, p).value.volumeEnvelope.pointCount <= 12 &&
      ReadInstrumentHeader(data, p).value.panningEnvelope.pointCount <= 12)
    ensures r.Ok? ==> r.value == (ReadInstrumentHeader(data, p).value,
                                  Misc.Align(p + 124 + ReadInstrumentHeader(data, p).value.sampleLength, 4))
  {
    var h :- ReadInstrumentHeader(data, p);
    if h.volumeEnvelope.pointCount <= 12 && h.panningEnvelope.pointCount <= 12 then
      Ok((h, Misc.Align(p + 124 + h.sampleLength, 4)))
    else
      Err(Implausible)
  }

  function InstrumentCheck(data: seq<byte>): nat -> Result<(InstrumentHeader, nat)> {
    (p: nat) => CheckedInstrument(data, p)
  }

  /** The instruments checked one after another from `pos`, and the
      position after the last. */
  function InstrumentsChecked(data: seq<byte>, pos: nat, count: nat): Result<(seq<InstrumentHeader>, nat)> {
    Repeat(InstrumentCheck(data), pos, count)
  }

  /** Each next offset is larger than the one before it. */
  predicate Increasing(offsets: seq<u32>) {
    forall i :: 1 <= i < |offsets| ==> offsets[i - 1] < offsets[i]
  }

  /** `x & 0xfffffffc` for a 32-bit `x`: the two low bits cleared. */
  function ClearLow2(x: u32): (r: u32)
    ensures r % 4 == 0 && x - 4 < r <= x
  {
    x - x % 4
  }

  /** The song check for the offset `offset`: a multiple of 4 inside the
      file; at `base + offset` (a 32-bit sum, so it wraps) a 6-byte song
      header reads in full with nonzero channel count, song length, pattern
      count, tickrate and tempo; after alignment to 4 all `songLength`
      pattern-order bytes read; and each of them names one of the
      `patternCount` patterns. */
  predicate SongPlausible(data: seq<byte>, base: u32, offset: u32): (ok: bool)
    ensures ok ==> offset % 4 == 0 && offset < |data| && (base + offset) % 0x1_0000_0000 + 6 <= |data|
  {
    var pos := (base + offset) % 0x1_0000_0000;
    offset == ClearLow2(offset) && offset < |data| &&
    match ReadSongHeader(data, pos)
    case Err(_) => false
    case Ok(h) =>
      h.channelCount != 0 && h.songLength != 0 && h.patternCount != 0 && h.tickrate != 0 && h.tempo != 0 &&
      match ReadBytes(data, Misc.Align(pos + 6, 4), h.songLength)
      case Err(_) => false
      case Ok(order) => forall i :: 0 <= i < |order| ==> order[i] < h.patternCount
  }

  /** The checks after the song-offset table, whose end is `tableEnd`: the
      instruments from there on, whose end must not pass the first song's
      offset from the base, then the order of the offsets, then each song. */
  predicate TablesPlausible(data: seq<byte>, base: u32, h: BankHeader, offsets: seq<u32>, tableEnd: nat)
    requires |offsets| >= 1
  {
    var insts := InstrumentsChecked(data, tableEnd, h.instrumentCount);
    insts.Ok? && insts.value.1 - base <= offsets[0] &&
    Increasing(offsets) &&
    forall i :: 0 <= i < |offsets| ==> SongPlausible(data, base, offsets[i])
  }

  /** The scanner accepts `base`: the header reads with the expected
      version and nonzero counts, all `songCount` offsets read right after
      it, and the rest is plausible. */
  predicate Accepts(data: seq<byte>, base: u32): (ok: bool)
    ensures ok ==> ReadBankHeader(data, base).Ok? && HeaderPlausible(ReadBankHeader(data, base).value)
    ensures ok ==> base + 4 + 4 * ReadBankHeader(data, base).value.songCount <= |data|
  {
    match ReadBankHeader(data, base)
    case Err(_) => false
    case Ok(h) =>
      HeaderPlausible(h) &&
      match Repeat(U32Step(data), base + 4, h.songCount)
      case Err(_) => false
      case Ok(offsets) =>
        OffsetTableEnd(data, base + 4, h.songCount);
        TablesPlausible(data, base, h, offsets.0, offsets.1)
  }

  /** A song-offset table of `count` entries that reads in full ends
      `4 * count` bytes on, inside the file. */
  lemma OffsetTableEnd(data: seq<byte>, pos: nat, count: nat)
    requires Repeat(U32Step(data), pos, count).Ok? && count > 0
    ensures pos + 4 * count <= |data|
  {
    U32Strided(data);
    RepeatStrided(U32Step(data), 4, pos, count);
    assert U32Step(data)(pos + 4 * (count - 1)).Ok?;
  }

  // ---- consequences of acceptance

  /** In an increasing table every offset after the first is larger than it. */
  lemma {:induction false} IncreasingFromFirst(offsets: seq<u32>, i: nat)
    requires Increasing(offsets) && 0 < i < |offsets|
    ensures offsets[0] < offsets[i]
  {
    if i > 1 {
      IncreasingFromFirst(offsets, i - 1);
    }
  }

  /** In an accepted bank no song starts before the instruments end, and
      the songs lie in the file in the order of the table. */
  lemma AcceptedSongsAfterInstruments(data: seq<byte>, base: u32, h: BankHeader, offsets: seq<u32>, tableEnd: nat)
    requires ReadBankHeader(data, base) == Ok(h)
    requires Repeat(U32Step(data), base + 4, h.songCount) == Ok((offsets, tableEnd))
    requires Accepts(data, base)
    ensures InstrumentsChecked(data, tableEnd, h.instrumentCount).Ok?
    ensures forall i :: 0 <= i < |offsets| ==>
      InstrumentsChecked(data, tableEnd, h.instrumentCount).value.1 <= base + offsets[i]
    ensures forall i :: 0 <= i < |offsets| ==> offsets[i] % 4 == 0 && offsets[i] < |data|
    ensures forall i, j :: 0 <= i < j < |offsets| ==> offsets[i] < offsets[j]
  {
    assert TablesPlausible(data, base, h, offsets, tableEnd);
    forall i | 0 < i < |offsets| ensures offsets[0] < offsets[i] {
      IncreasingFromFirst(offsets, i);
    }
    assert forall i :: 0 <= i < |offsets| ==> SongPlausible(data, base, offsets[i]);
    forall i, j | 0 <= i < j < |offsets| ensures offsets[i] < offsets[j] {
      IncreasingPair(offsets, i, j);
    }
  }

  lemma {:induction false} IncreasingPair(offsets: seq<u32>, i: nat, j: nat)
    requires Increasing(offsets) && i < j < |offsets|
    ensures offsets[i] < offsets[j]
    decreases j
  {
    if i < j - 1 {
      IncreasingPair(offsets, i, j - 1);
    }
  }

  /** A candidate whose header does not fit in the file is rejected. */
  lemma ShortHeaderRejected(data: seq<byte>, base: u32)
    requires |data| < base + 4
    ensures !Accepts(data, base)
  {
  }

  // ---- the scanner's loops

  /** One turn of the instrument loop at `p`: the header read, its two
      point-count tests, the skip over the sample bytes and the alignment. */
  method CheckInstrument(data: seq<byte>, p: nat) returns (ok: bool, header: InstrumentHeader, next: nat)
    ensures ok <==> InstrumentCheck(data)(p).Ok?
    ensures ok ==> InstrumentCheck(data)(p) == Ok((header, next))
  {
    var read := ReadInstrumentHeader(data, p);
    if read.Err? {
      var none := Envelope(0, 0, 0, 0, []);
      return false, InstrumentHeader(0, 0, 0, 0, 0, 0, 0, 0, [], none, none), p;
    }
    header := read.value;
    ok := header.volumeEnvelope.pointCount <= 12;
    ok := ok && header.panningEnvelope.pointCount <= 12;
    next := Misc.Align(p + 124 + header.sampleLength, 4);
  }

  /** The instrument loop: `instsValid` is and-ed with each check while it
      holds, and the stream moves past each instrument. */
  method CheckInstruments(data: seq<byte>, pos: nat, count: nat) returns (valid: bool, end: nat)
    ensures valid <==> InstrumentsChecked(data, pos, count).Ok?
    ensures valid ==> end == InstrumentsChecked(data, pos, count).value.1
  {
    ghost var step := InstrumentCheck(data);
    ghost var headers := [];
    valid, end := true, pos;
    var inst := 0;
    while valid && inst < count
      invariant inst <= count
      invariant valid ==> Repeat(step, pos, inst) == Ok((headers, end))
      invariant !valid ==> Repeat(step, pos, count).Err?
      decreases count - inst
    {
      var ok, header, next := CheckInstrument(data, end);
      if ok {
        RepeatSnoc(step, pos, inst, headers, end, header, next);
        headers, end := headers + [header], next;
      } else {
        RepeatStop(step, pos, inst, count, headers, end);
      }
      valid := valid && ok;
      inst := inst + 1;
    }
  }

  /** The monotonicity loop: `songOffsetsAreMonotonic` and-ed over every
      adjacent pair. */
  method CheckIncreasing(offsets: seq<u32>) returns (monotonic: bool)
    ensures monotonic <==> Increasing(offsets)
  {
    monotonic := true;
    var i := 1;
    while i < |offsets|
      invariant 1 <= i
      invariant monotonic <==> forall k :: 1 <= k < i && k < |offsets| ==> offsets[k - 1] < offsets[k]
    {
      monotonic := monotonic && offsets[i - 1] < offsets[i];
      i := i + 1;
    }
  }

  /** One turn of the song loop: the alignment and range tests of the
      offset, the seek to `base + offset`, the header tests, the read of
      the pattern order and its loop over the entries. */
  method CheckSong(data: seq<byte>, base: u32, offset: u32) returns (valid: bool)
    ensures valid == SongPlausible(data, base, offset)
  {
    valid := offset == ClearLow2(offset);
    valid := valid && offset < |data|;
    var pos := (base + offset) % 0x1_0000_0000;
    var header := ReadSongHeader(data, pos);
    if header.Err? {
      return false;
    }
    var h := header.value;
    valid := valid && h.channelCount != 0 && h.songLength != 0 && h.patternCount != 0;
    valid := valid && h.tickrate != 0 && h.tempo != 0;
    var orderRead := ReadBytes(data, Misc.Align(pos + 6, 4), h.songLength);
    if orderRead.Err? {
      return false;
    }
    var order := orderRead.value;
    var entriesValid := true;
    for i := 0 to h.songLength
      invariant entriesValid <==> forall k :: 0 <= k < i ==> order[k] < h.patternCount
    {
      entriesValid := entriesValid && order[i] < h.patternCount;
    }
    valid := valid && entriesValid;
  }

  /** The song loop: `songsValid` and-ed with each song's checks while it
      holds. */
  method CheckSongs(data: seq<byte>, base: u32, offsets: seq<u32>) returns (valid: bool)
    ensures valid <==> forall i :: 0 <= i < |offsets| ==> SongPlausible(data, base, offsets[i])
  {
    valid := true;
    var song := 0;
    while valid && song < |offsets|
      invariant song <= |offsets|
      invariant valid <==> forall k :: 0 <= k < song ==> SongPlausible(data, base, offsets[k])
      decreases |offsets| - song
    {
      var ok := CheckSong(data, base, offsets[song]);
      valid := valid && ok;
      song := song + 1;
    }
  }

  /** All the checks of one candidate base address, in the source's order;
      the first that fails rejects it. */
  method CheckCandidate(data: seq<byte>, base: u32) returns (accept: bool)
    ensures accept == Accepts(data, base)
  {
    var header := ReadBankHeader(data, base);
    if header.Err? {
      return false;
    }
    var h := header.value;
    if h.version != Version || h.instrumentCount == 0 || h.songCount == 0 {
      return false;
    }
    var table := DecodeOffsets(data, base + 4, h.songCount);
    if table.Err? {
      return false;
    }
    var offsets, tableEnd := table.value.0, table.value.1;
    var instsValid, end := CheckInstruments(data, tableEnd, h.instrumentCount);
    if !instsValid {
      return false;
    }
    if end - base > offsets[0] {
      return false;
    }
    var monotonic := CheckIncreasing(offsets);
    if !monotonic {
      return false;
    }
    accept := CheckSongs(data, base, offsets);
  }

  // ---- the scan

  /** The candidates among the first `k` base addresses 0, 4, 8, ... that
      `accepts`, in the order they are tried. */
  function AcceptedAmong(accepts: u32 -> bool, k: nat): seq<u32>
    requires 4 * k <= 0x1_0000_0000
  {
    if k == 0 then []
    else AcceptedAmong(accepts, k - 1) + (if accepts(4 * (k - 1)) then [4 * (k - 1)] else [])
  }

  /** The accepted candidates among the first `k` are exactly the accepted
      multiples of 4 below `4 * k`, each once, in ascending order. */
  lemma AcceptedAmongMeaning(accepts: u32 -> bool, k: nat)
    requires 4 * k <= 0x1_0000_0000
    ensures forall i :: 0 <= i < |AcceptedAmong(accepts, k)| ==>
      AcceptedAmong(accepts, k)[i] % 4 == 0 && AcceptedAmong(accepts, k)[i] < 4 * k &&
      accepts(AcceptedAmong(accepts, k)[i])
    ensures forall i, j :: 0 <= i < j < |AcceptedAmong(accepts, k)| ==>
      AcceptedAmong(accepts, k)[i] < AcceptedAmong(accepts, k)[j]
    ensures forall b: u32 :: b % 4 == 0 && b < 4 * k && accepts(b) ==> b in AcceptedAmong(accepts, k)
  {
    AcceptedAmongBounds(accepts, k);
    AcceptedAmongSorted(accepts, k);
    AcceptedAmongComplete(accepts, k);
  }

  lemma {:induction false} AcceptedAmongBounds(accepts: u32 -> bool, k: nat)
    requires 4 * k <= 0x1_0000_0000
    ensures forall i :: 0 <= i < |AcceptedAmong(accepts, k)| ==>
      AcceptedAmong(accepts, k)[i] % 4 == 0 && AcceptedAmong(accepts, k)[i] < 4 * k &&
      accepts(AcceptedAmong(accepts, k)[i])
  {
    if k > 0 {
      AcceptedAmongBounds(accepts, k - 1);
      var front := AcceptedAmong(accepts, k - 1);
      var all := AcceptedAmong(accepts, k);
      var m: u32 := 4 * (k - 1);
      assert all == front + (if accepts(m) then [m] else []);
      forall i | 0 <= i < |all| ensures all[i] % 4 == 0 && all[i] < 4 * k && accepts(all[i]) {
        if i < |front| {
          assert all[i] == front[i];
        }
      }
    }
  }

  lemma {:induction false} AcceptedAmongSorted(accepts: u32 -> bool, k: nat)
    requires 4 * k <= 0x1_0000_0000
    ensures forall i, j :: 0 <= i < j < |AcceptedAmong(accepts, k)| ==>
      AcceptedAmong(accepts, k)[i] < AcceptedAmong(accepts, k)[j]
  {
    if k > 0 {
      AcceptedAmongBounds(accepts, k - 1);
      AcceptedAmongSorted(accepts, k - 1);
      var front := AcceptedAmong(accepts, k - 1);
      var all := AcceptedAmong(accepts, k);
      var m: u32 := 4 * (k - 1);
      assert all == front + (if accepts(m) then [m] else []);
      forall i, j | 0 <= i < j < |all| ensures all[i] < all[j] {
        assert all[i] == front[i];
        if j < |front| {
          assert all[j] == front[j];
        }
      }
    }
  }

  lemma {:induction false} AcceptedAmongComplete(accepts: u32 -> bool, k: nat)
    requires 4 * k <= 0x1_0000_0000
    ensures forall b: u32 :: b % 4 == 0 && b < 4 * k && accepts(b) ==> b in AcceptedAmong(accepts, k)
  {
    if k > 0 {
      AcceptedAmongComplete(accepts, k - 1);
      var front := AcceptedAmong(accepts, k - 1);
      var all := AcceptedAmong(accepts, k);
      var m: u32 := 4 * (k - 1);
      assert all == front + (if accepts(m) then [m] else []);
      forall b: u32 | b % 4 == 0 && b < 4 * k && accepts(b) ensures b in all {
        if b < m {
          assert b in front;
        } else {
          assert b == m;
        }
      }
    }
  }

  /** The base addresses the scanner reports for a file. */
  function Found(data: seq<byte>): seq<u32>
    requires |data| <= 0x1_0000_0000
  {
    AcceptedAmong((b: u32) => Accepts(data, b), (|data| + 3) / 4)
  }

  /** The scan over one file: base addresses 0, 4, 8, ... below the file
      length, each reported when accepted. `baseAddr` is a 32-bit counter;
      the file fits below its range, so it never wraps. */
  method Scan(data: seq<byte>) returns (found: seq<u32>)
    requires |data| <= 0xFFFF_FFFC
    ensures found == Found(data)
  {
    ghost var accepts := (b: u32) => Accepts(data, b);
    ghost var k := 0;
    found := [];
    var baseAddr: u32 := 0;
    while baseAddr < |data|
      invariant baseAddr == 4 * k <= |data| + 3
      invariant found == AcceptedAmong(accepts, k)
      decreases |data| - baseAddr
    {
      var accept := CheckCandidate(data, baseAddr);
      assert accept == accepts(4 * k);
      if accept {
        found := found + [baseAddr];
      }
      baseAddr := (baseAddr + 4) % 0x1_0000_0000;
      k := k + 1;
    }
    assert k == (|data| + 3) / 4;
  }

  /** Every reported offset is a multiple of 4 inside the file and is
      accepted, the report is in ascending order, and every accepted
      multiple of 4 inside the file is reported. */
  lemma FoundMeaning(data: seq<byte>)
    requires |data| <= 0x1_0000_0000
    ensures forall i :: 0 <= i < |Found(data)| ==>
      Found(data)[i] % 4 == 0 && Found(data)[i] < |data| && Accepts(data, Found(data)[i])
    ensures forall i, j :: 0 <= i < j < |Found(data)| ==> Found(data)[i] < Found(data)[j]
    ensures forall b: u32 :: b % 4 == 0 && b < |data| && Accepts(data, b) ==> b in Found(data)
  {
    var accepts := (b: u32) => Accepts(data, b);
    var k := (|data| + 3) / 4;
    AcceptedAmongMeaning(accepts, k);
    forall i | 0 <= i < |Found(data)| ensures Found(data)[i] < |data| {
      assert Found(data)[i] % 4 == 0 && Found(data)[i] < 4 * k;
    }
  }
}
