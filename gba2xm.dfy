/** The conversion of one song of a GBA music bank into an XM module, and
    the pass that drops the samples of instruments no pattern plays. */
module Gba2Xm {
  import opened Bytes
  import opened Song
  import opened GbaRecords
  import opened GbaBank
  import opened XmRecords
  import opened XmFile
  import opened XmSave
  import opened XmRoundTrip
  import XmPacking
  import GbaLayout
  import Misc

  // ---- names

  predicate IsLowerHex(c: char) {
    '0' <= c <= '9' || 'a' <= c <= 'f'
  }

  /** The lower-case hexadecimal digit for `d`. */
  function HexDigit(d: nat): (c: char)
    requires d < 16
    ensures IsLowerHex(c) && Misc.DigitValue(c, 16) == d
  {
    if d < 10 then ('0' as int + d) as char else ('a' as int + d - 10) as char
  }

  /** `n` in lower-case hexadecimal without leading zeros. */
  function HexDigits(n: nat): (s: string)
    ensures 1 <= |s| && (n < 0x100 ==> |s| <= 2)
    ensures forall i :: 0 <= i < |s| ==> IsLowerHex(s[i])
  {
    if n < 16 then [HexDigit(n)] else HexDigits(n / 16) + [HexDigit(n % 16)]
  }

  /** `n` formatted as `{:02x}`: lower-case hexadecimal, zero-padded to at
      least two digits. */
  function Hex02(n: nat): (s: string)
    ensures 2 <= |s| && (n < 0x100 ==> |s| == 2)
    ensures forall i :: 0 <= i < |s| ==> IsLowerHex(s[i])
  {
    if n < 16 then "0" + HexDigits(n) else HexDigits(n)
  }

  /** The hexadecimal digits read back, as the number parser reads them, to
      the number they format. */
  lemma {:induction false} HexDigitsValue(n: nat)
    ensures Misc.AllDigits(HexDigits(n), 16) && Misc.Positional(HexDigits(n), 16) == n
  {
    if n < 16 {
      assert Misc.Positional(HexDigits(n)[1..], 16) == 0;
    } else {
      HexDigitsValue(n / 16);
      Misc.PositionalSnoc(HexDigits(n / 16), 16, HexDigit(n % 16));
    }
  }

  lemma Hex02Value(n: nat)
    ensures Misc.AllDigits(Hex02(n), 16) && Misc.Positional(Hex02(n), 16) == n
  {
    HexDigitsValue(n);
    if n < 16 {
      assert Hex02(n) == ['0'] + [HexDigit(n)];
      assert Misc.Positional(['0'], 16) == 0 by {
        assert ['0'][1..] == [];
      }
      Misc.PositionalSnoc(['0'], 16, HexDigit(n));
    }
  }

  /** A text of 8-bit characters as the bytes the C++ string holds. */
  function Ascii(s: string): (bs: seq<byte>)
    requires forall i :: 0 <= i < |s| ==> s[i] as int < 0x100
    ensures |bs| == |s| && forall i :: 0 <= i < |s| ==> bs[i] == s[i] as int
  {
    if s == [] then [] else Ascii(s[..|s| - 1]) + [s[|s| - 1] as int]
  }

  /** "Instrument " and the instrument's number from 1, formatted `{:02x}`. */
  function InstrumentText(n: nat): string {
    "Instrument " + Hex02(n)
  }

  /** "Sample " and the instrument's number from 1, formatted `{:02x}`. */
  function SampleText(n: nat): string {
    "Sample " + Hex02(n)
  }

  function InstrumentName(n: nat): seq<byte> {
    Ascii(InstrumentText(n))
  }

  function SampleName(n: nat): seq<byte> {
    Ascii(SampleText(n))
  }

  /** Both names end in the number they were made from, in hexadecimal, and
      for a number below 0x100 they fit their XM name fields. */
  lemma NamesCarryNumber(n: nat)
    ensures InstrumentText(n)[..11] == "Instrument " && SampleText(n)[..7] == "Sample "
    ensures Misc.AllDigits(InstrumentText(n)[11..], 16) && Misc.Positional(InstrumentText(n)[11..], 16) == n
    ensures Misc.AllDigits(SampleText(n)[7..], 16) && Misc.Positional(SampleText(n)[7..], 16) == n
    ensures n < 0x100 ==> |InstrumentName(n)| == 13 <= InstrumentNameSize && |SampleName(n)| == 9 <= SampleNameSize
  {
    assert InstrumentText(n)[11..] == Hex02(n);
    assert SampleText(n)[7..] == Hex02(n);
    Hex02Value(n);
  }

  // ---- envelopes

  /** The XM envelope type the converter builds: it starts at zero and sets
      "on" (0x01) when the envelope has points, "sustain" (0x02) when a
      sustain point is given and "loop" (0x04) when a loop end is given,
      0xFF marking an absent point. */
  function EnvelopeType(e: Envelope): (t: byte)
    ensures XmPacking.Flag(t, 1) <==> e.pointCount != 0
    ensures XmPacking.Flag(t, 2) <==> e.sustain != 0xFF
    ensures XmPacking.Flag(t, 4) <==> e.loopEnd != 0xFF
    ensures t < 8
  {
    var on: bv8 := if e.pointCount != 0 then 0x01 else 0;
    var sustain: bv8 := if e.sustain != 0xFF then on | 0x02 else on;
    var loop: bv8 := if e.loopEnd != 0xFF then sustain | 0x04 else sustain;
    loop as int
  }

  /** The GBA volume envelope as an XM extended header holds it. */
  function VolumeEnvelopeOf(e: ExtHeader): Envelope {
    Envelope(e.volumePointCount, e.volumeSustainPoint, e.volumeLoopStartPoint, e.volumeLoopEndPoint,
             e.volumeEnvelopePoints)
  }

  /** The GBA panning envelope as an XM extended header holds it. */
  function PanningEnvelopeOf(e: ExtHeader): Envelope {
    Envelope(e.panningPointCount, e.panningSustainPoint, e.panningLoopStartPoint, e.panningLoopEndPoint,
             e.panningEnvelopePoints)
  }

  /** The extended header of an instrument that has a sample: 40 is the
      size of an XM sample header, no note maps to another sample, both
      envelopes are copied and typed, the vibrato is off and the fadeout is
      copied. */
  function ConvertExtHeader(h: InstrumentHeader): (e: FixedExtHeader)
    requires InstrumentHeaderWellFormed(h)
  {
    var vol, pan := h.volumeEnvelope, h.panningEnvelope;
    ExtHeader(40, Zeros(96), vol.points, pan.points, vol.pointCount, pan.pointCount,
              vol.sustain, vol.loopStart, vol.loopEnd, pan.sustain, pan.loopStart, pan.loopEnd,
              EnvelopeType(vol), EnvelopeType(pan), 0, 0, 0, 0, h.volumeFadeout, 0)
  }

  /** Nothing of either envelope or of the fadeout is lost: both come back
      out of the extended header unchanged, and each type byte says which
      parts of its envelope are in use. */
  lemma EnvelopesCarried(h: InstrumentHeader)
    requires InstrumentHeaderWellFormed(h)
    ensures VolumeEnvelopeOf(ConvertExtHeader(h)) == h.volumeEnvelope
    ensures PanningEnvelopeOf(ConvertExtHeader(h)) == h.panningEnvelope
    ensures ConvertExtHeader(h).volumeFadeout == h.volumeFadeout
    ensures ConvertExtHeader(h).volumeType == EnvelopeType(VolumeEnvelopeOf(ConvertExtHeader(h)))
    ensures ConvertExtHeader(h).panningType == EnvelopeType(PanningEnvelopeOf(ConvertExtHeader(h)))
    ensures forall i :: 0 <= i < 96 ==> ConvertExtHeader(h).sampleNumberForAllNotes[i] == 0
  {
  }

  // ---- delta coding of sample data

  /** The byte at `i` after delta coding: the first byte stays, every later
      one becomes its difference from the byte before it, modulo 256 as an
      8-bit subtraction wraps. */
  function DeltaAt(s: seq<byte>, i: nat): byte
    requires i < |s|
  {
    if i == 0 then s[0] else (s[i] as int - s[i - 1] as int) % 0x100
  }

  function Delta(s: seq<byte>): (d: seq<byte>)
    ensures |d| == |s|
  {
    seq(|s|, i requires 0 <= i < |s| => DeltaAt(s, i))
  }

  /** Delta decoding, as an XM player undoes the coding: a running sum
      modulo 256. */
  function Undelta(d: seq<byte>): (s: seq<byte>)
    ensures |s| == |d|
  {
    if |d| <= 1 then d
    else
      var u := Undelta(d[..|d| - 1]);
      u + [(u[|u| - 1] as int + d[|d| - 1] as int) % 0x100]
  }

  lemma DeltaPrefix(s: seq<byte>, n: nat)
    requires n <= |s|
    ensures Delta(s)[..n] == Delta(s[..n])
  {
  }

  /** Decoding undoes the coding ... */
  lemma {:induction false} UndeltaDelta(s: seq<byte>)
    ensures Undelta(Delta(s)) == s
  {
    if |s| > 1 {
      var n, d := |s| - 1, Delta(s);
      DeltaPrefix(s, n);
      UndeltaDelta(s[..n]);
      assert Undelta(d[..n]) == s[..n];
      assert d[n] == (s[n] as int - s[n - 1] as int) % 0x100;
      WrappedSum(s[n - 1], s[n]);
      assert Undelta(d) == s[..n] + [s[n]];
      assert s == s[..n] + [s[n]];
    }
  }

  /** ... and coding undoes the decoding, so no two samples share a coding. */
  lemma {:induction false} DeltaUndelta(d: seq<byte>)
    ensures Delta(Undelta(d)) == d
  {
    if |d| > 1 {
      var n := |d| - 1;
      var front := Undelta(d[..n]);
      DeltaUndelta(d[..n]);
      var last := (front[n - 1] as int + d[n] as int) % 0x100;
      assert Undelta(d) == front + [last];
      DeltaSnoc(front, last);
      WrappedDifference(front[n - 1], d[n]);
      assert d == d[..n] + [d[n]];
    }
  }

  /** Coding one more byte appends its difference from the last one. */
  lemma DeltaSnoc(s: seq<byte>, x: byte)
    requires |s| > 0
    ensures Delta(s + [x]) == Delta(s) + [(x as int - s[|s| - 1] as int) % 0x100]
  {
    var t := s + [x];
    forall i | 0 <= i < |s| ensures DeltaAt(t, i) == DeltaAt(s, i) {
      assert t[i] == s[i];
      if i > 0 {
        assert t[i - 1] == s[i - 1];
      }
    }
    assert DeltaAt(t, |s|) == (x as int - s[|s| - 1] as int) % 0x100;
  }

  /** Adding to `a` the difference of `b` and `a`, both modulo 256, gives `b`. */
  lemma WrappedSum(a: byte, b: byte)
    ensures (a as int + (b as int - a as int) % 0x100) % 0x100 == b
  {
  }

  /** Adding `b` and then subtracting `a`, both modulo 256, gives `b` back. */
  lemma WrappedDifference(a: byte, b: byte)
    ensures (((a as int + b as int) % 0x100) - a as int) % 0x100 == b
  {
  }

  /** The converter's coding loop: from the last byte down to the second,
      each byte has the one before it subtracted, in place. */
  method DeltaEncode(a: array<byte>)
    modifies a
    ensures a[..] == Delta(old(a[..]))
  {
    ghost var s := a[..];
    var i := a.Length - 1;
    while i > 0
      invariant -1 <= i < a.Length && (a.Length > 0 ==> 0 <= i)
      invariant forall j :: 0 <= j <= i ==> a[j] == s[j]
      invariant forall j :: i < j < a.Length ==> a[j] == DeltaAt(s, j)
    {
      a[i] := (a[i] as int - a[i - 1] as int) % 0x100;
      i := i - 1;
    }
    assert forall j :: 0 <= j < a.Length ==> a[j] == DeltaAt(s, j);
  }

  // ---- instruments

  /** The sample of an instrument whose sample is not empty: loop, volume,
      finetune, panning and relative note copied, the forward-loop flag set
      exactly when the loop has a length, and the data delta coded. */
  function ConvertSample(h: InstrumentHeader, sample: seq<byte>, n: nat): (s: XmSample)
    ensures XmPacking.Flag(s.typeFlags, 1) <==> h.sampleLoopLength > 0
    ensures s.typeFlags <= 1
  {
    XmSample(h.sampleLoopStart, h.sampleLoopLength, h.sampleVolume, h.sampleFinetune,
             if h.sampleLoopLength > 0 then 0x01 else 0, h.samplePanning, h.sampleRelativeNote,
             SampleName(n), Delta(sample))
  }

  /** Instrument `index` (from zero) of the bank as an XM instrument, named
      by its number from one. An instrument without sample data gets no
      sample and, for its never-written extended header, zeros. */
  function ConvertInstrument(inst: Instrument, index: nat): XmInstrument
    requires InstrumentHeaderWellFormed(inst.header)
  {
    if |inst.sample| > 0 then
      XmInstrument(InstrumentName(index + 1), 0, ConvertExtHeader(inst.header),
                   [ConvertSample(inst.header, inst.sample, index + 1)])
    else
      XmInstrument(InstrumentName(index + 1), 0, ZeroExtHeader(), [])
  }

  /** The headers of a decoded bank have their fixed-size arrays. */
  predicate HeadersWellFormed(insts: seq<Instrument>) {
    forall i :: 0 <= i < |insts| ==> InstrumentHeaderWellFormed(insts[i].header)
  }

  /** Every bank the decoder reads meets the precondition of the
      conversion. */
  lemma DecodedHeadersWellFormed(data: seq<byte>, base: nat, bank: Bank)
    requires BankAt(data, base) == Ok(bank)
    ensures HeadersWellFormed(bank.instruments)
  {
    var starts := GbaLayout.InstrumentsContiguous(data, base, bank);
    forall i | 0 <= i < |bank.instruments|
      ensures InstrumentHeaderWellFormed(bank.instruments[i].header)
    {
      GbaLayout.InstrumentLayout(data, starts[i], bank.instruments[i], starts[i + 1]);
    }
  }

  function ConvertInstruments(insts: seq<Instrument>): (r: seq<XmInstrument>)
    requires HeadersWellFormed(insts)
    ensures |r| == |insts|
    ensures forall i :: 0 <= i < |insts| ==> r[i] == ConvertInstrument(insts[i], i)
  {
    seq(|insts|, i requires 0 <= i < |insts| => ConvertInstrument(insts[i], i))
  }

  /** The XM module for `song`: no names yet, the restart position, channel
      count, tick rate and tempo from the song header, the Amiga frequency
      table, the order and patterns as they are, and every instrument of the
      bank in bank order. */
  function Converted(bank: Bank, song: GbaSong): (m: XmModule)
    requires HeadersWellFormed(bank.instruments)
  {
    XmModule([], [], song.header.loopPoint, song.header.channelCount, 0,
             song.header.tickrate, song.header.tempo, song.patternOrder, song.patterns,
             ConvertInstruments(bank.instruments))
  }

  /** What becomes of instrument `i`: it keeps bank order and its number,
      has one sample exactly when its sample data is not empty, and that
      sample decodes back to the bank's sample data. */
  lemma ConvertedInstrument(bank: Bank, song: GbaSong, i: nat)
    requires HeadersWellFormed(bank.instruments) && i < |bank.instruments|
    ensures var x := Converted(bank, song).instruments[i];
      x.name == InstrumentName(i + 1) && x.instrumentType == 0 &&
      (|x.samples| == 1 <==> |bank.instruments[i].sample| > 0) &&
      (|x.samples| == 0 <==> |bank.instruments[i].sample| == 0) &&
      (|x.samples| == 1 ==> Undelta(x.samples[0].data) == bank.instruments[i].sample &&
                            x.samples[0].name == SampleName(i + 1))
  {
    UndeltaDelta(bank.instruments[i].sample);
  }

  /** One instrument, with its sample data coded in place in a buffer. */
  method ConvertOne(inst: Instrument, index: nat) returns (x: XmInstrument)
    requires InstrumentHeaderWellFormed(inst.header)
    ensures x == ConvertInstrument(inst, index)
  {
    var name := InstrumentName(index + 1);
    if |inst.sample| > 0 {
      var data := new byte[|inst.sample|](i requires 0 <= i < |inst.sample| => inst.sample[i]);
      assert data[..] == inst.sample;
      DeltaEncode(data);
      var h := inst.header;
      var sample := XmSample(h.sampleLoopStart, h.sampleLoopLength, h.sampleVolume, h.sampleFinetune,
                             0, h.samplePanning, h.sampleRelativeNote, SampleName(index + 1), data[..]);
      if h.sampleLoopLength > 0 {
        sample := sample.(typeFlags := 0x01);
      }
      x := XmInstrument(name, 0, ConvertExtHeader(h), [sample]);
    } else {
      x := XmInstrument(name, 0, ZeroExtHeader(), []);
    }
  }

  /** The converter: the module fields, then one instrument per bank
      instrument, appended in bank order. */
  method Convert(bank: Bank, song: GbaSong) returns (xm: XmModule)
    requires HeadersWellFormed(bank.instruments)
    ensures xm == Converted(bank, song)
  {
    xm := XmModule([], [], song.header.loopPoint, song.header.channelCount, 0,
                   song.header.tickrate, song.header.tempo, song.patternOrder, song.patterns, []);
    var insts := bank.instruments;
    for index := 0 to |insts|
      invariant xm == Converted(bank, song).(instruments := ConvertInstruments(insts[..index]))
    {
      var x := ConvertOne(insts[index], index);
      ConvertInstrumentsSnoc(insts, index);
      xm := xm.(instruments := xm.instruments + [x]);
    }
    assert insts[..|insts|] == insts;
  }

  lemma ConvertInstrumentsSnoc(insts: seq<Instrument>, index: nat)
    requires HeadersWellFormed(insts) && index < |insts|
    ensures ConvertInstruments(insts[..index + 1]) ==
            ConvertInstruments(insts[..index]) + [ConvertInstrument(insts[index], index)]
  {
    var a := ConvertInstruments(insts[..index + 1]);
    var b := ConvertInstruments(insts[..index]) + [ConvertInstrument(insts[index], index)];
    forall i | 0 <= i < index + 1
      ensures a[i] == b[i]
    {
      assert insts[..index + 1][i] == insts[i];
      if i < index {
        assert insts[..index][i] == insts[i];
      }
    }
  }

  /** A converted song, once named, is saved and read back as itself, given
      at most 255 instruments (the bank's count is one byte), an order that
      fits the order table, counts that fit their fields and patterns the
      packer can code. */
  lemma ConvertedRoundTrip(bank: Bank, song: GbaSong, moduleName: seq<byte>, trackerName: seq<byte>)
    requires HeadersWellFormed(bank.instruments) && |bank.instruments| < 0x100
    requires |song.patternOrder| <= OrderTableSize
    requires |moduleName| <= ModuleNameSize && |trackerName| <= TrackerNameSize
    requires var m := Converted(bank, song).(moduleName := moduleName, trackerName := trackerName);
      CountsFit(m) && PatternsReadable(m)
    ensures var m := Converted(bank, song).(moduleName := moduleName, trackerName := trackerName);
      SaveModule(m).Written? && ReadModule(SaveModule(m).bytes) == Ok(NormalModule(m))
  {
    var m := Converted(bank, song).(moduleName := moduleName, trackerName := trackerName);
    forall i | 0 <= i < |m.instruments| ensures InstrumentFits(m.instruments[i]) {
      NamesCarryNumber(i + 1);
    }
    SaveModuleOutcome(m);
    SaveRoundTrip(m);
  }

  // ---- stripping unused samples

  /** Some cell of `cells` plays instrument number `k + 1`. */
  predicate CellsUse(cells: seq<Cell>, k: nat) {
    cells != [] && (CellsUse(cells[..|cells| - 1], k) || cells[|cells| - 1].inst == k + 1)
  }

  predicate RowsUse(rows: seq<Row>, k: nat) {
    rows != [] && (RowsUse(rows[..|rows| - 1], k) || CellsUse(rows[|rows| - 1].cells, k))
  }

  predicate PatternsUse(patterns: seq<Pattern>, k: nat) {
    patterns != [] && (PatternsUse(patterns[..|patterns| - 1], k) || RowsUse(patterns[|patterns| - 1].rows, k))
  }

  lemma {:induction false} CellsUseIff(cells: seq<Cell>, k: nat)
    ensures CellsUse(cells, k) <==> exists c :: 0 <= c < |cells| && cells[c].inst == k + 1
  {
    if cells != [] {
      var n := |cells| - 1;
      CellsUseIff(cells[..n], k);
      if CellsUse(cells[..n], k) {
        var c :| 0 <= c < n && cells[..n][c].inst == k + 1;
        assert cells[c].inst == k + 1;
      }
      if c :| 0 <= c < |cells| && cells[c].inst == k + 1 {
        if c < n {
          assert cells[..n][c].inst == k + 1;
        }
      }
    }
  }

  lemma {:induction false} RowsUseIff(rows: seq<Row>, k: nat)
    ensures RowsUse(rows, k) <==>
      exists r, c :: 0 <= r < |rows| && 0 <= c < |rows[r].cells| && rows[r].cells[c].inst == k + 1
  {
    if rows != [] {
      var n := |rows| - 1;
      RowsUseIff(rows[..n], k);
      CellsUseIff(rows[n].cells, k);
      if RowsUse(rows[..n], k) {
        var r, c :| 0 <= r < n && 0 <= c < |rows[..n][r].cells| && rows[..n][r].cells[c].inst == k + 1;
        assert rows[r].cells[c].inst == k + 1;
      }
      if CellsUse(rows[n].cells, k) {
        var c :| 0 <= c < |rows[n].cells| && rows[n].cells[c].inst == k + 1;
      }
      if r, c :| 0 <= r < |rows| && 0 <= c < |rows[r].cells| && rows[r].cells[c].inst == k + 1 {
        if r < n {
          assert rows[..n][r].cells[c].inst == k + 1;
        }
      }
    }
  }

  /** The recursive reading agrees with the plain one: instrument number
      `k + 1` is used exactly when some cell of some row of some pattern
      names it. */
  lemma {:induction false} PatternsUseIff(patterns: seq<Pattern>, k: nat)
    ensures PatternsUse(patterns, k) <==>
      exists p, r, c :: 0 <= p < |patterns| && 0 <= r < |patterns[p].rows| &&
        0 <= c < |patterns[p].rows[r].cells| && patterns[p].rows[r].cells[c].inst == k + 1
  {
    if patterns != [] {
      var n := |patterns| - 1;
      PatternsUseIff(patterns[..n], k);
      RowsUseIff(patterns[n].rows, k);
      if PatternsUse(patterns[..n], k) {
        var p, r, c :| 0 <= p < n && 0 <= r < |patterns[..n][p].rows| &&
          0 <= c < |patterns[..n][p].rows[r].cells| && patterns[..n][p].rows[r].cells[c].inst == k + 1;
        assert patterns[p].rows[r].cells[c].inst == k + 1;
      }
      if RowsUse(patterns[n].rows, k) {
        var r, c :| 0 <= r < |patterns[n].rows| && 0 <= c < |patterns[n].rows[r].cells| &&
          patterns[n].rows[r].cells[c].inst == k + 1;
      }
      if p, r, c :| (0 <= p < |patterns| && 0 <= r < |patterns[p].rows| &&
                     0 <= c < |patterns[p].rows[r].cells| && patterns[p].rows[r].cells[c].inst == k + 1) {
        if p < n {
          assert patterns[..n][p].rows[r].cells[c].inst == k + 1;
        }
      }
    }
  }

  /** Marks, in the 256 flags, every instrument a cell of `cells` plays. */
  method MarkCells(used: array<bool>, cells: seq<Cell>)
    requires used.Length == 256
    modifies used
    ensures forall k :: 0 <= k < 256 ==> used[k] == (old(used[k]) || CellsUse(cells, k))
  {
    for c := 0 to |cells|
      invariant forall k :: 0 <= k < 256 ==> used[k] == (old(used[k]) || CellsUse(cells[..c], k))
    {
      assert cells[..c + 1][..c] == cells[..c];
      if cells[c].inst != 0 {
        used[cells[c].inst - 1] := true;
      }
    }
    assert cells[..|cells|] == cells;
  }

  method MarkRows(used: array<bool>, rows: seq<Row>)
    requires used.Length == 256
    modifies used
    ensures forall k :: 0 <= k < 256 ==> used[k] == (old(used[k]) || RowsUse(rows, k))
  {
    for r := 0 to |rows|
      invariant forall k :: 0 <= k < 256 ==> used[k] == (old(used[k]) || RowsUse(rows[..r], k))
    {
      assert rows[..r + 1][..r] == rows[..r];
      MarkCells(used, rows[r].cells);
    }
    assert rows[..|rows|] == rows;
  }

  method MarkPatterns(used: array<bool>, patterns: seq<Pattern>)
    requires used.Length == 256
    modifies used
    ensures forall k :: 0 <= k < 256 ==> used[k] == (old(used[k]) || PatternsUse(patterns, k))
  {
    for p := 0 to |patterns|
      invariant forall k :: 0 <= k < 256 ==> used[k] == (old(used[k]) || PatternsUse(patterns[..p], k))
    {
      assert patterns[..p + 1][..p] == patterns[..p];
      MarkRows(used, patterns[p].rows);
    }
    assert patterns[..|patterns|] == patterns;
  }

  /** The table of used instruments: flag `k` is set exactly when some cell
      plays instrument number `k + 1`. */
  method UsedInstruments(patterns: seq<Pattern>) returns (used: array<bool>)
    ensures used.Length == 256
    ensures forall k :: 0 <= k < 256 ==> used[k] == PatternsUse(patterns, k)
  {
    used := new bool[256](_ => false);
    MarkPatterns(used, patterns);
  }

  /** Instrument `i` keeps its samples when some cell plays it and loses
      them otherwise. */
  function StrippedInstruments(insts: seq<XmInstrument>, patterns: seq<Pattern>): (r: seq<XmInstrument>)
    ensures |r| == |insts|
    ensures forall i :: 0 <= i < |insts| ==>
      r[i] == if PatternsUse(patterns, i) then insts[i] else insts[i].(samples := [])
  {
    if insts == [] then []
    else
      var n := |insts| - 1;
      StrippedInstruments(insts[..n], patterns) +
      [if PatternsUse(patterns, n) then insts[n] else insts[n].(samples := [])]
  }

  function Stripped(m: XmModule): XmModule {
    m.(instruments := StrippedInstruments(m.instruments, m.patterns))
  }

  /** The strip pass: the table of used instruments, then every instrument
      it does not flag has its samples cleared. The table has 256 flags, so
      at most 256 instruments can be looked up in it. */
  method StripUnusedSamples(m: XmModule) returns (r: XmModule)
    requires |m.instruments| <= 256
    ensures r == Stripped(m)
  {
    var used := UsedInstruments(m.patterns);
    var insts := m.instruments;
    for i := 0 to |insts|
      invariant |insts| == |m.instruments|
      invariant forall j :: 0 <= j < i ==> insts[j] == Stripped(m).instruments[j]
      invariant forall j :: i <= j < |insts| ==> insts[j] == m.instruments[j]
    {
      if !used[i] {
        insts := insts[i := insts[i].(samples := [])];
      }
    }
    r := m.(instruments := insts);
  }

  /** Stripping changes nothing but samples, and an instrument has samples
      afterwards exactly when it had them and some cell plays it. */
  lemma StrippedSamples(m: XmModule, i: nat)
    requires i < |m.instruments|
    ensures var x := Stripped(m).instruments[i];
      x.name == m.instruments[i].name && x.instrumentType == m.instruments[i].instrumentType &&
      x.extHeader == m.instruments[i].extHeader &&
      (x.samples != [] <==>
         m.instruments[i].samples != [] &&
         exists p, r, c :: 0 <= p < |m.patterns| && 0 <= r < |m.patterns[p].rows| &&
           0 <= c < |m.patterns[p].rows[r].cells| && m.patterns[p].rows[r].cells[c].inst == i + 1) &&
      (x.samples != [] ==> x.samples == m.instruments[i].samples)
    ensures |Stripped(m).instruments| == |m.instruments| && Stripped(m).patterns == m.patterns
  {
    PatternsUseIff(m.patterns, i);
  }

  /** Stripping twice strips no more than stripping once. */
  lemma StripIdempotent(m: XmModule)
    ensures Stripped(Stripped(m)) == Stripped(m)
  {
  }

  lemma StrippedNamesFit(m: XmModule)
    requires NamesFit(m)
    ensures NamesFit(Stripped(m))
  {
    var s := Stripped(m);
    forall i | 0 <= i < |s.instruments| ensures InstrumentFits(s.instruments[i]) {
      assert InstrumentFits(m.instruments[i]);
    }
  }

  lemma StrippedCountsFit(m: XmModule)
    requires CountsFit(m)
    ensures CountsFit(Stripped(m))
  {
    var s := Stripped(m);
    forall i | 0 <= i < |s.instruments| ensures SampleCountsFit(s.instruments[i]) {
      assert SampleCountsFit(m.instruments[i]);
    }
  }

  /** A module that could be saved still can after stripping, and its
      patterns are still ones the packer can code. */
  lemma StrippedStillSaves(m: XmModule)
    requires SaveModule(m).Written?
    ensures SaveModule(Stripped(m)).Written?
    ensures PatternsReadable(m) ==> PatternsReadable(Stripped(m))
  {
    SaveModuleOutcome(m);
    StrippedNamesFit(m);
    StrippedCountsFit(m);
    SaveModuleOutcome(Stripped(m));
  }

  /** After conversion and stripping, instrument `i` has a sample exactly
      when the bank gives it sample data and some cell of the song plays it. */
  lemma ConvertedThenStripped(bank: Bank, song: GbaSong, i: nat)
    requires HeadersWellFormed(bank.instruments) && i < |bank.instruments|
    ensures Stripped(Converted(bank, song)).instruments[i].samples != [] <==>
      |bank.instruments[i].sample| > 0 &&
      exists p, r, c :: 0 <= p < |song.patterns| && 0 <= r < |song.patterns[p].rows| &&
        0 <= c < |song.patterns[p].rows[r].cells| && song.patterns[p].rows[r].cells[c].inst == i + 1
  {
    StrippedSamples(Converted(bank, song), i);
  }
}
