/** The XM writer. It checks the module and tracker names and the order
    table before it writes anything, then writes the header, every
    pattern, and every instrument. The instrument and sample names are
    checked only when that instrument or sample comes up. A name that is
    too long ends the process after part of the file is on disk, so a
    failed save is modelled with the bytes written before it stopped. */
module XmSave {
  import opened Bytes
  import opened Song
  import opened XmRecords
  import opened XmPacking
  import opened XmFile

  /** Why the writer stopped. `CountTooLarge` is raised only by the
      corrected writer `SaveModule`. */
  datatype SaveFailure =
    | ModuleNameTooLong
    | TrackerNameTooLong
    | PatternOrderTooLong
    | InstrumentNameTooLong(instrument: nat)
    | SampleNameTooLong(instrument: nat, sample: nat)
    | CountTooLarge

  /** The whole file, or the failure and what was written before it. */
  datatype SaveResult = Written(bytes: seq<byte>) | Aborted(failure: SaveFailure, written: seq<byte>)

  /** `r` preceded by bytes written earlier. */
  function Prefixed(pre: seq<byte>, r: SaveResult): (r': SaveResult)
    ensures r'.Written? <==> r.Written?
    ensures r.Written? ==> r'.bytes == pre + r.bytes
    ensures r.Aborted? ==> r'.failure == r.failure && r'.written == pre + r.written
  {
    match r
    case Written(bs) => Written(pre + bs)
    case Aborted(f, bs) => Aborted(f, pre + bs)
  }

  /** "Extended Module: ", the 17-byte id text. */
  const IdText: seq<byte> := [0x45, 0x78, 0x74, 0x65, 0x6e, 0x64, 0x65, 0x64, 0x20,
                              0x4d, 0x6f, 0x64, 0x75, 0x6c, 0x65, 0x3a, 0x20]
  const XmVersion := 0x0104
  /** The header size written: the 276 bytes from the size field to the
      end of the order table, so that `60 + 276 = 336`. */
  const XmHeaderSizeField := 276

  /** A name in its fixed field: the name, then zeros up to the capacity.
      (The writer only pads names that fit; a longer one is cut here only
      to keep the function total.) */
  function Padded(name: seq<byte>, size: nat): (bs: seq<byte>)
    ensures |bs| == size
    ensures |name| <= size ==> bs[..|name|] == name && forall i :: |name| <= i < size ==> bs[i] == 0
  {
    if |name| <= size then name + Zeros(size - |name|) else name[..size]
  }

  /** Padding is what the field already holds when it is full. */
  lemma PaddedFull(name: seq<byte>, size: nat)
    requires |name| == size
    ensures Padded(name, size) == name
  {
    assert Zeros(0) == [];
  }

  /** The 256-byte order table: the order, then whatever the uninitialised
      header struct held after it (`fill`). */
  function OrderTable(order: seq<byte>, fill: seq<byte>): (t: seq<byte>)
    requires |order| <= OrderTableSize && |fill| == OrderTableSize
    ensures |t| == OrderTableSize && t[..|order|] == order
    ensures forall i :: |order| <= i < OrderTableSize ==> t[i] == fill[i]
  {
    order + fill[|order|..]
  }

  // ---- the records the writer fills in

  function SavedXmHeader(m: XmModule, orderFill: seq<byte>): (h: XmHeader)
    requires |m.patternOrder| <= OrderTableSize && |orderFill| == OrderTableSize
    ensures XmHeaderWellFormed(h)
  {
    XmHeader(IdText, Padded(m.moduleName, ModuleNameSize), 0x1a, Padded(m.trackerName, TrackerNameSize),
             XmVersion, XmHeaderSizeField, |m.patternOrder|, m.songRestartPos, m.channelCount,
             |m.patterns| % 0x1_0000, |m.instruments| % 0x1_0000,
             m.frequencyTableFlags, m.defaultTickrate, m.defaultTempo, OrderTable(m.patternOrder, orderFill))
  }

  /** The sample header: the length of the data cut to 32 bits, the
      sample's fields, a zero reserved byte and the padded name. */
  function SavedSampleHeader(s: XmSample): (h: SampleHeader)
    ensures SampleHeaderWellFormed(h)
    ensures |s.data| < 0x1_0000_0000 ==> h.sampleLength == |s.data|
    ensures |s.name| <= SampleNameSize ==> h.name[..|s.name|] == s.name && forall i :: |s.name| <= i < SampleNameSize ==> h.name[i] == 0
  {
    SampleHeader(|s.data| % 0x1_0000_0000, s.loopStart, s.loopLength, s.volume, s.finetune, s.typeFlags,
                 s.panning, s.relativeNoteNumber, 0, Padded(s.name, SampleNameSize))
  }

  function SampleRecord(s: XmSample): seq<byte> {
    SampleHeaderBytes(SavedSampleHeader(s))
  }

  function SampleData(s: XmSample): seq<byte> {
    s.data
  }

  /** The instrument header: a header size of 29, plus 214 when the
      extended header follows, the padded name, and the sample count cut
      to 16 bits. */
  function SavedInstrumentHeader(inst: XmInstrument): (h: XmInstrumentHeader)
    ensures XmInstrumentHeaderWellFormed(h)
  {
    XmInstrumentHeader(if |inst.samples| > 0 then 29 + 214 else 29, Padded(inst.name, InstrumentNameSize),
                       inst.instrumentType, |inst.samples| % 0x1_0000)
  }

  /** The instrument header, and the extended header when it has samples. */
  function InstrumentHead(inst: XmInstrument): (bs: seq<byte>)
    ensures |bs| == SavedInstrumentHeader(inst).headerSize
  {
    XmInstrumentHeaderBytes(SavedInstrumentHeader(inst)) +
    (if |inst.samples| > 0 then ExtHeaderBytes(inst.extHeader) else [])
  }

  // ---- the writer

  /** The sample headers of instrument `index`, one after another; the
      first sample whose name does not fit stops the writer. */
  function SaveSampleHeaders(samples: seq<XmSample>, index: nat): SaveResult
  {
    if samples == [] then Written([])
    else
      var n := |samples| - 1;
      match SaveSampleHeaders(samples[..n], index)
      case Aborted(f, w) => Aborted(f, w)
      case Written(w) =>
        if |samples[n].name| > SampleNameSize then Aborted(SampleNameTooLong(index, n), w)
        else Written(w + SampleRecord(samples[n]))
  }

  /** Instrument `index`: its name check, its header (and extended header),
      its sample headers, then all of its sample data. */
  function SaveInstrument(inst: XmInstrument, index: nat): SaveResult {
    if |inst.name| > InstrumentNameSize then Aborted(InstrumentNameTooLong(index), [])
    else
      match SaveSampleHeaders(inst.samples, index)
      case Aborted(f, w) => Aborted(f, InstrumentHead(inst) + w)
      case Written(w) => Written(InstrumentHead(inst) + w + Flatten(SampleData, inst.samples))
  }

  function SaveInstruments(insts: seq<XmInstrument>): SaveResult {
    if insts == [] then Written([])
    else
      var n := |insts| - 1;
      match SaveInstruments(insts[..n])
      case Aborted(f, w) => Aborted(f, w)
      case Written(w) => Prefixed(w, SaveInstrument(insts[n], n))
  }

  /** The writer as the source has it, given what the uninitialised order
      table holds past the order (`orderFill`): the three checks, then the
      header, the patterns and the instruments. */
  function SaveModuleAsWritten(m: XmModule, orderFill: seq<byte>): (r: SaveResult)
    requires |orderFill| == OrderTableSize
    ensures (r.Aborted? && r.written == []) <==>
      (|m.moduleName| > ModuleNameSize || |m.trackerName| > TrackerNameSize || |m.patternOrder| > OrderTableSize)
    ensures |m.moduleName| <= ModuleNameSize && |m.trackerName| <= TrackerNameSize && |m.patternOrder| <= OrderTableSize ==>
      var front := XmHeaderBytes(SavedXmHeader(m, orderFill)) + Flatten(PatternBytes, m.patterns);
      (r.Written? ==> front <= r.bytes) && (r.Aborted? ==> front <= r.written)
  {
    if |m.moduleName| > ModuleNameSize then Aborted(ModuleNameTooLong, [])
    else if |m.trackerName| > TrackerNameSize then Aborted(TrackerNameTooLong, [])
    else if |m.patternOrder| > OrderTableSize then Aborted(PatternOrderTooLong, [])
    else
      Prefixed(XmHeaderBytes(SavedXmHeader(m, orderFill)) + Flatten(PatternBytes, m.patterns),
               SaveInstruments(m.instruments))
  }

  // ---- what the writer writes, and where it stops

  predicate SampleNamesFit(samples: seq<XmSample>) {
    forall j :: 0 <= j < |samples| ==> |samples[j].name| <= SampleNameSize
  }

  predicate InstrumentFits(inst: XmInstrument) {
    |inst.name| <= InstrumentNameSize && SampleNamesFit(inst.samples)
  }

  predicate InstrumentsFit(insts: seq<XmInstrument>) {
    forall i :: 0 <= i < |insts| ==> InstrumentFits(insts[i])
  }

  /** Every name and the order table fit their fields. */
  predicate NamesFit(m: XmModule) {
    |m.moduleName| <= ModuleNameSize && |m.trackerName| <= TrackerNameSize &&
    |m.patternOrder| <= OrderTableSize && InstrumentsFit(m.instruments)
  }

  /** A written instrument: header, extended header when it has samples,
      every sample header, then every sample's data. */
  function InstrumentBytes(inst: XmInstrument): seq<byte> {
    InstrumentHead(inst) + Flatten(SampleRecord, inst.samples) + Flatten(SampleData, inst.samples)
  }

  /** A written module: header, patterns, instruments. */
  function ModuleBytes(m: XmModule, orderFill: seq<byte>): seq<byte>
    requires |m.patternOrder| <= OrderTableSize && |orderFill| == OrderTableSize
  {
    XmHeaderBytes(SavedXmHeader(m, orderFill)) + Flatten(PatternBytes, m.patterns) + Flatten(InstrumentBytes, m.instruments)
  }

  /** Sample `failure.sample` is the first whose name is too long, and
      the headers of the samples before it were written. */
  predicate FirstLongSample(samples: seq<XmSample>, index: nat, failure: SaveFailure, written: seq<byte>) {
    failure.SampleNameTooLong? && failure.instrument == index && failure.sample < |samples| &&
    |samples[failure.sample].name| > SampleNameSize && SampleNamesFit(samples[..failure.sample]) &&
    written == Flatten(SampleRecord, samples[..failure.sample])
  }

  /** How instrument `index` stops the writer: its own name, written
      nothing; or its first long sample name, after its header and the
      sample headers before that sample. */
  predicate InstrumentFailure(inst: XmInstrument, index: nat, failure: SaveFailure, written: seq<byte>) {
    if |inst.name| > InstrumentNameSize then failure == InstrumentNameTooLong(index) && written == []
    else
      |InstrumentHead(inst)| <= |written| && written[..|InstrumentHead(inst)|] == InstrumentHead(inst) &&
      FirstLongSample(inst.samples, index, failure, written[|InstrumentHead(inst)|..])
  }

  /** The instrument named by the failure is the first that does not fit,
      and every instrument before it was written whole. */
  predicate InstrumentsFailure(insts: seq<XmInstrument>, failure: SaveFailure, written: seq<byte>) {
    (failure.InstrumentNameTooLong? || failure.SampleNameTooLong?) &&
    var i := failure.instrument;
    i < |insts| && InstrumentsFit(insts[..i]) &&
    var pre := Flatten(InstrumentBytes, insts[..i]);
    |pre| <= |written| && written[..|pre|] == pre && InstrumentFailure(insts[i], i, failure, written[|pre|..])
  }

  lemma {:induction false} SampleHeadersOutcome(samples: seq<XmSample>, index: nat)
    ensures var r := SaveSampleHeaders(samples, index);
      (r.Written? <==> SampleNamesFit(samples)) &&
      (r.Written? ==> r.bytes == Flatten(SampleRecord, samples)) &&
      (r.Aborted? ==> FirstLongSample(samples, index, r.failure, r.written))
  {
    if samples != [] {
      var n := |samples| - 1;
      SampleHeadersOutcome(samples[..n], index);
      assert forall j :: 0 <= j < n ==> samples[..n][j] == samples[j];
      var r := SaveSampleHeaders(samples[..n], index);
      if r.Aborted? {
        var j := r.failure.sample;
        assert samples[..n][..j] == samples[..j];
      }
    }
  }

  /** An instrument is written whole exactly when its names fit. */
  lemma InstrumentWritten(inst: XmInstrument, index: nat)
    ensures var r := SaveInstrument(inst, index);
      (r.Written? <==> InstrumentFits(inst)) && (r.Written? ==> r.bytes == InstrumentBytes(inst))
  {
    SampleHeadersOutcome(inst.samples, index);
  }

  /** Otherwise it stops at its first long name. */
  lemma InstrumentAborted(inst: XmInstrument, index: nat)
    ensures var r := SaveInstrument(inst, index); r.Aborted? ==> InstrumentFailure(inst, index, r.failure, r.written)
  {
    SampleHeadersOutcome(inst.samples, index);
    var r := SaveSampleHeaders(inst.samples, index);
    if r.Aborted? {
      var head := InstrumentHead(inst);
      assert (head + r.written)[..|head|] == head && (head + r.written)[|head|..] == r.written;
    }
  }

  /** The instruments are written whole exactly when every one fits. */
  lemma {:induction false} InstrumentsWritten(insts: seq<XmInstrument>)
    ensures var r := SaveInstruments(insts);
      (r.Written? <==> InstrumentsFit(insts)) && (r.Written? ==> r.bytes == Flatten(InstrumentBytes, insts))
  {
    if insts != [] {
      var n := |insts| - 1;
      InstrumentsWritten(insts[..n]);
      InstrumentWritten(insts[n], n);
      InstrumentsFitSnoc(insts);
      var r := SaveInstruments(insts[..n]);
      assert SaveInstruments(insts) == if r.Aborted? then r else Prefixed(r.bytes, SaveInstrument(insts[n], n));
    }
  }

  lemma InstrumentsFitSnoc(insts: seq<XmInstrument>)
    requires insts != []
    ensures InstrumentsFit(insts) <==> InstrumentsFit(insts[..|insts| - 1]) && InstrumentFits(insts[|insts| - 1])
  {
    var n := |insts| - 1;
    assert forall i :: 0 <= i < n ==> insts[..n][i] == insts[i];
  }

  /** Otherwise they stop at the first instrument that does not fit. */
  lemma {:induction false} InstrumentsAborted(insts: seq<XmInstrument>)
    ensures var r := SaveInstruments(insts); r.Aborted? ==> InstrumentsFailure(insts, r.failure, r.written)
  {
    if insts != [] {
      var n := |insts| - 1;
      var r := SaveInstruments(insts[..n]);
      if r.Aborted? {
        InstrumentsAborted(insts[..n]);
        EarlierInstrumentFails(insts, r.failure, r.written);
      } else {
        InstrumentsWritten(insts[..n]);
        InstrumentAborted(insts[n], n);
        var last := SaveInstrument(insts[n], n);
        if last.Aborted? {
          LastInstrumentFails(insts, last.failure, r.bytes, last.written);
        }
      }
    }
  }

  lemma EarlierInstrumentFails(insts: seq<XmInstrument>, failure: SaveFailure, written: seq<byte>)
    requires insts != [] && InstrumentsFailure(insts[..|insts| - 1], failure, written)
    ensures InstrumentsFailure(insts, failure, written)
  {
    var n := |insts| - 1;
    var i := failure.instrument;
    assert insts[..n][..i] == insts[..i];
    assert insts[..n][i] == insts[i];
  }

  lemma LastInstrumentFails(insts: seq<XmInstrument>, failure: SaveFailure, pre: seq<byte>, last: seq<byte>)
    requires insts != [] && InstrumentsFit(insts[..|insts| - 1])
    requires pre == Flatten(InstrumentBytes, insts[..|insts| - 1])
    requires InstrumentFailure(insts[|insts| - 1], |insts| - 1, failure, last)
    ensures InstrumentsFailure(insts, failure, pre + last)
  {
    var w := pre + last;
    assert w[..|pre|] == pre && w[|pre|..] == last;
  }

  /** The module's own checks come first and write nothing; after them
      the header and the patterns, and the first instrument that does
      not fit stops the rest. */
  predicate ModuleFailure(m: XmModule, orderFill: seq<byte>, failure: SaveFailure, written: seq<byte>)
    requires |orderFill| == OrderTableSize
  {
    match failure
    case ModuleNameTooLong => |m.moduleName| > ModuleNameSize && written == []
    case TrackerNameTooLong =>
      |m.moduleName| <= ModuleNameSize && |m.trackerName| > TrackerNameSize && written == []
    case PatternOrderTooLong =>
      |m.moduleName| <= ModuleNameSize && |m.trackerName| <= TrackerNameSize &&
      |m.patternOrder| > OrderTableSize && written == []
    case CountTooLarge => false
    case _ =>
      |m.moduleName| <= ModuleNameSize && |m.trackerName| <= TrackerNameSize && |m.patternOrder| <= OrderTableSize &&
      var pre := XmHeaderBytes(SavedXmHeader(m, orderFill)) + Flatten(PatternBytes, m.patterns);
      |pre| <= |written| && written[..|pre|] == pre && InstrumentsFailure(m.instruments, failure, written[|pre|..])
  }

  /** The writer writes the whole module exactly when every name and the
      order table fit; otherwise it stops at the first check that fails,
      with what it had written by then. */
  lemma SaveOutcome(m: XmModule, orderFill: seq<byte>)
    requires |orderFill| == OrderTableSize
    ensures var r := SaveModuleAsWritten(m, orderFill);
      (r.Written? <==> NamesFit(m)) &&
      (r.Written? ==> r.bytes == ModuleBytes(m, orderFill)) &&
      (r.Aborted? ==> ModuleFailure(m, orderFill, r.failure, r.written))
  {
    InstrumentsWritten(m.instruments);
    InstrumentsAborted(m.instruments);
    if NamesFit(m) || (|m.moduleName| <= ModuleNameSize && |m.trackerName| <= TrackerNameSize &&
                       |m.patternOrder| <= OrderTableSize) {
      var pre := XmHeaderBytes(SavedXmHeader(m, orderFill)) + Flatten(PatternBytes, m.patterns);
      var r := SaveInstruments(m.instruments);
      if r.Aborted? {
        assert (pre + r.written)[..|pre|] == pre && (pre + r.written)[|pre|..] == r.written;
      }
    }
  }

  // ---- the writer's loops

  /** A long sample name among the first `k + 1` samples stops the whole
      run the same way. */
  lemma {:induction false} SampleHeadersStop(samples: seq<XmSample>, index: nat, k: nat)
    requires k < |samples| && SaveSampleHeaders(samples[..k + 1], index).Aborted?
    ensures SaveSampleHeaders(samples, index) == SaveSampleHeaders(samples[..k + 1], index)
    decreases |samples|
  {
    if k + 1 < |samples| {
      var n := |samples| - 1;
      assert samples[..n][..k + 1] == samples[..k + 1];
      SampleHeadersStop(samples[..n], index, k);
    } else {
      assert samples[..k + 1] == samples;
    }
  }

  /** An instrument among the first `k + 1` that stops the writer stops
      the whole run the same way. */
  lemma {:induction false} InstrumentsStop(insts: seq<XmInstrument>, k: nat)
    requires k < |insts| && SaveInstruments(insts[..k + 1]).Aborted?
    ensures SaveInstruments(insts) == SaveInstruments(insts[..k + 1])
    decreases |insts|
  {
    if k + 1 < |insts| {
      var n := |insts| - 1;
      assert insts[..n][..k + 1] == insts[..k + 1];
      InstrumentsStop(insts[..n], k);
    } else {
      assert insts[..k + 1] == insts;
    }
  }

  /** The loop over an instrument's sample headers, with their name
      checks. */
  method WriteSampleHeaders(samples: seq<XmSample>, index: nat) returns (r: SaveResult)
    ensures r == SaveSampleHeaders(samples, index)
  {
    var out := [];
    for j := 0 to |samples|
      invariant SaveSampleHeaders(samples[..j], index) == Written(out)
    {
      assert samples[..j + 1][..j] == samples[..j];
      var sample := samples[j];
      if |sample.name| > SampleNameSize {
        SampleHeadersStop(samples, index, j);
        return Aborted(SampleNameTooLong(index, j), out);
      }
      out := out + SampleHeaderBytes(SavedSampleHeader(sample));
    }
    assert samples[..|samples|] == samples;
    return Written(out);
  }

  /** The loop over an instrument's sample data. */
  method WriteSampleData(samples: seq<XmSample>) returns (out: seq<byte>)
    ensures out == Flatten(SampleData, samples)
  {
    out := [];
    for j := 0 to |samples|
      invariant out == Flatten(SampleData, samples[..j])
    {
      FlattenSnoc(SampleData, samples[..j], samples[j]);
      assert samples[..j + 1] == samples[..j] + [samples[j]];
      out := out + samples[j].data;
    }
    assert samples[..|samples|] == samples;
  }

  /** One instrument: its name check, its header and extended header, its
      sample headers, then its sample data. */
  method WriteInstrument(inst: XmInstrument, index: nat) returns (r: SaveResult)
    ensures r == SaveInstrument(inst, index)
  {
    if |inst.name| > InstrumentNameSize {
      return Aborted(InstrumentNameTooLong(index), []);
    }
    var head := XmInstrumentHeaderBytes(SavedInstrumentHeader(inst));
    if |inst.samples| > 0 {
      head := head + ExtHeaderBytes(inst.extHeader);
    }
    var headers := WriteSampleHeaders(inst.samples, index);
    if headers.Aborted? {
      return Aborted(headers.failure, head + headers.written);
    }
    var data := WriteSampleData(inst.samples);
    return Written(head + headers.bytes + data);
  }

  /** The loop over patterns: each packed and written after its header. */
  method WritePatterns(patterns: seq<Pattern>) returns (out: seq<byte>)
    ensures out == Flatten(PatternBytes, patterns)
  {
    out := [];
    for k := 0 to |patterns|
      invariant out == Flatten(PatternBytes, patterns[..k])
    {
      var bs := EncodePattern(patterns[k]);
      FlattenSnoc(PatternBytes, patterns[..k], patterns[k]);
      assert patterns[..k + 1] == patterns[..k] + [patterns[k]];
      out := out + bs;
    }
    assert patterns[..|patterns|] == patterns;
  }

  /** The loop over instruments; the first that stops the writer ends it. */
  method WriteInstruments(insts: seq<XmInstrument>) returns (r: SaveResult)
    ensures r == SaveInstruments(insts)
  {
    var out := [];
    for i := 0 to |insts|
      invariant SaveInstruments(insts[..i]) == Written(out)
    {
      assert insts[..i + 1][..i] == insts[..i];
      var bs := WriteInstrument(insts[i], i);
      if bs.Aborted? {
        InstrumentsStop(insts, i);
        return Aborted(bs.failure, out + bs.written);
      }
      out := out + bs.bytes;
    }
    assert insts[..|insts|] == insts;
    return Written(out);
  }

  /** The writer: the three checks, the header, the patterns, the
      instruments. */
  method Save(m: XmModule, orderFill: seq<byte>) returns (r: SaveResult)
    requires |orderFill| == OrderTableSize
    ensures r == SaveModuleAsWritten(m, orderFill)
  {
    if |m.moduleName| > ModuleNameSize {
      return Aborted(ModuleNameTooLong, []);
    }
    if |m.trackerName| > TrackerNameSize {
      return Aborted(TrackerNameTooLong, []);
    }
    if |m.patternOrder| > OrderTableSize {
      return Aborted(PatternOrderTooLong, []);
    }
    var header := XmHeaderBytes(SavedXmHeader(m, orderFill));
    var patterns := WritePatterns(m.patterns);
    var instruments := WriteInstruments(m.instruments);
    return Prefixed(header + patterns, instruments);
  }

  // ---- counts that fit their fields, and the corrected writer

  /** A pattern's row count and packed size fit the 16-bit fields of its
      header. */
  predicate PatternFits(pattern: Pattern) {
    |pattern.rows| < 0x1_0000 && |PackRows(pattern.rows)| < 0x1_0000
  }

  /** An instrument's sample count fits 16 bits and each sample length 32. */
  predicate SampleCountsFit(inst: XmInstrument) {
    |inst.samples| < 0x1_0000 && forall j :: 0 <= j < |inst.samples| ==> |inst.samples[j].data| < 0x1_0000_0000
  }

  /** Every count the writer stores fits the field it is stored in. */
  predicate CountsFit(m: XmModule) {
    |m.patterns| < 0x1_0000 && |m.instruments| < 0x1_0000 &&
    (forall k :: 0 <= k < |m.patterns| ==> PatternFits(m.patterns[k])) &&
    (forall i :: 0 <= i < |m.instruments| ==> SampleCountsFit(m.instruments[i]))
  }

  /** The writer as intended: a module with a count its field cannot hold
      is refused before anything is written, instead of being written with
      that count cut to the field's width, and the order table is padded
      with zeros. */
  function SaveModule(m: XmModule): (r: SaveResult)
    ensures !CountsFit(m) ==> r.Aborted? && r.failure == CountTooLarge && r.written == []
    ensures r.Written? ==> CountsFit(m)
  {
    if !CountsFit(m) then Aborted(CountTooLarge, [])
    else SaveModuleAsWritten(m, Zeros(OrderTableSize))
  }

  /** The order table sits at bytes 80 to 336 of the header. */
  lemma OrderTableBytes(h: XmHeader)
    requires XmHeaderWellFormed(h)
    ensures XmHeaderBytes(h)[80..336] == h.patternOrderTable
  {
    XmHeaderRoundTrip(h);
  }

  /** Order-table byte `i` of a written module. */
  lemma OrderByteWritten(m: XmModule, orderFill: seq<byte>, i: nat)
    requires NamesFit(m) && |orderFill| == OrderTableSize && i < OrderTableSize
    ensures SaveModuleAsWritten(m, orderFill).Written?
    ensures SaveModuleAsWritten(m, orderFill).bytes[80 + i] == OrderTable(m.patternOrder, orderFill)[i]
  {
    SaveOutcome(m, orderFill);
    var h := SavedXmHeader(m, orderFill);
    OrderTableBytes(h);
    assert XmHeaderBytes(h)[80 + i] == XmHeaderBytes(h)[80..336][i];
  }

  /** As written, the bytes of the order table past the song's order are
      whatever memory the header struct was given: two saves of the same
      module can differ there. */
  lemma OrderTailUndefined(m: XmModule, fill1: seq<byte>, fill2: seq<byte>)
    requires NamesFit(m) && |m.patternOrder| < OrderTableSize
    requires |fill1| == OrderTableSize && |fill2| == OrderTableSize
    requires fill1[|m.patternOrder|] != fill2[|m.patternOrder|]
    ensures SaveModuleAsWritten(m, fill1).Written? && SaveModuleAsWritten(m, fill2).Written?
    ensures SaveModuleAsWritten(m, fill1).bytes != SaveModuleAsWritten(m, fill2).bytes
  {
    OrderByteWritten(m, fill1, |m.patternOrder|);
    OrderByteWritten(m, fill2, |m.patternOrder|);
  }

  /** The corrected writer pads the order table with zeros. */
  lemma OrderTailZero(m: XmModule, i: nat)
    requires SaveModule(m).Written? && |m.patternOrder| <= i < OrderTableSize
    ensures SaveModule(m).bytes[80 + i] == 0
  {
    SaveOutcome(m, Zeros(OrderTableSize));
    OrderByteWritten(m, Zeros(OrderTableSize), i);
  }

  /** The corrected writer refuses exactly the modules whose counts do not
      fit, and otherwise writes what the source writes. */
  lemma SaveModuleOutcome(m: XmModule)
    ensures SaveModule(m).Written? <==> CountsFit(m) && NamesFit(m)
    ensures SaveModule(m).Written? ==> SaveModule(m).bytes == ModuleBytes(m, Zeros(OrderTableSize))
  {
    SaveOutcome(m, Zeros(OrderTableSize));
  }
}
