/** The reader undoes the writer: a module whose names and counts fit
    their fields, and whose patterns are rows of `channelCount` cells that
    the packer can encode, is read back from the bytes the writer puts
    out, with its names padded to their fields and, for an instrument
    without samples, the extended header the reader leaves at zero. */
module XmRoundTrip {
  import opened Bytes
  import opened Song
  import opened XmRecords
  import opened XmPacking
  import opened XmFile
  import opened XmSave

  // ---- what comes back

  function NormalSample(s: XmSample): XmSample {
    s.(name := Padded(s.name, SampleNameSize))
  }

  function NormalSamples(samples: seq<XmSample>): (r: seq<XmSample>)
    ensures |r| == |samples| && forall j :: 0 <= j < |samples| ==> r[j] == NormalSample(samples[j])
  {
    if samples == [] then [] else NormalSamples(samples[..|samples| - 1]) + [NormalSample(samples[|samples| - 1])]
  }

  /** An instrument as it reads back: padded names, and a zero extended
      header when none was written. */
  function NormalInstrument(inst: XmInstrument): XmInstrument {
    XmInstrument(Padded(inst.name, InstrumentNameSize), inst.instrumentType,
                 if |inst.samples| > 0 then inst.extHeader else ZeroExtHeader(),
                 NormalSamples(inst.samples))
  }

  function NormalInstruments(insts: seq<XmInstrument>): (r: seq<XmInstrument>)
    ensures |r| == |insts| && forall i :: 0 <= i < |insts| ==> r[i] == NormalInstrument(insts[i])
  {
    if insts == [] then [] else NormalInstruments(insts[..|insts| - 1]) + [NormalInstrument(insts[|insts| - 1])]
  }

  /** A module as it reads back. */
  function NormalModule(m: XmModule): XmModule {
    m.(moduleName := Padded(m.moduleName, ModuleNameSize),
       trackerName := Padded(m.trackerName, TrackerNameSize),
       instruments := NormalInstruments(m.instruments))
  }

  /** Every pattern has rows of `channelCount` cells that the packer can
      encode. The writer does not check this. */
  predicate PatternsReadable(m: XmModule) {
    forall k :: 0 <= k < |m.patterns| ==>
      HasWidth(m.patterns[k], m.channelCount) && RowsPackable(m.patterns[k].rows)
  }

  // ---- samples

  function SavedSampleHeaders(samples: seq<XmSample>): (hs: seq<SampleHeader>)
    ensures |hs| == |samples| && forall j :: 0 <= j < |samples| ==> hs[j] == SavedSampleHeader(samples[j])
  {
    if samples == [] then [] else SavedSampleHeaders(samples[..|samples| - 1]) + [SavedSampleHeader(samples[|samples| - 1])]
  }

  function DataOf(samples: seq<XmSample>): (ds: seq<seq<byte>>)
    ensures |ds| == |samples| && forall j :: 0 <= j < |samples| ==> ds[j] == samples[j].data
  {
    if samples == [] then [] else DataOf(samples[..|samples| - 1]) + [samples[|samples| - 1].data]
  }

  /** A written sample header reads back as the header the writer filled in. */
  lemma SampleRecordReadsBack(data: seq<byte>, p: nat, s: XmSample)
    ensures ReadsBackAs(SampleHeaderStep(data), SampleRecord, data, p, s, SavedSampleHeader(s))
  {
    ReadSampleHeaderIff(data, p, SavedSampleHeader(s));
  }

  /** The sample headers of an instrument read back one after another. */
  lemma SampleHeadersBack(data: seq<byte>, q: nat, samples: seq<XmSample>)
    requires At(data, q, Flatten(SampleRecord, samples))
    ensures var r := Repeat(SampleHeaderStep(data), q, |samples|);
      r.Ok? && r.value.0 == SavedSampleHeaders(samples) && r.value.1 == q + |Flatten(SampleRecord, samples)|
  {
    var views := SavedSampleHeaders(samples);
    forall p: nat, j | 0 <= j < |samples|
      ensures ReadsBackAs(SampleHeaderStep(data), SampleRecord, data, p, samples[j], views[j])
    {
      SampleRecordReadsBack(data, p, samples[j]);
    }
    RepeatReadsBackAs(SampleHeaderStep(data), SampleRecord, data, q, samples, views);
  }

  /** One more body read after the ones before it. */
  lemma SampleBodiesSnoc(data: seq<byte>, headers: seq<SampleHeader>, pos: nat, bodies: seq<seq<byte>>, p: nat,
                         body: seq<byte>)
    requires headers != []
    requires var r := SampleBodies(data, headers[..|headers| - 1], pos); r.Ok? && r.value.0 == bodies && r.value.1 == p
    requires ReadBytes(data, p, headers[|headers| - 1].sampleLength) == Ok(body)
    ensures var r := SampleBodies(data, headers, pos);
      r.Ok? && r.value.0 == bodies + [body] && r.value.1 == p + |body|
  {
  }

  lemma SavedSamplesSnoc(samples: seq<XmSample>)
    requires samples != []
    ensures var n := |samples| - 1;
      SavedSampleHeaders(samples)[..n] == SavedSampleHeaders(samples[..n]) &&
      DataOf(samples) == DataOf(samples[..n]) + [samples[n].data] &&
      Flatten(SampleData, samples) == Flatten(SampleData, samples[..n]) + samples[n].data
  {
    var n := |samples| - 1;
    assert DataOf(samples) == DataOf(samples[..n]) + [samples[n].data];
  }

  lemma LastBodyBack(data: seq<byte>, p: nat, s: XmSample)
    requires |s.data| < 0x1_0000_0000 && At(data, p, s.data)
    ensures ReadBytes(data, p, SavedSampleHeader(s).sampleLength) == Ok(s.data)
  {
  }

  /** The sample bodies, each as long as its header says, read back as the
      samples' data when every length fits 32 bits. */
  lemma {:induction false} SampleBodiesBack(data: seq<byte>, q: nat, samples: seq<XmSample>)
    requires forall j :: 0 <= j < |samples| ==> |samples[j].data| < 0x1_0000_0000
    requires At(data, q, Flatten(SampleData, samples))
    ensures var r := SampleBodies(data, SavedSampleHeaders(samples), q);
      r.Ok? && r.value.0 == DataOf(samples) && r.value.1 == q + |Flatten(SampleData, samples)|
  {
    if samples != [] {
      var n := |samples| - 1;
      var front, last := samples[..n], samples[n];
      SavedSamplesSnoc(samples);
      var q' := q + |Flatten(SampleData, front)|;
      AtConcat(data, q, Flatten(SampleData, front), last.data);
      SampleBodiesBack(data, q, front);
      LastBodyBack(data, q', last);
      SampleBodiesSnoc(data, SavedSampleHeaders(samples), q, DataOf(front), q', last.data);
    }
  }

  /** Pairing the saved headers with the data gives the samples back with
      padded names. */
  lemma SamplesOfSaved(samples: seq<XmSample>)
    requires forall j :: 0 <= j < |samples| ==> |samples[j].data| < 0x1_0000_0000
    ensures SamplesOf(SavedSampleHeaders(samples), DataOf(samples)) == NormalSamples(samples)
  {
  }

  // ---- instruments

  lemma InstrumentHeaderBack(data: seq<byte>, p: nat, inst: XmInstrument)
    requires At(data, p, InstrumentHead(inst))
    ensures ReadXmInstrumentHeader(data, p) == Ok(SavedInstrumentHeader(inst))
  {
    var ih := SavedInstrumentHeader(inst);
    var ext := if |inst.samples| > 0 then ExtHeaderBytes(inst.extHeader) else [];
    AtConcat(data, p, XmInstrumentHeaderBytes(ih), ext);
    ReadXmInstrumentHeaderIff(data, p, ih);
  }

  /** An instrument with samples has its extended header right after its
      header. */
  lemma ExtHeaderBack(data: seq<byte>, p: nat, inst: XmInstrument)
    requires |inst.samples| > 0 && At(data, p, InstrumentHead(inst))
    ensures var e := ExtHeaderAt(data, p + 29, |inst.samples|); e.Ok? && e.value == inst.extHeader
  {
    AtConcat(data, p, XmInstrumentHeaderBytes(SavedInstrumentHeader(inst)), ExtHeaderBytes(inst.extHeader));
    ReadExtHeaderIff(data, p + 29, inst.extHeader);
  }

  lemma SavedSampleCount(inst: XmInstrument)
    requires |inst.samples| < 0x1_0000
    ensures SavedInstrumentHeader(inst).sampleCount == |inst.samples|
  {
  }

  /** The head of a written instrument gives its instrument header and
      its extended header, or zeros when it has no samples. */
  lemma HeadStage(data: seq<byte>, p: nat, inst: XmInstrument)
    requires |inst.samples| < 0x1_0000
    requires At(data, p, InstrumentHead(inst))
    ensures var ih := SavedInstrumentHeader(inst);
      ReadXmInstrumentHeader(data, p) == Ok(ih) &&
      var e := ExtHeaderAt(data, p + 29, ih.sampleCount); e.Ok? && e.value == NormalInstrument(inst).extHeader
  {
    InstrumentHeaderBack(data, p, inst);
    SavedSampleCount(inst);
    if |inst.samples| > 0 {
      ExtHeaderBack(data, p, inst);
    }
  }

  /** The instrument read at `p`, from the results of its four stages. */
  lemma XmInstrumentAtParts(data: seq<byte>, p: nat, ih: XmInstrumentHeader, ext: FixedExtHeader,
                            headers: seq<SampleHeader>, hend: nat, bodies: seq<seq<byte>>, end: nat)
    requires ReadXmInstrumentHeader(data, p) == Ok(ih)
    requires var e := ExtHeaderAt(data, p + 29, ih.sampleCount); e.Ok? && e.value == ext
    requires var r := Repeat(SampleHeaderStep(data), SampleHeadersPos(p, ih), ih.sampleCount);
      r.Ok? && r.value.0 == headers && r.value.1 == hend
    requires var r := SampleBodies(data, headers, hend); r.Ok? && r.value.0 == bodies && r.value.1 == end
    ensures |bodies| == |headers|
    ensures var r := XmInstrumentAt(data, p);
      r.Ok? && r.value.0 == XmInstrument(ih.name, ih.instrumentType, ext, SamplesOf(headers, bodies)) &&
      r.value.1 == end
  {
  }

  /** Where the parts of a written instrument lie: its head, its sample
      headers, then its sample data. */
  lemma InstrumentLayout(data: seq<byte>, p: nat, inst: XmInstrument) returns (q: nat, hend: nat)
    requires At(data, p, InstrumentBytes(inst))
    ensures q == p + |InstrumentHead(inst)| && hend == q + |Flatten(SampleRecord, inst.samples)|
    ensures At(data, p, InstrumentHead(inst))
    ensures At(data, q, Flatten(SampleRecord, inst.samples))
    ensures At(data, hend, Flatten(SampleData, inst.samples))
    ensures hend + |Flatten(SampleData, inst.samples)| == p + |InstrumentBytes(inst)|
  {
    AtConcat3(data, p, InstrumentHead(inst), Flatten(SampleRecord, inst.samples), Flatten(SampleData, inst.samples));
    q := p + |InstrumentHead(inst)|;
    hend := q + |Flatten(SampleRecord, inst.samples)|;
  }

  /** The sample headers stage of a written instrument. */
  lemma HeadersStage(data: seq<byte>, p: nat, q: nat, inst: XmInstrument)
    requires |inst.samples| < 0x1_0000 && q == p + |InstrumentHead(inst)|
    requires At(data, q, Flatten(SampleRecord, inst.samples))
    ensures var ih := SavedInstrumentHeader(inst);
      var r := Repeat(SampleHeaderStep(data), SampleHeadersPos(p, ih), ih.sampleCount);
      r.Ok? && r.value.0 == SavedSampleHeaders(inst.samples) && r.value.1 == q + |Flatten(SampleRecord, inst.samples)|
  {
    var ih := SavedInstrumentHeader(inst);
    SavedSampleCount(inst);
    assert SampleHeadersPos(p, ih) == q;
    SampleHeadersBack(data, q, inst.samples);
  }

  /** The sample bodies stage of a written instrument. */
  lemma BodiesStage(data: seq<byte>, q: nat, inst: XmInstrument)
    requires SampleCountsFit(inst)
    requires At(data, q, Flatten(SampleData, inst.samples))
    ensures var r := SampleBodies(data, SavedSampleHeaders(inst.samples), q);
      r.Ok? && r.value.0 == DataOf(inst.samples) && r.value.1 == q + |Flatten(SampleData, inst.samples)|
  {
    SampleBodiesBack(data, q, inst.samples);
  }

  /** The instrument built from the saved headers and the data is the
      instrument in its normal form. */
  lemma InstrumentOfSaved(inst: XmInstrument)
    requires SampleCountsFit(inst)
    ensures XmInstrument(SavedInstrumentHeader(inst).name, SavedInstrumentHeader(inst).instrumentType,
                         NormalInstrument(inst).extHeader,
                         SamplesOf(SavedSampleHeaders(inst.samples), DataOf(inst.samples))) == NormalInstrument(inst)
  {
    SamplesOfSaved(inst.samples);
  }

  /** A written instrument whose names and counts fit is read back whole,
      to the end of its last sample body. */
  lemma InstrumentRoundTrip(data: seq<byte>, p: nat, inst: XmInstrument)
    requires InstrumentFits(inst) && SampleCountsFit(inst)
    requires At(data, p, InstrumentBytes(inst))
    ensures var r := XmInstrumentAt(data, p);
      r.Ok? && r.value.0 == NormalInstrument(inst) && r.value.1 == p + |InstrumentBytes(inst)|
  {
    var q, hend := InstrumentLayout(data, p, inst);
    HeadStage(data, p, inst);
    HeadersStage(data, p, q, inst);
    BodiesStage(data, hend, inst);
    XmInstrumentAtParts(data, p, SavedInstrumentHeader(inst), NormalInstrument(inst).extHeader,
                        SavedSampleHeaders(inst.samples), hend, DataOf(inst.samples),
                        p + |InstrumentBytes(inst)|);
    InstrumentOfSaved(inst);
  }

  /** The instruments read back one after another. */
  lemma InstrumentsBack(data: seq<byte>, q: nat, insts: seq<XmInstrument>)
    requires InstrumentsFit(insts) && forall i :: 0 <= i < |insts| ==> SampleCountsFit(insts[i])
    requires At(data, q, Flatten(InstrumentBytes, insts))
    ensures var r := Repeat(XmInstrumentStep(data), q, |insts|);
      r.Ok? && r.value.0 == NormalInstruments(insts) && r.value.1 == q + |Flatten(InstrumentBytes, insts)|
  {
    var views := NormalInstruments(insts);
    forall p: nat, i | 0 <= i < |insts|
      ensures ReadsBackAs(XmInstrumentStep(data), InstrumentBytes, data, p, insts[i], views[i])
    {
      if At(data, p, InstrumentBytes(insts[i])) {
        InstrumentRoundTrip(data, p, insts[i]);
      }
    }
    RepeatReadsBackAs(XmInstrumentStep(data), InstrumentBytes, data, q, insts, views);
  }

  // ---- the module

  /** The patterns read back one after another. */
  lemma PatternsBack(data: seq<byte>, channelCount: nat, q: nat, patterns: seq<Pattern>)
    requires forall k :: 0 <= k < |patterns| ==> PatternEncodable(patterns[k], channelCount)
    requires At(data, q, Flatten(PatternBytes, patterns))
    ensures var r := Repeat(PatternStep(data, channelCount), q, |patterns|);
      r.Ok? && r.value.0 == patterns && r.value.1 == q + |Flatten(PatternBytes, patterns)|
  {
    forall p: nat, k | 0 <= k < |patterns|
      ensures ReadsBack(PatternStep(data, channelCount), PatternBytes, data, p, patterns[k])
    {
      if At(data, p, PatternBytes(patterns[k])) {
        PatternRoundTrip(data, channelCount, p, patterns[k]);
      }
    }
    RepeatReadsBack(PatternStep(data, channelCount), PatternBytes, data, q, patterns);
  }

  /** The module read from `data`, from the results of its three stages. */
  lemma ReadModuleParts(data: seq<byte>, h: XmHeader, patterns: seq<Pattern>, pend: nat,
                        insts: seq<XmInstrument>, iend: nat)
    requires ReadXmHeader(data, 0) == Ok(h) && h.songLength <= OrderTableSize
    requires var r := Repeat(PatternStep(data, h.channelCount), PatternsPos(h), h.patternCount);
      r.Ok? && r.value.0 == patterns && r.value.1 == pend
    requires var r := Repeat(XmInstrumentStep(data), pend, h.instrumentCount);
      r.Ok? && r.value.0 == insts && r.value.1 == iend
    ensures XmHeaderWellFormed(h)
    ensures ReadModule(data) ==
      Ok(XmModule(h.moduleName, h.trackerName, h.songRestartPos, h.channelCount, h.frequencyTableFlags,
                  h.defaultTickrate, h.defaultTempo, h.patternOrderTable[..h.songLength], patterns, insts))
  {
  }

  /** The fields of the header the writer fills in, when the counts fit. */
  lemma SavedHeaderFields(m: XmModule, orderFill: seq<byte>)
    requires |m.patternOrder| <= OrderTableSize && |orderFill| == OrderTableSize
    requires |m.patterns| < 0x1_0000 && |m.instruments| < 0x1_0000
    ensures var h := SavedXmHeader(m, orderFill);
      PatternsPos(h) == 336 && h.channelCount == m.channelCount &&
      h.patternCount == |m.patterns| && h.instrumentCount == |m.instruments| &&
      h.songLength == |m.patternOrder| && h.patternOrderTable[..h.songLength] == m.patternOrder
  {
  }

  /** Where the parts of a written module lie: the header at 0, the
      patterns right after it, then the instruments to the end. */
  lemma ModuleLayout(m: XmModule, orderFill: seq<byte>)
    requires |m.patternOrder| <= OrderTableSize && |orderFill| == OrderTableSize
    ensures At(ModuleBytes(m, orderFill), 0, XmHeaderBytes(SavedXmHeader(m, orderFill)))
    ensures At(ModuleBytes(m, orderFill), 336, Flatten(PatternBytes, m.patterns))
    ensures At(ModuleBytes(m, orderFill), 336 + |Flatten(PatternBytes, m.patterns)|, Flatten(InstrumentBytes, m.instruments))
    ensures |ModuleBytes(m, orderFill)| == 336 + |Flatten(PatternBytes, m.patterns)| + |Flatten(InstrumentBytes, m.instruments)|
  {
    var bs := ModuleBytes(m, orderFill);
    AtWhole(bs);
    AtConcat3(bs, 0, XmHeaderBytes(SavedXmHeader(m, orderFill)), Flatten(PatternBytes, m.patterns),
              Flatten(InstrumentBytes, m.instruments));
  }

  lemma PatternsEncodable(m: XmModule)
    requires CountsFit(m) && PatternsReadable(m)
    ensures forall k :: 0 <= k < |m.patterns| ==> PatternEncodable(m.patterns[k], m.channelCount)
  {
    forall k | 0 <= k < |m.patterns| ensures PatternEncodable(m.patterns[k], m.channelCount) {
      assert PatternFits(m.patterns[k]);
    }
  }

  lemma InstrumentCountsFit(m: XmModule)
    requires CountsFit(m)
    ensures forall i :: 0 <= i < |m.instruments| ==> SampleCountsFit(m.instruments[i])
  {
  }

  /** The header stage of a written module. */
  lemma HeaderStage(m: XmModule, orderFill: seq<byte>)
    requires |m.patternOrder| <= OrderTableSize && |orderFill| == OrderTableSize
    ensures var h := SavedXmHeader(m, orderFill);
      ReadXmHeader(ModuleBytes(m, orderFill), 0) == Ok(h) && h.songLength <= OrderTableSize
  {
    ModuleLayout(m, orderFill);
    ReadXmHeaderIff(ModuleBytes(m, orderFill), 0, SavedXmHeader(m, orderFill));
  }

  /** The patterns stage of a written module. */
  lemma PatternsStage(m: XmModule, orderFill: seq<byte>)
    requires |m.patternOrder| <= OrderTableSize && |orderFill| == OrderTableSize
    requires CountsFit(m) && PatternsReadable(m)
    ensures var bs, h := ModuleBytes(m, orderFill), SavedXmHeader(m, orderFill);
      var r := Repeat(PatternStep(bs, h.channelCount), PatternsPos(h), h.patternCount);
      r.Ok? && r.value.0 == m.patterns && r.value.1 == 336 + |Flatten(PatternBytes, m.patterns)|
  {
    ModuleLayout(m, orderFill);
    SavedHeaderFields(m, orderFill);
    PatternsEncodable(m);
    PatternsBack(ModuleBytes(m, orderFill), m.channelCount, 336, m.patterns);
  }

  /** The instruments stage of a written module. */
  lemma InstrumentsStage(m: XmModule, orderFill: seq<byte>)
    requires |m.patternOrder| <= OrderTableSize && |orderFill| == OrderTableSize
    requires NamesFit(m) && CountsFit(m)
    ensures var bs, h := ModuleBytes(m, orderFill), SavedXmHeader(m, orderFill);
      var r := Repeat(XmInstrumentStep(bs), 336 + |Flatten(PatternBytes, m.patterns)|, h.instrumentCount);
      r.Ok? && r.value.0 == NormalInstruments(m.instruments) && r.value.1 == |bs|
  {
    var bs, q := ModuleBytes(m, orderFill), 336 + |Flatten(PatternBytes, m.patterns)|;
    ModuleLayout(m, orderFill);
    SavedHeaderFields(m, orderFill);
    InstrumentCountsFit(m);
    InstrumentsBack(bs, q, m.instruments);
    assert SavedXmHeader(m, orderFill).instrumentCount == |m.instruments|;
    var r := Repeat(XmInstrumentStep(bs), q, |m.instruments|);
    assert r.value.1 == q + |Flatten(InstrumentBytes, m.instruments)| == |bs|;
  }

  /** The module built from the saved header is the module with its names
      padded, once the instruments read back as their normal forms. */
  lemma ModuleOfSavedHeader(m: XmModule, orderFill: seq<byte>)
    requires |m.patternOrder| <= OrderTableSize && |orderFill| == OrderTableSize
    ensures var h := SavedXmHeader(m, orderFill);
      XmModule(h.moduleName, h.trackerName, h.songRestartPos, h.channelCount, h.frequencyTableFlags,
               h.defaultTickrate, h.defaultTempo, h.patternOrderTable[..h.songLength],
               m.patterns, NormalInstruments(m.instruments)) == NormalModule(m)
  {
  }

  /** A module whose names and counts fit, and whose patterns are
      readable, is read back from the bytes the writer puts out, whatever
      the order table held past the order. */
  lemma ModuleRoundTrip(m: XmModule, orderFill: seq<byte>)
    requires NamesFit(m) && CountsFit(m) && PatternsReadable(m) && |orderFill| == OrderTableSize
    ensures ReadModule(ModuleBytes(m, orderFill)) == Ok(NormalModule(m))
  {
    var bs := ModuleBytes(m, orderFill);
    HeaderStage(m, orderFill);
    PatternsStage(m, orderFill);
    InstrumentsStage(m, orderFill);
    ReadModuleParts(bs, SavedXmHeader(m, orderFill), m.patterns, 336 + |Flatten(PatternBytes, m.patterns)|,
                    NormalInstruments(m.instruments), |bs|);
    ModuleOfSavedHeader(m, orderFill);
  }

  /** What the source's writer writes, when every count fits its field,
      reads back as the module. */
  lemma SaveAsWrittenRoundTrip(m: XmModule, orderFill: seq<byte>)
    requires |orderFill| == OrderTableSize && SaveModuleAsWritten(m, orderFill).Written?
    requires CountsFit(m) && PatternsReadable(m)
    ensures ReadModule(SaveModuleAsWritten(m, orderFill).bytes) == Ok(NormalModule(m))
  {
    SaveOutcome(m, orderFill);
    ModuleRoundTrip(m, orderFill);
  }

  /** Whatever the corrected writer writes reads back as the module, when
      its patterns are readable. */
  lemma SaveRoundTrip(m: XmModule)
    requires SaveModule(m).Written? && PatternsReadable(m)
    ensures ReadModule(SaveModule(m).bytes) == Ok(NormalModule(m))
  {
    SaveModuleOutcome(m);
    ModuleRoundTrip(m, Zeros(OrderTableSize));
  }
}
