/** The fixed byte layouts of the XM records: the 336-byte module header,
    the 9-byte pattern header, the 29-byte instrument header, the 214-byte
    extended instrument header and the 40-byte sample header. Every field
    is little-endian and none is padded (the sizes the source pins with
    `static_assert`). Each record has an encoder, a decoder of a block of
    exactly its size, both round trips, and the read at a stream position. */
module XmRecords {
  import opened Bytes
  import opened Words

  /** The capacities of the fixed-size name fields. */
  const ModuleNameSize := 20
  const TrackerNameSize := 20
  const InstrumentNameSize := 22
  const SampleNameSize := 22
  /** The pattern-order table of the module header. */
  const OrderTableSize := 256

  // ---- module header: 336 bytes

  datatype XmHeader = XmHeader(
    idText: seq<byte>, moduleName: seq<byte>, always1a: byte, trackerName: seq<byte>,
    versionNumber: u16, headerSize: u32,
    songLength: u16, songRestartPos: u16, channelCount: u16, patternCount: u16,
    instrumentCount: u16, frequencyTableFlags: u16, defaultTickrate: u16, defaultTempo: u16,
    patternOrderTable: seq<byte>)

  predicate XmHeaderWellFormed(h: XmHeader) {
    |h.idText| == 17 && |h.moduleName| == ModuleNameSize && |h.trackerName| == TrackerNameSize &&
    |h.patternOrderTable| == OrderTableSize
  }

  /** The eight u16 fields from `songLength` to `defaultTempo`. */
  function XmHeaderWords(h: XmHeader): (ws: seq<u16>)
    ensures |ws| == 8
  {
    [h.songLength, h.songRestartPos, h.channelCount, h.patternCount,
     h.instrumentCount, h.frequencyTableFlags, h.defaultTickrate, h.defaultTempo]
  }

  /** The 17-byte id text, the two 20-byte names around the 0x1a byte, the
      u16 version, the u32 header size (at byte 60), the eight u16 counts
      and settings, and the 256-byte pattern-order table. */
  function XmHeaderBytes(h: XmHeader): (bs: seq<byte>)
    requires XmHeaderWellFormed(h)
    ensures |bs| == 336
  {
    h.idText + h.moduleName + [h.always1a] + h.trackerName +
    LeBytes(h.versionNumber, 2) + LeBytes(h.headerSize, 4) + EncodeWords(XmHeaderWords(h)) +
    h.patternOrderTable
  }

  function XmHeaderOfBytes(bs: seq<byte>): (h: XmHeader)
    requires |bs| == 336
    ensures XmHeaderWellFormed(h)
  {
    assert Pow256(4) == 0x1_0000_0000;
    var ws := ParseWords(bs[64..80]);
    XmHeader(bs[0..17], bs[17..37], bs[37], bs[38..58], LeValue(bs[58..60]), LeValue(bs[60..64]),
             ws[0], ws[1], ws[2], ws[3], ws[4], ws[5], ws[6], ws[7], bs[80..336])
  }

  /** Where each field lies in the encoded header. */
  lemma XmHeaderParts(h: XmHeader)
    requires XmHeaderWellFormed(h)
    ensures var bs := XmHeaderBytes(h);
      bs[0..17] == h.idText && bs[17..37] == h.moduleName && bs[37] == h.always1a &&
      bs[38..58] == h.trackerName && bs[58..60] == LeBytes(h.versionNumber, 2) &&
      bs[60..64] == LeBytes(h.headerSize, 4) && bs[64..80] == EncodeWords(XmHeaderWords(h)) &&
      bs[80..336] == h.patternOrderTable
  {
    var bs := XmHeaderBytes(h);
    var front := bs[..80];
    assert bs == front + h.patternOrderTable;
    assert front[0..17] == h.idText;
    assert front[17..37] == h.moduleName;
    assert front[38..58] == h.trackerName;
    assert front[58..60] == LeBytes(h.versionNumber, 2);
    assert front[60..64] == LeBytes(h.headerSize, 4);
    assert front[64..80] == EncodeWords(XmHeaderWords(h));
  }

  lemma XmHeaderRoundTrip(h: XmHeader)
    requires XmHeaderWellFormed(h)
    ensures XmHeaderOfBytes(XmHeaderBytes(h)) == h
  {
    XmHeaderParts(h);
    LeValueOfBytes(h.versionNumber, 2);
    LeValueOfBytes(h.headerSize, 4);
    ParseEncodeWords(XmHeaderWords(h));
  }

  lemma XmHeaderBytesOf(bs: seq<byte>)
    requires |bs| == 336
    ensures XmHeaderBytes(XmHeaderOfBytes(bs)) == bs
  {
    var h := XmHeaderOfBytes(bs);
    var ws := ParseWords(bs[64..80]);
    assert XmHeaderWords(h) == ws;
    EncodeParseWords(bs[64..80]);
    LeBytesOfValue(bs[58..60]);
    LeBytesOfValue(bs[60..64]);
    assert [bs[37]] == bs[37..38];
    SliceJoin(bs, 0, 17, 37);
    SliceJoin(bs, 0, 37, 38);
    SliceJoin(bs, 0, 38, 58);
    SliceJoin(bs, 0, 58, 60);
    SliceJoin(bs, 0, 60, 64);
    SliceJoin(bs, 0, 64, 80);
    SliceJoin(bs, 0, 80, 336);
  }

  function ReadXmHeader(data: seq<byte>, pos: nat): (r: Result<XmHeader>)
    ensures r.Ok? <==> pos + 336 <= |data|
    ensures r.Ok? ==> XmHeaderWellFormed(r.value)
  {
    if pos + 336 <= |data| then Ok(XmHeaderOfBytes(data[pos..pos + 336])) else Err(TruncatedInput)
  }

  /** A module header is read back from exactly the bytes that encode it. */
  lemma ReadXmHeaderIff(data: seq<byte>, pos: nat, h: XmHeader)
    requires XmHeaderWellFormed(h)
    ensures ReadXmHeader(data, pos) == Ok(h) <==> At(data, pos, XmHeaderBytes(h))
  {
    XmHeaderRoundTrip(h);
    if pos + 336 <= |data| {
      XmHeaderBytesOf(data[pos..pos + 336]);
    }
  }

  // ---- pattern header: 9 bytes

  datatype PatternHeader = PatternHeader(headerSize: u32, packingType: byte, rowCount: u16, packedDataSize: u16)

  /** The u32 header size, the packing type, the u16 row count and the
      u16 size of the packed cell data. */
  function PatternHeaderBytes(h: PatternHeader): (bs: seq<byte>)
    ensures |bs| == 9
  {
    LeBytes(h.headerSize, 4) + [h.packingType] + LeBytes(h.rowCount, 2) + LeBytes(h.packedDataSize, 2)
  }

  function PatternHeaderOfBytes(bs: seq<byte>): PatternHeader
    requires |bs| == 9
  {
    assert Pow256(4) == 0x1_0000_0000;
    PatternHeader(LeValue(bs[0..4]), bs[4], LeValue(bs[5..7]), LeValue(bs[7..9]))
  }

  lemma PatternHeaderRoundTrip(h: PatternHeader)
    ensures PatternHeaderOfBytes(PatternHeaderBytes(h)) == h
  {
    var bs := PatternHeaderBytes(h);
    assert bs[0..4] == LeBytes(h.headerSize, 4);
    assert bs[5..7] == LeBytes(h.rowCount, 2);
    assert bs[7..9] == LeBytes(h.packedDataSize, 2);
    LeValueOfBytes(h.headerSize, 4);
    LeValueOfBytes(h.rowCount, 2);
    LeValueOfBytes(h.packedDataSize, 2);
  }

  lemma PatternHeaderBytesOf(bs: seq<byte>)
    requires |bs| == 9
    ensures PatternHeaderBytes(PatternHeaderOfBytes(bs)) == bs
  {
    LeBytesOfValue(bs[0..4]);
    LeBytesOfValue(bs[5..7]);
    LeBytesOfValue(bs[7..9]);
    assert bs == bs[0..4] + [bs[4]] + bs[5..7] + bs[7..9];
  }

  function ReadPatternHeader(data: seq<byte>, pos: nat): (r: Result<PatternHeader>)
    ensures r.Ok? <==> pos + 9 <= |data|
  {
    if pos + 9 <= |data| then Ok(PatternHeaderOfBytes(data[pos..pos + 9])) else Err(TruncatedInput)
  }

  /** A pattern header is read back from exactly the bytes that encode it. */
  lemma ReadPatternHeaderIff(data: seq<byte>, pos: nat, h: PatternHeader)
    ensures ReadPatternHeader(data, pos) == Ok(h) <==> At(data, pos, PatternHeaderBytes(h))
  {
    PatternHeaderRoundTrip(h);
    if pos + 9 <= |data| {
      PatternHeaderBytesOf(data[pos..pos + 9]);
    }
  }

  // ---- instrument header: 29 bytes

  datatype XmInstrumentHeader = XmInstrumentHeader(headerSize: u32, name: seq<byte>, instrumentType: byte, sampleCount: u16)

  predicate XmInstrumentHeaderWellFormed(h: XmInstrumentHeader) {
    |h.name| == InstrumentNameSize
  }

  /** The u32 header size, the 22-byte name, the type byte and the u16
      sample count. */
  function XmInstrumentHeaderBytes(h: XmInstrumentHeader): (bs: seq<byte>)
    requires XmInstrumentHeaderWellFormed(h)
    ensures |bs| == 29
  {
    LeBytes(h.headerSize, 4) + h.name + [h.instrumentType] + LeBytes(h.sampleCount, 2)
  }

  function XmInstrumentHeaderOfBytes(bs: seq<byte>): (h: XmInstrumentHeader)
    requires |bs| == 29
    ensures XmInstrumentHeaderWellFormed(h)
  {
    assert Pow256(4) == 0x1_0000_0000;
    XmInstrumentHeader(LeValue(bs[0..4]), bs[4..26], bs[26], LeValue(bs[27..29]))
  }

  lemma XmInstrumentHeaderRoundTrip(h: XmInstrumentHeader)
    requires XmInstrumentHeaderWellFormed(h)
    ensures XmInstrumentHeaderOfBytes(XmInstrumentHeaderBytes(h)) == h
  {
    var bs := XmInstrumentHeaderBytes(h);
    assert bs[0..4] == LeBytes(h.headerSize, 4);
    assert bs[4..26] == h.name;
    assert bs[27..29] == LeBytes(h.sampleCount, 2);
    LeValueOfBytes(h.headerSize, 4);
    LeValueOfBytes(h.sampleCount, 2);
  }

  lemma XmInstrumentHeaderBytesOf(bs: seq<byte>)
    requires |bs| == 29
    ensures XmInstrumentHeaderBytes(XmInstrumentHeaderOfBytes(bs)) == bs
  {
    LeBytesOfValue(bs[0..4]);
    LeBytesOfValue(bs[27..29]);
    assert bs == bs[0..4] + bs[4..26] + [bs[26]] + bs[27..29];
  }

  function ReadXmInstrumentHeader(data: seq<byte>, pos: nat): (r: Result<XmInstrumentHeader>)
    ensures r.Ok? <==> pos + 29 <= |data|
    ensures r.Ok? ==> XmInstrumentHeaderWellFormed(r.value)
  {
    if pos + 29 <= |data| then Ok(XmInstrumentHeaderOfBytes(data[pos..pos + 29])) else Err(TruncatedInput)
  }

  /** An instrument header is read back from exactly the bytes that encode it. */
  lemma ReadXmInstrumentHeaderIff(data: seq<byte>, pos: nat, h: XmInstrumentHeader)
    requires XmInstrumentHeaderWellFormed(h)
    ensures ReadXmInstrumentHeader(data, pos) == Ok(h) <==> At(data, pos, XmInstrumentHeaderBytes(h))
  {
    XmInstrumentHeaderRoundTrip(h);
    if pos + 29 <= |data| {
      XmInstrumentHeaderBytesOf(data[pos..pos + 29]);
    }
  }

  // ---- extended instrument header: 214 bytes

  datatype ExtHeader = ExtHeader(
    sampleHeaderSize: u32, sampleNumberForAllNotes: seq<byte>,
    volumeEnvelopePoints: seq<EnvelopePoint>, panningEnvelopePoints: seq<EnvelopePoint>,
    volumePointCount: byte, panningPointCount: byte,
    volumeSustainPoint: byte, volumeLoopStartPoint: byte, volumeLoopEndPoint: byte,
    panningSustainPoint: byte, panningLoopStartPoint: byte, panningLoopEndPoint: byte,
    volumeType: byte, panningType: byte,
    vibratoType: byte, vibratoSweep: byte, vibratoDepth: byte, vibratoRate: byte,
    volumeFadeout: u16, reserved: u16)

  /** A 96-entry note-to-sample table and exactly 12 points per envelope. */
  predicate ExtHeaderWellFormed(e: ExtHeader) {
    |e.sampleNumberForAllNotes| == 96 && |e.volumeEnvelopePoints| == 12 && |e.panningEnvelopePoints| == 12
  }

  /** The fourteen one-byte fields from `volumePointCount` to `vibratoRate`. */
  function ExtHeaderSmallFields(e: ExtHeader): (bs: seq<byte>)
    ensures |bs| == 14
  {
    [e.volumePointCount, e.panningPointCount,
     e.volumeSustainPoint, e.volumeLoopStartPoint, e.volumeLoopEndPoint,
     e.panningSustainPoint, e.panningLoopStartPoint, e.panningLoopEndPoint,
     e.volumeType, e.panningType, e.vibratoType, e.vibratoSweep, e.vibratoDepth, e.vibratoRate]
  }

  /** The u32 sample-header size, the note-to-sample table, the two point
      arrays, the fourteen one-byte fields, the u16 fadeout and the u16
      reserved word. */
  function ExtHeaderBytes(e: ExtHeader): (bs: seq<byte>)
    requires ExtHeaderWellFormed(e)
    ensures |bs| == 214
  {
    LeBytes(e.sampleHeaderSize, 4) + e.sampleNumberForAllNotes +
    PointsBytes(e.volumeEnvelopePoints) + PointsBytes(e.panningEnvelopePoints) +
    ExtHeaderSmallFields(e) + LeBytes(e.volumeFadeout, 2) + LeBytes(e.reserved, 2)
  }

  function ExtHeaderOfBytes(bs: seq<byte>): (e: ExtHeader)
    requires |bs| == 214
    ensures ExtHeaderWellFormed(e)
  {
    assert Pow256(4) == 0x1_0000_0000;
    ExtHeader(LeValue(bs[0..4]), bs[4..100], PointsOfBytes(bs[100..148]), PointsOfBytes(bs[148..196]),
              bs[196], bs[197], bs[198], bs[199], bs[200], bs[201], bs[202], bs[203],
              bs[204], bs[205], bs[206], bs[207], bs[208], bs[209],
              LeValue(bs[210..212]), LeValue(bs[212..214]))
  }

  /** Where each field lies in the encoded extended header. */
  lemma ExtHeaderParts(e: ExtHeader)
    requires ExtHeaderWellFormed(e)
    ensures var bs := ExtHeaderBytes(e);
      bs[0..4] == LeBytes(e.sampleHeaderSize, 4) && bs[4..100] == e.sampleNumberForAllNotes &&
      bs[100..148] == PointsBytes(e.volumeEnvelopePoints) && bs[148..196] == PointsBytes(e.panningEnvelopePoints) &&
      bs[196..210] == ExtHeaderSmallFields(e) &&
      bs[210..212] == LeBytes(e.volumeFadeout, 2) && bs[212..214] == LeBytes(e.reserved, 2)
  {
    var bs := ExtHeaderBytes(e);
    var notes := LeBytes(e.sampleHeaderSize, 4) + e.sampleNumberForAllNotes;
    var points := notes + PointsBytes(e.volumeEnvelopePoints) + PointsBytes(e.panningEnvelopePoints);
    var small := points + ExtHeaderSmallFields(e);
    AtWhole(bs);
    AtConcat3(bs, 0, small, LeBytes(e.volumeFadeout, 2), LeBytes(e.reserved, 2));
    AtConcat(bs, 0, points, ExtHeaderSmallFields(e));
    AtConcat3(bs, 0, notes, PointsBytes(e.volumeEnvelopePoints), PointsBytes(e.panningEnvelopePoints));
    AtConcat(bs, 0, LeBytes(e.sampleHeaderSize, 4), e.sampleNumberForAllNotes);
  }

  lemma ExtHeaderRoundTrip(e: ExtHeader)
    requires ExtHeaderWellFormed(e)
    ensures ExtHeaderOfBytes(ExtHeaderBytes(e)) == e
  {
    var bs := ExtHeaderBytes(e);
    ExtHeaderParts(e);
    assert bs[196..210] == ExtHeaderSmallFields(e);
    LeValueOfBytes(e.sampleHeaderSize, 4);
    LeValueOfBytes(e.volumeFadeout, 2);
    LeValueOfBytes(e.reserved, 2);
    PointsOfBytesOfPoints(e.volumeEnvelopePoints);
    PointsOfBytesOfPoints(e.panningEnvelopePoints);
  }

  lemma ExtHeaderBytesOf(bs: seq<byte>)
    requires |bs| == 214
    ensures ExtHeaderBytes(ExtHeaderOfBytes(bs)) == bs
  {
    var e := ExtHeaderOfBytes(bs);
    LeBytesOfValue(bs[0..4]);
    LeBytesOfValue(bs[210..212]);
    LeBytesOfValue(bs[212..214]);
    PointsBytesOfBytes(bs[100..148]);
    PointsBytesOfBytes(bs[148..196]);
    assert ExtHeaderSmallFields(e) == bs[196..210];
    SliceJoin(bs, 0, 4, 100);
    SliceJoin(bs, 0, 100, 148);
    SliceJoin(bs, 0, 148, 196);
    SliceJoin(bs, 0, 196, 210);
    SliceJoin(bs, 0, 210, 212);
    SliceJoin(bs, 0, 212, 214);
  }

  function ReadExtHeader(data: seq<byte>, pos: nat): (r: Result<ExtHeader>)
    ensures r.Ok? <==> pos + 214 <= |data|
    ensures r.Ok? ==> ExtHeaderWellFormed(r.value)
  {
    if pos + 214 <= |data| then Ok(ExtHeaderOfBytes(data[pos..pos + 214])) else Err(TruncatedInput)
  }

  /** An extended header is read back from exactly the bytes that encode it. */
  lemma ReadExtHeaderIff(data: seq<byte>, pos: nat, e: ExtHeader)
    requires ExtHeaderWellFormed(e)
    ensures ReadExtHeader(data, pos) == Ok(e) <==> At(data, pos, ExtHeaderBytes(e))
  {
    ExtHeaderRoundTrip(e);
    if pos + 214 <= |data| {
      ExtHeaderBytesOf(data[pos..pos + 214]);
    }
  }

  // ---- sample header: 40 bytes

  datatype SampleHeader = SampleHeader(
    sampleLength: u32, loopStart: u32, loopLength: u32,
    volume: byte, finetune: i8, typeFlags: byte, panning: byte, relativeNoteNumber: i8, reserved: byte,
    name: seq<byte>)

  predicate SampleHeaderWellFormed(h: SampleHeader) {
    |h.name| == SampleNameSize
  }

  /** The three u32 lengths, six one-byte fields (the signed ones in two's
      complement) and the 22-byte name. */
  function SampleHeaderBytes(h: SampleHeader): (bs: seq<byte>)
    requires SampleHeaderWellFormed(h)
    ensures |bs| == 40
  {
    LeBytes(h.sampleLength, 4) + LeBytes(h.loopStart, 4) + LeBytes(h.loopLength, 4) +
    [h.volume, AsUnsigned(h.finetune), h.typeFlags, h.panning, AsUnsigned(h.relativeNoteNumber), h.reserved] +
    h.name
  }

  function SampleHeaderOfBytes(bs: seq<byte>): (h: SampleHeader)
    requires |bs| == 40
    ensures SampleHeaderWellFormed(h)
  {
    assert Pow256(4) == 0x1_0000_0000;
    SampleHeader(LeValue(bs[0..4]), LeValue(bs[4..8]), LeValue(bs[8..12]),
                 bs[12], AsSigned(bs[13]), bs[14], bs[15], AsSigned(bs[16]), bs[17], bs[18..40])
  }

  lemma SampleHeaderRoundTrip(h: SampleHeader)
    requires SampleHeaderWellFormed(h)
    ensures SampleHeaderOfBytes(SampleHeaderBytes(h)) == h
  {
    var bs := SampleHeaderBytes(h);
    assert bs[0..4] == LeBytes(h.sampleLength, 4);
    assert bs[4..8] == LeBytes(h.loopStart, 4);
    assert bs[8..12] == LeBytes(h.loopLength, 4);
    assert bs[18..40] == h.name;
    LeValueOfBytes(h.sampleLength, 4);
    LeValueOfBytes(h.loopStart, 4);
    LeValueOfBytes(h.loopLength, 4);
  }

  lemma SampleHeaderBytesOf(bs: seq<byte>)
    requires |bs| == 40
    ensures SampleHeaderBytes(SampleHeaderOfBytes(bs)) == bs
  {
    LeBytesOfValue(bs[0..4]);
    LeBytesOfValue(bs[4..8]);
    LeBytesOfValue(bs[8..12]);
    SignedUnsignedInverse(bs[13]);
    SignedUnsignedInverse(bs[16]);
    assert [bs[12], bs[13], bs[14], bs[15], bs[16], bs[17]] == bs[12..18];
    SliceJoin(bs, 0, 4, 8);
    SliceJoin(bs, 0, 8, 12);
    SliceJoin(bs, 0, 12, 18);
    SliceJoin(bs, 0, 18, 40);
  }

  function ReadSampleHeader(data: seq<byte>, pos: nat): (r: Result<SampleHeader>)
    ensures r.Ok? <==> pos + 40 <= |data|
    ensures r.Ok? ==> SampleHeaderWellFormed(r.value)
  {
    if pos + 40 <= |data| then Ok(SampleHeaderOfBytes(data[pos..pos + 40])) else Err(TruncatedInput)
  }

  /** A sample header is read back from exactly the bytes that encode it. */
  lemma ReadSampleHeaderIff(data: seq<byte>, pos: nat, h: SampleHeader)
    requires SampleHeaderWellFormed(h)
    ensures ReadSampleHeader(data, pos) == Ok(h) <==> At(data, pos, SampleHeaderBytes(h))
  {
    SampleHeaderRoundTrip(h);
    if pos + 40 <= |data| {
      SampleHeaderBytesOf(data[pos..pos + 40]);
    }
  }
}
