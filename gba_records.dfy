/** The fixed byte layouts of the music bank's on-disk records. Each record
    has an encoder (its fields in declaration order, little-endian, with no
    padding: the size the source pins with `static_assert`), a decoder that
    takes a block of exactly that size apart field by field, the two round
    trips, and the read of the record at a stream position. */
module GbaRecords {
  import opened Bytes
  import opened Words

  // ---- bank header: 4 bytes

  datatype BankHeader = BankHeader(version: u16, instrumentCount: byte, songCount: byte)

  /** u16 version, then the instrument and song counts, one byte each. */
  function BankHeaderBytes(h: BankHeader): (bs: seq<byte>)
    ensures |bs| == 4
  {
    LeBytes(h.version, 2) + [h.instrumentCount, h.songCount]
  }

  function BankHeaderOfBytes(bs: seq<byte>): (h: BankHeader)
    requires |bs| == 4
  {
    BankHeader(LeValue(bs[..2]), bs[2], bs[3])
  }

  lemma BankHeaderRoundTrip(h: BankHeader)
    ensures BankHeaderOfBytes(BankHeaderBytes(h)) == h
  {
    assert BankHeaderBytes(h)[..2] == LeBytes(h.version, 2);
    LeValueOfBytes(h.version, 2);
  }

  lemma BankHeaderBytesOf(bs: seq<byte>)
    requires |bs| == 4
    ensures BankHeaderBytes(BankHeaderOfBytes(bs)) == bs
  {
    LeBytesOfValue(bs[..2]);
    assert bs == bs[..2] + [bs[2], bs[3]];
  }

  function ReadBankHeader(data: seq<byte>, pos: nat): (r: Result<BankHeader>)
    ensures r.Ok? <==> pos + 4 <= |data|
  {
    if pos + 4 <= |data| then Ok(BankHeaderOfBytes(data[pos..pos + 4])) else Err(TruncatedInput)
  }

  /** A bank header is read back from exactly the bytes that encode it. */
  lemma ReadBankHeaderIff(data: seq<byte>, pos: nat, h: BankHeader)
    ensures ReadBankHeader(data, pos) == Ok(h) <==> At(data, pos, BankHeaderBytes(h))
  {
    BankHeaderRoundTrip(h);
    if pos + 4 <= |data| {
      BankHeaderBytesOf(data[pos..pos + 4]);
    }
  }

  // ---- envelope: 52 bytes

  /** An envelope; `points` always holds exactly 12 breakpoints. */
  datatype Envelope = Envelope(pointCount: byte, sustain: byte, loopStart: byte, loopEnd: byte,
                               points: seq<EnvelopePoint>)

  predicate EnvelopeWellFormed(e: Envelope) {
    |e.points| == 12
  }

  /** Four one-byte counters and markers, then the twelve points. */
  function EnvelopeBytes(e: Envelope): (bs: seq<byte>)
    requires EnvelopeWellFormed(e)
    ensures |bs| == 52
  {
    [e.pointCount, e.sustain, e.loopStart, e.loopEnd] + PointsBytes(e.points)
  }

  function EnvelopeOfBytes(bs: seq<byte>): (e: Envelope)
    requires |bs| == 52
    ensures EnvelopeWellFormed(e)
  {
    Envelope(bs[0], bs[1], bs[2], bs[3], PointsOfBytes(bs[4..]))
  }

  lemma EnvelopeRoundTrip(e: Envelope)
    requires EnvelopeWellFormed(e)
    ensures EnvelopeOfBytes(EnvelopeBytes(e)) == e
  {
    assert EnvelopeBytes(e)[4..] == PointsBytes(e.points);
    PointsOfBytesOfPoints(e.points);
  }

  lemma EnvelopeBytesOf(bs: seq<byte>)
    requires |bs| == 52
    ensures EnvelopeBytes(EnvelopeOfBytes(bs)) == bs
  {
    PointsBytesOfBytes(bs[4..]);
    assert bs == bs[..4] + bs[4..];
  }

  // ---- instrument header: 124 bytes

  datatype InstrumentHeader = InstrumentHeader(
    sampleLength: u32, sampleLoopStart: u32, sampleLoopLength: u32,
    sampleVolume: byte, samplePanning: byte, sampleFinetune: i8, sampleRelativeNote: i8,
    volumeFadeout: u16, unknownBytes: seq<byte>,
    volumeEnvelope: Envelope, panningEnvelope: Envelope)

  predicate InstrumentHeaderWellFormed(h: InstrumentHeader) {
    |h.unknownBytes| == 2 && EnvelopeWellFormed(h.volumeEnvelope) && EnvelopeWellFormed(h.panningEnvelope)
  }

  /** The sample's three u32 lengths, four one-byte fields (the signed ones
      in two's complement), the u16 fadeout, two unknown bytes and the two
      envelopes. */
  function InstrumentHeaderBytes(h: InstrumentHeader): (bs: seq<byte>)
    requires InstrumentHeaderWellFormed(h)
    ensures |bs| == 124
  {
    LeBytes(h.sampleLength, 4) + LeBytes(h.sampleLoopStart, 4) + LeBytes(h.sampleLoopLength, 4) +
    [h.sampleVolume, h.samplePanning, AsUnsigned(h.sampleFinetune), AsUnsigned(h.sampleRelativeNote)] +
    LeBytes(h.volumeFadeout, 2) + h.unknownBytes +
    EnvelopeBytes(h.volumeEnvelope) + EnvelopeBytes(h.panningEnvelope)
  }

  function InstrumentHeaderOfBytes(bs: seq<byte>): (h: InstrumentHeader)
    requires |bs| == 124
    ensures InstrumentHeaderWellFormed(h)
  {
    assert Pow256(4) == 0x1_0000_0000;
    InstrumentHeader(LeValue(bs[0..4]), LeValue(bs[4..8]), LeValue(bs[8..12]), bs[12], bs[13],
                     AsSigned(bs[14]), AsSigned(bs[15]), LeValue(bs[16..18]), bs[18..20],
                     EnvelopeOfBytes(bs[20..72]), EnvelopeOfBytes(bs[72..124]))
  }

  lemma InstrumentHeaderRoundTrip(h: InstrumentHeader)
    requires InstrumentHeaderWellFormed(h)
    ensures InstrumentHeaderOfBytes(InstrumentHeaderBytes(h)) == h
  {
    var bs := InstrumentHeaderBytes(h);
    assert bs[0..4] == LeBytes(h.sampleLength, 4);
    assert bs[4..8] == LeBytes(h.sampleLoopStart, 4);
    assert bs[8..12] == LeBytes(h.sampleLoopLength, 4);
    assert bs[16..18] == LeBytes(h.volumeFadeout, 2);
    assert bs[18..20] == h.unknownBytes;
    assert bs[20..72] == EnvelopeBytes(h.volumeEnvelope);
    assert bs[72..124] == EnvelopeBytes(h.panningEnvelope);
    LeValueOfBytes(h.sampleLength, 4);
    LeValueOfBytes(h.sampleLoopStart, 4);
    LeValueOfBytes(h.sampleLoopLength, 4);
    LeValueOfBytes(h.volumeFadeout, 2);
    SignedUnsignedInverse(AsUnsigned(h.sampleFinetune));
    SignedUnsignedInverse(AsUnsigned(h.sampleRelativeNote));
    EnvelopeRoundTrip(h.volumeEnvelope);
    EnvelopeRoundTrip(h.panningEnvelope);
  }

  lemma InstrumentHeaderBytesOf(bs: seq<byte>)
    requires |bs| == 124
    ensures InstrumentHeaderBytes(InstrumentHeaderOfBytes(bs)) == bs
  {
    LeBytesOfValue(bs[0..4]);
    LeBytesOfValue(bs[4..8]);
    LeBytesOfValue(bs[8..12]);
    LeBytesOfValue(bs[16..18]);
    SignedUnsignedInverse(bs[14]);
    SignedUnsignedInverse(bs[15]);
    EnvelopeBytesOf(bs[20..72]);
    EnvelopeBytesOf(bs[72..124]);
    assert [bs[12], bs[13], bs[14], bs[15]] == bs[12..16];
    SliceJoin(bs, 0, 4, 8);
    SliceJoin(bs, 0, 8, 12);
    SliceJoin(bs, 0, 12, 16);
    SliceJoin(bs, 0, 16, 18);
    SliceJoin(bs, 0, 18, 20);
    SliceJoin(bs, 0, 20, 72);
    SliceJoin(bs, 0, 72, 124);
  }

  function ReadInstrumentHeader(data: seq<byte>, pos: nat): (r: Result<InstrumentHeader>)
    ensures r.Ok? <==> pos + 124 <= |data|
    ensures r.Ok? ==> InstrumentHeaderWellFormed(r.value)
  {
    if pos + 124 <= |data| then Ok(InstrumentHeaderOfBytes(data[pos..pos + 124])) else Err(TruncatedInput)
  }

  /** An instrument header is read back from exactly the bytes that encode it. */
  lemma ReadInstrumentHeaderIff(data: seq<byte>, pos: nat, h: InstrumentHeader)
    requires InstrumentHeaderWellFormed(h)
    ensures ReadInstrumentHeader(data, pos) == Ok(h) <==> At(data, pos, InstrumentHeaderBytes(h))
  {
    InstrumentHeaderRoundTrip(h);
    if pos + 124 <= |data| {
      InstrumentHeaderBytesOf(data[pos..pos + 124]);
    }
  }

  // ---- song header: 6 bytes

  datatype SongHeader = SongHeader(channelCount: byte, songLength: byte, loopPoint: byte,
                                   patternCount: byte, tickrate: byte, tempo: byte)

  /** The six one-byte fields in declaration order. */
  function SongHeaderBytes(h: SongHeader): (bs: seq<byte>)
    ensures |bs| == 6
  {
    [h.channelCount, h.songLength, h.loopPoint, h.patternCount, h.tickrate, h.tempo]
  }

  function SongHeaderOfBytes(bs: seq<byte>): (h: SongHeader)
    requires |bs| == 6
  {
    SongHeader(bs[0], bs[1], bs[2], bs[3], bs[4], bs[5])
  }

  lemma SongHeaderBytesOf(bs: seq<byte>)
    requires |bs| == 6
    ensures SongHeaderBytes(SongHeaderOfBytes(bs)) == bs
  {
  }

  function ReadSongHeader(data: seq<byte>, pos: nat): (r: Result<SongHeader>)
    ensures r.Ok? <==> pos + 6 <= |data|
  {
    if pos + 6 <= |data| then Ok(SongHeaderOfBytes(data[pos..pos + 6])) else Err(TruncatedInput)
  }

  /** A song header is read back from exactly the bytes that encode it. */
  lemma ReadSongHeaderIff(data: seq<byte>, pos: nat, h: SongHeader)
    ensures ReadSongHeader(data, pos) == Ok(h) <==> At(data, pos, SongHeaderBytes(h))
  {
    if pos + 6 <= |data| {
      SongHeaderBytesOf(data[pos..pos + 6]);
    }
  }
}
