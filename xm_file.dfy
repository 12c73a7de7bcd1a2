/** The in-memory XM module and the reader that builds it from a file: the
    336-byte header, the patterns from `60 + headerSize` on, then the
    instruments, each a 29-byte header, an extended header when it has
    samples, its sample headers from `headerSize` bytes after its start,
    and then its sample bodies. As for the bank, every stage is a
    specification function and a method with the reader's loops. */
module XmFile {
  import opened Bytes
  import opened Song
  import opened Words
  import opened XmRecords
  import opened XmPacking

  /** An extended instrument header as the C struct holds it: the
      note-to-sample table and both point arrays have their fixed sizes. */
  type FixedExtHeader = e: ExtHeader | ExtHeaderWellFormed(e) witness ZeroExtHeader()

  /** `n` zero bytes. */
  function Zeros(n: nat): (bs: seq<byte>)
    ensures |bs| == n && forall i :: 0 <= i < n ==> bs[i] == 0
  {
    if n == 0 then [] else Zeros(n - 1) + [0]
  }

  /** `n` envelope points at the origin. */
  function ZeroPoints(n: nat): (ps: seq<EnvelopePoint>)
    ensures |ps| == n
  {
    if n == 0 then [] else ZeroPoints(n - 1) + [EnvelopePoint(0, 0)]
  }

  /** The extended header of an instrument that has no samples: the reader
      never fills it, and the vector it lives in value-initialises it to
      all zeros. */
  function ZeroExtHeader(): (e: ExtHeader)
    ensures ExtHeaderWellFormed(e)
  {
    ExtHeader(0, Zeros(96), ZeroPoints(12), ZeroPoints(12), 0, 0, 0, 0, 0, 0, 0, 0, 0, 0, 0, 0, 0, 0, 0, 0)
  }

  /** A sample: the sample header's fields other than its length and
      reserved byte, and the sample bytes (signed 8-bit values, kept as
      their bit patterns). Names are byte strings of any length. */
  datatype XmSample = XmSample(
    loopStart: u32, loopLength: u32, volume: byte, finetune: i8, typeFlags: byte,
    panning: byte, relativeNoteNumber: i8, name: seq<byte>, data: seq<byte>)

  datatype XmInstrument = XmInstrument(name: seq<byte>, instrumentType: byte, extHeader: FixedExtHeader,
                                       samples: seq<XmSample>)

  datatype XmModule = XmModule(
    moduleName: seq<byte>, trackerName: seq<byte>,
    songRestartPos: u16, channelCount: u16, frequencyTableFlags: u16, defaultTickrate: u16, defaultTempo: u16,
    patternOrder: seq<byte>, patterns: seq<Pattern>, instruments: seq<XmInstrument>)

  // ---- samples

  /** A sample header read at `p`, and the position after it. */
  function SampleHeaderAt(data: seq<byte>, p: nat): (r: Result<(SampleHeader, nat)>)
    ensures r.Ok? <==> ReadSampleHeader(data, p).Ok?
    ensures r.Ok? ==> r.value.0 == ReadSampleHeader(data, p).value && r.value.1 == p + 40
  {
    var h :- ReadSampleHeader(data, p);
    Ok((h, p + 40))
  }

  function SampleHeaderStep(data: seq<byte>): nat -> Result<(SampleHeader, nat)> {
    (p: nat) => SampleHeaderAt(data, p)
  }

  /** The sample bodies, read one after another from `pos`: body `i` is
      `headers[i].sampleLength` bytes. */
  function SampleBodies(data: seq<byte>, headers: seq<SampleHeader>, pos: nat): (r: Result<(seq<seq<byte>>, nat)>)
    ensures r.Ok? ==> |r.value.0| == |headers|
  {
    if headers == [] then Ok(([], pos))
    else
      var n := |headers| - 1;
      var front :- SampleBodies(data, headers[..n], pos);
      var body :- ReadBytes(data, front.1, headers[n].sampleLength);
      Ok((front.0 + [body], front.1 + headers[n].sampleLength))
  }

  /** The sample built from a sample header and its body. */
  function SampleOf(h: SampleHeader, body: seq<byte>): XmSample {
    XmSample(h.loopStart, h.loopLength, h.volume, h.finetune, h.typeFlags, h.panning,
             h.relativeNoteNumber, h.name, body)
  }

  /** Sample `i` pairs header `i` with body `i`. */
  function SamplesOf(headers: seq<SampleHeader>, bodies: seq<seq<byte>>): (samples: seq<XmSample>)
    requires |headers| == |bodies|
    ensures |samples| == |headers|
    ensures forall i :: 0 <= i < |headers| ==> samples[i] == SampleOf(headers[i], bodies[i])
  {
    if headers == [] then []
    else
      var n := |headers| - 1;
      SamplesOf(headers[..n], bodies[..n]) + [SampleOf(headers[n], bodies[n])]
  }

  // ---- instruments

  /** The extended header of an instrument with `sampleCount` samples: read
      at `q` when there is at least one sample, all zeros otherwise. */
  function ExtHeaderAt(data: seq<byte>, q: nat, sampleCount: nat): (r: Result<FixedExtHeader>)
    ensures sampleCount == 0 ==> r.Ok? && r.value == ZeroExtHeader()
    ensures sampleCount > 0 ==> (r.Ok? <==> ReadExtHeader(data, q).Ok?)
    ensures sampleCount > 0 && r.Ok? ==> r.value == ReadExtHeader(data, q).value
  {
    if sampleCount > 0 then
      var e :- ReadExtHeader(data, q);
      Ok(e)
    else
      Ok(ZeroExtHeader())
  }

  /** Where the sample headers of the instrument at `p` start. */
  function SampleHeadersPos(p: nat, h: XmInstrumentHeader): nat {
    p + h.headerSize
  }

  /** The instrument at `p` and the position after its last sample body:
      its header, its extended header, then a seek to `headerSize` bytes
      after `p`, all of its sample headers, and all of its sample bodies. */
  function XmInstrumentAt(data: seq<byte>, p: nat): (r: Result<(XmInstrument, nat)>)
    ensures r.Ok? ==>
      var ih := ReadXmInstrumentHeader(data, p);
      ih.Ok? &&
      var headers := Repeat(SampleHeaderStep(data), SampleHeadersPos(p, ih.value), ih.value.sampleCount);
      headers.Ok? && SampleBodies(data, headers.value.0, headers.value.1).Ok?
  {
    var ih :- ReadXmInstrumentHeader(data, p);
    var ext :- ExtHeaderAt(data, p + 29, ih.sampleCount);
    var headers :- Repeat(SampleHeaderStep(data), SampleHeadersPos(p, ih), ih.sampleCount);
    var bodies :- SampleBodies(data, headers.0, headers.1);
    Ok((XmInstrument(ih.name, ih.instrumentType, ext, SamplesOf(headers.0, bodies.0)), bodies.1))
  }

  function XmInstrumentStep(data: seq<byte>): nat -> Result<(XmInstrument, nat)> {
    (p: nat) => XmInstrumentAt(data, p)
  }

  // ---- the module

  /** Where the first pattern starts: `60 + headerSize`, computed in 32 bits. */
  function PatternsPos(h: XmHeader): nat {
    (60 + h.headerSize) % 0x1_0000_0000
  }

  /** The module read from the start of `data`. A song length beyond the
      256-entry order table is refused: the source would copy past the end
      of the table. */
  function ReadModule(data: seq<byte>): (r: Result<XmModule>)
    ensures r.Ok? ==>
      var h := ReadXmHeader(data, 0);
      h.Ok? && h.value.songLength <= OrderTableSize &&
      var patterns := Repeat(PatternStep(data, h.value.channelCount), PatternsPos(h.value), h.value.patternCount);
      patterns.Ok? && r.value.patterns == patterns.value.0 &&
      var instruments := Repeat(XmInstrumentStep(data), patterns.value.1, h.value.instrumentCount);
      instruments.Ok? && r.value.instruments == instruments.value.0
  {
    var h :- ReadXmHeader(data, 0);
    if h.songLength > OrderTableSize then Err(UnsupportedLayout)
    else
      var patterns :- Repeat(PatternStep(data, h.channelCount), PatternsPos(h), h.patternCount);
      var instruments :- Repeat(XmInstrumentStep(data), patterns.1, h.instrumentCount);
      Ok(XmModule(h.moduleName, h.trackerName, h.songRestartPos, h.channelCount, h.frequencyTableFlags,
                  h.defaultTickrate, h.defaultTempo, h.patternOrderTable[..h.songLength],
                  patterns.0, instruments.0))
  }

  // ---- the reader's loops

  /** A read that fails in the first `k + 1` bodies fails the whole run
      the same way. */
  lemma {:induction false} SampleBodiesStop(data: seq<byte>, headers: seq<SampleHeader>, pos: nat, k: nat)
    requires k < |headers| && SampleBodies(data, headers[..k + 1], pos).Err?
    ensures SampleBodies(data, headers, pos) == SampleBodies(data, headers[..k + 1], pos)
    decreases |headers|
  {
    if k + 1 < |headers| {
      var n := |headers| - 1;
      assert headers[..n][..k + 1] == headers[..k + 1];
      SampleBodiesStop(data, headers[..n], pos, k);
    } else {
      assert headers[..k + 1] == headers;
    }
  }

  /** One more sample body: the run so far, then the next read. */
  lemma SampleBodiesStep(data: seq<byte>, headers: seq<SampleHeader>, pos: nat, k: nat,
                         bodies: seq<seq<byte>>, p: nat)
    requires k < |headers| && SampleBodies(data, headers[..k], pos) == Ok((bodies, p))
    ensures var body := ReadBytes(data, p, headers[k].sampleLength);
      SampleBodies(data, headers[..k + 1], pos) ==
        if body.Ok? then Ok((bodies + [body.value], p + headers[k].sampleLength)) else Err(body.error)
  {
    assert headers[..k + 1][..k] == headers[..k];
  }

  lemma SamplesOfStep(headers: seq<SampleHeader>, k: nat, bodies: seq<seq<byte>>, body: seq<byte>)
    requires k < |headers| && |bodies| == k
    ensures SamplesOf(headers[..k + 1], bodies + [body]) == SamplesOf(headers[..k], bodies) + [SampleOf(headers[k], body)]
  {
    assert headers[..k + 1][..k] == headers[..k];
    assert (bodies + [body])[..k] == bodies;
  }

  /** The loop over sample bodies: sample `k` takes its fields from header
      `k` and its data from the next `sampleLength` bytes. */
  method DecodeSamples(data: seq<byte>, headers: seq<SampleHeader>, pos: nat) returns (r: Result<(seq<XmSample>, nat)>)
    ensures var b := SampleBodies(data, headers, pos);
      (r.Ok? <==> b.Ok?) && (r.Err? ==> r.error == b.error) &&
      (r.Ok? ==> r.value.0 == SamplesOf(headers, b.value.0) && r.value.1 == b.value.1)
  {
    var samples, p := [], pos;
    ghost var bodies: seq<seq<byte>> := [];
    for k := 0 to |headers|
      invariant SampleBodies(data, headers[..k], pos) == Ok((bodies, p))
      invariant samples == SamplesOf(headers[..k], bodies)
    {
      SampleBodiesStep(data, headers, pos, k, bodies, p);
      var body := ReadBytes(data, p, headers[k].sampleLength);
      if body.Err? {
        SampleBodiesStop(data, headers, pos, k);
        return Err(body.error);
      }
      SamplesOfStep(headers, k, bodies, body.value);
      samples := samples + [SampleOf(headers[k], body.value)];
      bodies := bodies + [body.value];
      p := p + headers[k].sampleLength;
    }
    assert headers[..|headers|] == headers;
    return Ok((samples, p));
  }

  /** The loop over sample headers, all read before any sample body. */
  method DecodeSampleHeaders(data: seq<byte>, pos: nat, count: nat) returns (r: Result<(seq<SampleHeader>, nat)>)
    ensures r == Repeat(SampleHeaderStep(data), pos, count)
  {
    ghost var step := SampleHeaderStep(data);
    var headers, p := [], pos;
    for k := 0 to count
      invariant Repeat(step, pos, k) == Ok((headers, p))
    {
      var h := ReadSampleHeader(data, p);
      if h.Err? {
        RepeatStop(step, pos, k, count, headers, p);
        return Err(h.error);
      }
      RepeatSnoc(step, pos, k, headers, p, h.value, p + 40);
      headers, p := headers + [h.value], p + 40;
    }
    return Ok((headers, p));
  }

  /** One turn of the instrument loop. */
  method DecodeInstrument(data: seq<byte>, p: nat) returns (r: Result<(XmInstrument, nat)>)
    ensures r == XmInstrumentAt(data, p)
  {
    var ih :- ReadXmInstrumentHeader(data, p);
    var ext: FixedExtHeader := ZeroExtHeader();
    if ih.sampleCount > 0 {
      var e :- ReadExtHeader(data, p + 29);
      ext := e;
    }
    var headers :- DecodeSampleHeaders(data, SampleHeadersPos(p, ih), ih.sampleCount);
    var samples :- DecodeSamples(data, headers.0, headers.1);
    return Ok((XmInstrument(ih.name, ih.instrumentType, ext, samples.0), samples.1));
  }

  /** The instrument loop: each instrument starts where the previous one's
      last sample body ended. */
  method DecodeInstruments(data: seq<byte>, pos: nat, count: nat) returns (r: Result<(seq<XmInstrument>, nat)>)
    ensures r == Repeat(XmInstrumentStep(data), pos, count)
  {
    ghost var step := XmInstrumentStep(data);
    var instruments, p := [], pos;
    for k := 0 to count
      invariant Repeat(step, pos, k) == Ok((instruments, p))
    {
      var instrument := DecodeInstrument(data, p);
      if instrument.Err? {
        RepeatStop(step, pos, k, count, instruments, p);
        return Err(instrument.error);
      }
      RepeatSnoc(step, pos, k, instruments, p, instrument.value.0, instrument.value.1);
      instruments, p := instruments + [instrument.value.0], instrument.value.1;
    }
    return Ok((instruments, p));
  }

  /** The reader: header, seek to the patterns, patterns, instruments. */
  method DecodeModule(data: seq<byte>) returns (r: Result<XmModule>)
    ensures r == ReadModule(data)
  {
    var h :- ReadXmHeader(data, 0);
    if h.songLength > OrderTableSize {
      return Err(UnsupportedLayout);
    }
    var patterns :- DecodePatterns(data, h.channelCount, PatternsPos(h), h.patternCount);
    var instruments :- DecodeInstruments(data, patterns.1, h.instrumentCount);
    return Ok(XmModule(h.moduleName, h.trackerName, h.songRestartPos, h.channelCount, h.frequencyTableFlags,
                       h.defaultTickrate, h.defaultTempo, h.patternOrderTable[..h.songLength],
                       patterns.0, instruments.0));
  }
}
