/** Little-endian arrays of 16-bit words and the envelope points stored in
    them: the shared building blocks of the records of both formats. */
module Words {
  import opened Bytes

  // ---- arrays of 16-bit integers

  function ParseWords(bs: seq<byte>): (ns: seq<u16>)
    requires |bs| % 2 == 0
    ensures |ns| == |bs| / 2
  {
    if bs == [] then [] else ParseWords(bs[..|bs| - 2]) + [LeValue(bs[|bs| - 2..])]
  }

  function EncodeWords(ns: seq<u16>): (bs: seq<byte>)
    ensures |bs| == 2 * |ns|
  {
    if ns == [] then [] else EncodeWords(ns[..|ns| - 1]) + LeBytes(ns[|ns| - 1], 2)
  }

  lemma {:induction false} ParseEncodeWords(ns: seq<u16>)
    ensures ParseWords(EncodeWords(ns)) == ns
  {
    if ns != [] {
      var front, last := ns[..|ns| - 1], ns[|ns| - 1];
      ConcatParts(EncodeWords(front), LeBytes(last, 2));
      ParseEncodeWords(front);
      LeValueOfBytes(last, 2);
      FrontLast(ns);
    }
  }

  lemma {:induction false} EncodeParseWords(bs: seq<byte>)
    requires |bs| % 2 == 0
    ensures EncodeWords(ParseWords(bs)) == bs
  {
    if bs != [] {
      var front, last := bs[..|bs| - 2], bs[|bs| - 2..];
      var ns := ParseWords(front) + [LeValue(last)];
      ConcatParts(ParseWords(front), [LeValue(last)]);
      EncodeParseWords(front);
      LeBytesOfValue(last);
      SplitAt(bs, |bs| - 2);
    }
  }

  // ---- envelope points, shared by both formats

  /** One (x, y) envelope breakpoint: `gba_envelope_point_t` and
      `xm_envelope_point_t` have the same 4-byte layout. */
  datatype EnvelopePoint = EnvelopePoint(x: u16, y: u16)

  /** The points stored in `2 * k` consecutive 16-bit words x0, y0, x1, ... */
  function PointsOfWords(ns: seq<u16>): (ps: seq<EnvelopePoint>)
    requires |ns| % 2 == 0
    ensures |ps| == |ns| / 2
  {
    seq(|ns| / 2, k requires 0 <= k < |ns| / 2 => EnvelopePoint(ns[2 * k], ns[2 * k + 1]))
  }

  function WordsOfPoints(ps: seq<EnvelopePoint>): (ns: seq<u16>)
    ensures |ns| == 2 * |ps|
  {
    seq(2 * |ps|, j requires 0 <= j < 2 * |ps| => if j % 2 == 0 then ps[j / 2].x else ps[j / 2].y)
  }

  lemma PointsOfWordsOfPoints(ps: seq<EnvelopePoint>)
    ensures PointsOfWords(WordsOfPoints(ps)) == ps
  {
    var ns := WordsOfPoints(ps);
    forall k | 0 <= k < |ps| ensures PointsOfWords(ns)[k] == ps[k] {
      assert (2 * k) % 2 == 0 && (2 * k) / 2 == k;
      assert (2 * k + 1) % 2 == 1 && (2 * k + 1) / 2 == k;
    }
  }

  lemma WordsOfPointsOfWords(ns: seq<u16>)
    requires |ns| % 2 == 0
    ensures WordsOfPoints(PointsOfWords(ns)) == ns
  {
    var w := WordsOfPoints(PointsOfWords(ns));
    forall j | 0 <= j < |ns| ensures w[j] == ns[j] {
      var k := j / 2;
      assert j == 2 * k + j % 2;
    }
  }

  /** The twelve envelope points of a record, stored as 48 bytes: x then
      y, each a little-endian u16. */
  function PointsOfBytes(bs: seq<byte>): (ps: seq<EnvelopePoint>)
    requires |bs| == 48
    ensures |ps| == 12
  {
    PointsOfWords(ParseWords(bs))
  }

  function PointsBytes(ps: seq<EnvelopePoint>): (bs: seq<byte>)
    ensures |bs| == 4 * |ps|
  {
    EncodeWords(WordsOfPoints(ps))
  }

  lemma PointsOfBytesOfPoints(ps: seq<EnvelopePoint>)
    requires |ps| == 12
    ensures PointsOfBytes(PointsBytes(ps)) == ps
  {
    ParseEncodeWords(WordsOfPoints(ps));
    PointsOfWordsOfPoints(ps);
  }

  lemma PointsBytesOfBytes(bs: seq<byte>)
    requires |bs| == 48
    ensures PointsBytes(PointsOfBytes(bs)) == bs
  {
    WordsOfPointsOfWords(ParseWords(bs));
    EncodeParseWords(bs);
  }
}
