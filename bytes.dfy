/** Bytes, little-endian integers, and the positioned byte input that every
    codec reads from. A C `FILE*` stream is modelled as the whole file
    (`data`) plus a position; a position may lie past the end of the file
    (seeking there succeeds), and only a read that needs bytes beyond the end
    fails, with `TruncatedInput`. */
module Bytes {

  type byte = x: int | 0 <= x < 0x100
  type u16 = x: int | 0 <= x < 0x1_0000
  type u32 = x: int | 0 <= x < 0x1_0000_0000
  type i8 = x: int | -0x80 <= x < 0x80

  /** The failures a decoder can report. */
  datatype Error =
    | TruncatedInput     // fewer bytes remain than a read needs
    | UnsupportedLayout  // a declared count the format's fixed tables cannot hold
    | Implausible        // a field value the bank scanner does not accept

  datatype Result<+T> = Ok(value: T) | Err(error: Error) {
    predicate IsFailure() {
      Err?
    }

    function PropagateFailure<U>(): Result<U>
      requires Err?
    {
      Err(error)
    }

    function Extract(): T
      requires Ok?
    {
      value
    }
  }

  function Pow256(n: nat): (r: nat)
    ensures r > 0
  {
    if n == 0 then 1 else 0x100 * Pow256(n - 1)
  }

  /** The unsigned value of `bs`, least significant byte first. */
  function LeValue(bs: seq<byte>): (v: nat)
    ensures v < Pow256(|bs|)
  {
    if bs == [] then 0 else bs[0] + 0x100 * LeValue(bs[1..])
  }

  /** The `n` low bytes of `v`, least significant first: how a C integer of
      `n` bytes is laid out on a little-endian machine. */
  function LeBytes(v: nat, n: nat): (bs: seq<byte>)
    ensures |bs| == n
  {
    if n == 0 then [] else [v % 0x100] + LeBytes(v / 0x100, n - 1)
  }

  lemma {:induction false} LeValueOfBytes(v: nat, n: nat)
    requires v < Pow256(n)
    ensures LeValue(LeBytes(v, n)) == v
  {
    if n > 0 {
      LeValueOfBytes(v / 0x100, n - 1);
      assert LeBytes(v, n)[1..] == LeBytes(v / 0x100, n - 1);
    }
  }

  lemma {:induction false} LeBytesOfValue(bs: seq<byte>)
    ensures LeBytes(LeValue(bs), |bs|) == bs
  {
    if bs != [] {
      var v := LeValue(bs);
      assert v % 0x100 == bs[0] && v / 0x100 == LeValue(bs[1..]);
      LeBytesOfValue(bs[1..]);
    }
  }

  /** The reinterpretation of a raw byte as C's `int8_t` (two's complement). */
  function AsSigned(b: byte): (x: i8)
    ensures x % 0x100 == b
  {
    if b < 0x80 then b else b - 0x100
  }

  /** The raw byte that holds the `int8_t` value `x`. */
  function AsUnsigned(x: i8): (b: byte)
    ensures AsSigned(b) == x
  {
    if x >= 0 then x else x + 0x100
  }

  lemma SignedUnsignedInverse(b: byte)
    ensures AsUnsigned(AsSigned(b)) == b
  {
  }

  /** A non-empty sequence is its front followed by its last element. */
  lemma FrontLast<T>(s: seq<T>)
    requires s != []
    ensures s == s[..|s| - 1] + [s[|s| - 1]]
  {
  }

  lemma SplitAt<T>(s: seq<T>, k: nat)
    requires k <= |s|
    ensures s == s[..k] + s[k..]
  {
  }

  /** The two parts of a concatenation are recovered by slicing it. */
  lemma ConcatParts<T>(a: seq<T>, b: seq<T>)
    ensures (a + b)[..|a|] == a && (a + b)[|a|..] == b
  {
  }

  /** Two adjacent slices join into one. */
  lemma SliceJoin<T>(s: seq<T>, i: nat, j: nat, k: nat)
    requires i <= j <= k <= |s|
    ensures s[i..j] + s[j..k] == s[i..k]
  {
  }

  /** The bytes of `data` from position `pos` on begin with `bs`. */
  predicate At(data: seq<byte>, pos: nat, bs: seq<byte>) {
    pos + |bs| <= |data| && data[pos..pos + |bs|] == bs
  }

  lemma AtConcat(data: seq<byte>, pos: nat, a: seq<byte>, b: seq<byte>)
    requires At(data, pos, a + b)
    ensures At(data, pos, a) && At(data, pos + |a|, b)
  {
    assert data[pos..pos + |a|] == (a + b)[..|a|];
    assert data[pos + |a|..pos + |a| + |b|] == (a + b)[|a|..];
  }

  lemma AtWhole(data: seq<byte>)
    ensures At(data, 0, data)
  {
    assert data[0..|data|] == data;
  }

  lemma AtConcat3(data: seq<byte>, pos: nat, a: seq<byte>, b: seq<byte>, c: seq<byte>)
    requires At(data, pos, a + b + c)
    ensures At(data, pos, a) && At(data, pos + |a|, b) && At(data, pos + |a| + |b|, c)
  {
    AtConcat(data, pos, a + b, c);
    AtConcat(data, pos, a, b);
  }

  /** `count` bytes read at `pos`, one at a time: a read of no bytes
      succeeds wherever the stream is, and any other read that would pass
      the end fails. */
  function ReadBytes(data: seq<byte>, pos: nat, count: nat): (r: Result<seq<byte>>)
    ensures r.Ok? <==> count == 0 || pos + count <= |data|
    ensures r.Ok? ==> |r.value| == count
    ensures r.Ok? && pos + count <= |data| ==> At(data, pos, r.value)
  {
    if count == 0 then Ok([])
    else if pos + count <= |data| then Ok(data[pos..pos + count])
    else Err(TruncatedInput)
  }

  /** Read back: the bytes that lie at `pos` are what a read of their
      length there gives. */
  lemma ReadBytesAt(data: seq<byte>, pos: nat, bs: seq<byte>)
    requires At(data, pos, bs)
    ensures ReadBytes(data, pos, |bs|) == Ok(bs)
  {
  }

  function ReadU8(data: seq<byte>, pos: nat): (r: Result<byte>)
    ensures r.Ok? <==> pos < |data|
    ensures r.Ok? ==> At(data, pos, [r.value])
  {
    if pos < |data| then Ok(data[pos]) else Err(TruncatedInput)
  }

  function ReadU16(data: seq<byte>, pos: nat): (r: Result<u16>)
    ensures r.Ok? <==> pos + 2 <= |data|
    ensures r.Ok? ==> At(data, pos, LeBytes(r.value, 2))
  {
    var bs :- ReadBytes(data, pos, 2);
    LeBytesOfValue(bs);
    Ok(LeValue(bs))
  }

  function ReadU32(data: seq<byte>, pos: nat): (r: Result<u32>)
    ensures r.Ok? <==> pos + 4 <= |data|
    ensures r.Ok? ==> At(data, pos, LeBytes(r.value, 4))
  {
    var bs :- ReadBytes(data, pos, 4);
    LeBytesOfValue(bs);
    Ok(LeValue(bs))
  }

  /** A 4-byte little-endian value read back from its encoding. */
  lemma ReadU32OfBytes(data: seq<byte>, pos: nat, v: u32)
    requires At(data, pos, LeBytes(v, 4))
    ensures ReadU32(data, pos) == Ok(v)
  {
    LeValueOfBytes(v, 4);
  }

  // ---- sequential reads

  /** `count` items read one after another from `pos`: `step` reads one
      item at a position and gives the position after it. The first read
      that fails decides the error. */
  function Repeat<T>(step: nat -> Result<(T, nat)>, pos: nat, count: nat): (r: Result<(seq<T>, nat)>)
    ensures r.Ok? ==> |r.value.0| == count
  {
    if count == 0 then Ok(([], pos))
    else
      var front :- Repeat(step, pos, count - 1);
      var last :- step(front.1);
      Ok((front.0 + [last.0], last.1))
  }

  lemma RepeatFailsStep<T>(step: nat -> Result<(T, nat)>, pos: nat, k: nat, n: nat)
    requires k < n && Repeat(step, pos, k).Err? && Repeat(step, pos, n - 1) == Repeat(step, pos, k)
    ensures Repeat(step, pos, n) == Repeat(step, pos, k)
  {
  }

  /** Once the first `k` reads fail, any longer run fails the same way. */
  lemma {:induction false} RepeatFails<T>(step: nat -> Result<(T, nat)>, pos: nat, k: nat, n: nat)
    requires k <= n && Repeat(step, pos, k).Err?
    ensures Repeat(step, pos, n) == Repeat(step, pos, k)
    decreases n
  {
    if k < n {
      RepeatFails(step, pos, k, n - 1);
      RepeatFailsStep(step, pos, k, n);
    }
  }

  /** One more successful read extends the run by its item. */
  lemma RepeatSnoc<T>(step: nat -> Result<(T, nat)>, pos: nat, k: nat, items: seq<T>, p: nat, item: T, q: nat)
    requires Repeat(step, pos, k) == Ok((items, p)) && step(p) == Ok((item, q))
    ensures Repeat(step, pos, k + 1) == Ok((items + [item], q))
  {
  }

  /** A failed read after `k` good ones ends every longer run with its error. */
  lemma RepeatStop<T>(step: nat -> Result<(T, nat)>, pos: nat, k: nat, n: nat, items: seq<T>, p: nat)
    requires k < n && Repeat(step, pos, k) == Ok((items, p)) && step(p).Err?
    ensures Repeat(step, pos, n) == Err(step(p).error)
  {
    RepeatFails(step, pos, k + 1, n);
  }

  /** Every read of `step` moves the position by exactly `width`. */
  ghost predicate Strided<T>(step: nat -> Result<(T, nat)>, width: nat) {
    forall p: nat :: step(p).Ok? ==> step(p).value.1 == p + width
  }

  /** For reads of fixed width, item `i` is the read at `pos + width * i`:
      the run succeeds exactly when each of those reads does, and it ends
      `width * count` bytes after `pos`. */
  lemma {:induction false} RepeatStrided<T>(step: nat -> Result<(T, nat)>, width: nat, pos: nat, count: nat)
    requires Strided(step, width)
    ensures Repeat(step, pos, count).Ok? <==> forall i :: 0 <= i < count ==> step(pos + width * i).Ok?
    ensures Repeat(step, pos, count).Ok? ==> Repeat(step, pos, count).value.1 == pos + width * count
    ensures Repeat(step, pos, count).Ok? ==> forall i :: 0 <= i < count ==>
      step(pos + width * i) == Ok((Repeat(step, pos, count).value.0[i], pos + width * (i + 1)))
  {
    if count > 0 {
      var n := count - 1;
      RepeatStrided(step, width, pos, n);
      assert width * count == width * n + width;
      var front := Repeat(step, pos, n);
      if front.Ok? {
        var last := step(pos + width * n);
        if last.Ok? {
          assert Repeat(step, pos, count) == Ok((front.value.0 + [last.value.0], last.value.1));
          StridedItemsSnoc(step, width, pos, n, front.value.0, last.value.0);
        }
      }
    }
  }

  /** The items of `n` strided reads, then the read right after them. */
  lemma StridedItemsSnoc<T>(step: nat -> Result<(T, nat)>, width: nat, pos: nat, n: nat, items: seq<T>, x: T)
    requires |items| == n
    requires forall i :: 0 <= i < n ==> step(pos + width * i) == Ok((items[i], pos + width * (i + 1)))
    requires step(pos + width * n) == Ok((x, pos + width * (n + 1)))
    ensures forall i :: 0 <= i < n + 1 ==> step(pos + width * i) == Ok(((items + [x])[i], pos + width * (i + 1)))
  {
    forall i | 0 <= i < n + 1
      ensures step(pos + width * i) == Ok(((items + [x])[i], pos + width * (i + 1)))
    {
      if i < n {
        assert (items + [x])[i] == items[i];
      }
    }
  }

  /** The reads of a successful run are linked: item `i` is read at
      position `ps[i]` and the next read starts where it ended. */
  lemma {:induction false} RepeatChain<T>(step: nat -> Result<(T, nat)>, pos: nat, count: nat) returns (ps: seq<nat>)
    requires Repeat(step, pos, count).Ok?
    ensures |ps| == count + 1 && ps[0] == pos && ps[count] == Repeat(step, pos, count).value.1
    ensures forall i :: 0 <= i < count ==> step(ps[i]) == Ok((Repeat(step, pos, count).value.0[i], ps[i + 1]))
  {
    if count == 0 {
      ps := [pos];
    } else {
      var front := Repeat(step, pos, count - 1);
      var last := step(front.value.1);
      var items := front.value.0 + [last.value.0];
      assert Repeat(step, pos, count) == Ok((items, last.value.1));
      var qs := RepeatChain(step, pos, count - 1);
      ps := qs + [last.value.1];
      forall i | 0 <= i < count
        ensures step(ps[i]) == Ok((items[i], ps[i + 1]))
      {
        if i < count - 1 {
          assert items[i] == front.value.0[i];
        }
      }
    }
  }

  /** Every item of a successful run has each property that every
      successful read gives its item. */
  lemma {:induction false} RepeatAll<T>(step: nat -> Result<(T, nat)>, ok: T -> bool, pos: nat, count: nat)
    requires forall p: nat :: step(p).Ok? ==> ok(step(p).value.0)
    requires Repeat(step, pos, count).Ok?
    ensures forall i :: 0 <= i < count ==> ok(Repeat(step, pos, count).value.0[i])
  {
    if count > 0 {
      RepeatAll(step, ok, pos, count - 1);
      var front := Repeat(step, pos, count - 1);
      var last := step(front.value.1);
      var items := front.value.0 + [last.value.0];
      assert Repeat(step, pos, count) == Ok((items, last.value.1));
      forall i | 0 <= i < count ensures ok(items[i]) {
        if i < count - 1 {
          assert items[i] == front.value.0[i];
        }
      }
    }
  }

  // ---- sequential writes

  /** The encodings `f` of `items`, one after another. */
  function Flatten<T>(f: T -> seq<byte>, items: seq<T>): seq<byte>
  {
    if items == [] then [] else Flatten(f, items[..|items| - 1]) + f(items[|items| - 1])
  }

  /** Writing one more item appends its encoding. */
  lemma FlattenSnoc<T>(f: T -> seq<byte>, items: seq<T>, x: T)
    ensures Flatten(f, items + [x]) == Flatten(f, items) + f(x)
  {
    assert (items + [x])[..|items|] == items;
  }

  /** When every item has an encoding of `width` bytes, the whole run
      takes `width * |items|` bytes. */
  lemma {:induction false} FlattenLength<T>(f: T -> seq<byte>, width: nat, items: seq<T>)
    requires forall i :: 0 <= i < |items| ==> |f(items[i])| == width
    ensures |Flatten(f, items)| == width * |items|
  {
    if items != [] {
      var n := |items| - 1;
      var front := items[..n];
      assert forall i :: 0 <= i < |front| ==> front[i] == items[i];
      FlattenLength(f, width, front);
      assert |f(items[n])| == width;
      assert width * |items| == width * n + width;
    }
  }

  /** When every item has an encoding of `lo` to `hi` bytes, the whole
      run takes `lo * |items|` to `hi * |items|` bytes. */
  lemma {:induction false} FlattenBounds<T>(f: T -> seq<byte>, lo: nat, hi: nat, items: seq<T>)
    requires forall i :: 0 <= i < |items| ==> lo <= |f(items[i])| <= hi
    ensures lo * |items| <= |Flatten(f, items)| <= hi * |items|
  {
    if items != [] {
      var n := |items| - 1;
      var front := items[..n];
      assert forall i :: 0 <= i < |front| ==> front[i] == items[i];
      FlattenBounds(f, lo, hi, front);
      assert lo <= |f(items[n])| <= hi;
      assert lo * |items| == lo * n + lo && hi * |items| == hi * n + hi;
    }
  }

  /** The encoding of each item lies inside the encoding of the run. */
  lemma {:induction false} FlattenCovers<T>(f: T -> seq<byte>, items: seq<T>, i: nat)
    requires i < |items|
    ensures |f(items[i])| <= |Flatten(f, items)|
  {
    var front := items[..|items| - 1];
    if i < |front| {
      assert front[i] == items[i];
      FlattenCovers(f, front, i);
    }
  }

  /** `step` reads `v` back from the encoding `f(x)` at `p`, and ends
      right after it: the encoding of `x` is read as the value `v`. */
  ghost predicate ReadsBackAs<T, V>(step: nat -> Result<(V, nat)>, f: T -> seq<byte>, data: seq<byte>, p: nat, x: T, v: V) {
    At(data, p, f(x)) ==> step(p).Ok? && step(p).value.0 == v && step(p).value.1 == p + |f(x)|
  }

  /** `step` reads `x` back from its encoding `f(x)` at `p`, and ends
      right after it. */
  ghost predicate ReadsBack<T>(step: nat -> Result<(T, nat)>, f: T -> seq<byte>, data: seq<byte>, p: nat, x: T) {
    ReadsBackAs(step, f, data, p, x, x)
  }

  /** If `step` reads every item as its view when it meets the item's
      encoding `f`, then `Repeat` reads a whole run of encoded items as
      their views, and ends right after their encodings. */
  lemma {:induction false} RepeatReadsBackAs<T, V>(step: nat -> Result<(V, nat)>, f: T -> seq<byte>,
                                                   data: seq<byte>, pos: nat, items: seq<T>, views: seq<V>)
    requires |views| == |items|
    requires forall p: nat, i :: 0 <= i < |items| ==> ReadsBackAs(step, f, data, p, items[i], views[i])
    requires At(data, pos, Flatten(f, items))
    ensures var r := Repeat(step, pos, |items|); r.Ok? && r.value.0 == views && r.value.1 == pos + |Flatten(f, items)|
  {
    if items != [] {
      var n := |items| - 1;
      var front, last := items[..n], items[n];
      assert forall i :: 0 <= i < |front| ==> front[i] == items[i] && views[..n][i] == views[i];
      AtConcat(data, pos, Flatten(f, front), f(last));
      RepeatReadsBackAs(step, f, data, pos, front, views[..n]);
      var q := pos + |Flatten(f, front)|;
      assert ReadsBackAs(step, f, data, q, last, views[n]);
      assert views[..n] + [views[n]] == views;
    }
  }

  /** If `step` reads every item back from its encoding `f`, then
      `Repeat` reads a whole run of encoded items back, and ends right after
      their encodings. */
  lemma RepeatReadsBack<T>(step: nat -> Result<(T, nat)>, f: T -> seq<byte>,
                           data: seq<byte>, pos: nat, items: seq<T>)
    requires forall p: nat, i :: 0 <= i < |items| ==> ReadsBack(step, f, data, p, items[i])
    requires At(data, pos, Flatten(f, items))
    ensures var r := Repeat(step, pos, |items|); r.Ok? && r.value.0 == items && r.value.1 == pos + |Flatten(f, items)|
  {
    forall p: nat, i | 0 <= i < |items|
      ensures ReadsBackAs(step, f, data, p, items[i], items[i])
    {
      assert ReadsBack(step, f, data, p, items[i]);
    }
    RepeatReadsBackAs(step, f, data, pos, items, items);
  }
}
