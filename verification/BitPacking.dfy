/**
 The delta/bit-packing scheme the blocklist relies on.

 The `bitpacking` crate is an external dependency.  It is defined here by what the blocklist
 needs of it: differences modulo 2^32 from the previous value (less one in the "strictly sorted"
 form), every difference written with the same number of bits, and the resulting bit string cut
 into bytes.  Bits and bytes are little-endian.
 */
module BitPacking {

  const U32_RANGE: nat := 0x1_0000_0000
  type U32 = x: int | 0 <= x < U32_RANGE
  type Byte = x: int | 0 <= x < 256

  // ---------------------------------------------------------------------------------------------
  // Little-endian bytes of a 32-bit word
  // ---------------------------------------------------------------------------------------------

  function ToBytes(n: nat, len: nat): (bytes: seq<Byte>)
    ensures |bytes| == len
  {
    if len == 0 then [] else [n % 256] + ToBytes(n / 256, len - 1)
  }

  function FromBytes(bytes: seq<Byte>): nat {
    if bytes == [] then 0 else bytes[0] + 256 * FromBytes(bytes[1..])
  }

  function Pow256(len: nat): nat {
    if len == 0 then 1 else 256 * Pow256(len - 1)
  }

  lemma {:induction false} BytesRoundTrip(n: nat, len: nat)
    requires n < Pow256(len)
    ensures FromBytes(ToBytes(n, len)) == n
  {
    if len > 0 {
      BytesRoundTrip(n / 256, len - 1);
      assert ToBytes(n, len)[1..] == ToBytes(n / 256, len - 1);
    }
  }

  /** The first byte is the lowest. */
  lemma WordBytes(n: U32)
    ensures ToBytes(n, 4) == [n % 0x100, n / 0x100 % 0x100, n / 0x1_0000 % 0x100, n / 0x100_0000]
  {
    assert ToBytes(n / 0x100_0000, 1) == [n / 0x100_0000 % 0x100] + ToBytes(n / 0x100_0000 / 0x100, 0);
    assert ToBytes(n / 0x1_0000, 2) == [n / 0x1_0000 % 0x100] + ToBytes(n / 0x1_0000 / 0x100, 1);
    assert ToBytes(n / 0x100, 3) == [n / 0x100 % 0x100] + ToBytes(n / 0x100 / 0x100, 2);
  }

  lemma {:induction false} BytesAreWritten(bytes: seq<Byte>)
    ensures ToBytes(FromBytes(bytes), |bytes|) == bytes
  {
    if bytes != [] {
      BytesAreWritten(bytes[1..]);
    }
  }

  lemma WordRoundTrip(n: U32)
    ensures FromBytes(ToBytes(n, 4)) == n
  {
    assert Pow256(2) == 0x1_0000;
    assert Pow256(4) == U32_RANGE;
    BytesRoundTrip(n, 4);
  }

  // ---------------------------------------------------------------------------------------------
  // Bit strings
  // ---------------------------------------------------------------------------------------------

  function Pow2(e: nat): (p: nat)
    ensures p >= 1
  {
    if e == 0 then 1 else 2 * Pow2(e - 1)
  }

  function ToBits(n: nat, width: nat): (bits: seq<bool>)
    ensures |bits| == width
  {
    if width == 0 then [] else [n % 2 == 1] + ToBits(n / 2, width - 1)
  }

  function FromBits(bits: seq<bool>): (n: nat)
    ensures n < Pow2(|bits|)
  {
    if bits == [] then 0 else (if bits[0] then 1 else 0) + 2 * FromBits(bits[1..])
  }

  lemma {:induction false} FromToBits(n: nat, width: nat)
    requires n < Pow2(width)
    ensures FromBits(ToBits(n, width)) == n
  {
    if width > 0 {
      FromToBits(n / 2, width - 1);
    }
  }

  lemma {:induction false} ToFromBits(bits: seq<bool>)
    ensures ToBits(FromBits(bits), |bits|) == bits
  {
    if bits != [] {
      ToFromBits(bits[1..]);
    }
  }

  /** How many bits `n` needs; 0 needs none. */
  function BitsFor(n: nat): nat {
    if n == 0 then 0 else 1 + BitsFor(n / 2)
  }

  lemma {:induction false} BitsForIsLeast(n: nat, width: nat)
    ensures n < Pow2(width) <==> BitsFor(n) <= width
  {
    if n > 0 && width > 0 {
      BitsForIsLeast(n / 2, width - 1);
    }
  }

  // ---------------------------------------------------------------------------------------------
  // Cutting a sequence into equal pieces, and putting them back together
  // ---------------------------------------------------------------------------------------------

  function Flatten<T>(pieces: seq<seq<T>>): seq<T> {
    if pieces == [] then [] else pieces[0] + Flatten(pieces[1..])
  }

  function Cut<T>(xs: seq<T>, size: nat, count: nat): (pieces: seq<seq<T>>)
    requires |xs| == size * count
    ensures |pieces| == count && forall i :: 0 <= i < count ==> |pieces[i]| == size
    decreases count
  {
    if count == 0 then []
    else
      MulSuccessor(size, count - 1);
      [xs[..size]] + Cut(xs[size..], size, count - 1)
  }

  lemma MulSuccessor(a: nat, x: nat)
    ensures a * (x + 1) == a * x + a && a * x >= 0
  {}

  ghost predicate EachHas<T>(pieces: seq<seq<T>>, size: nat) {
    forall i :: 0 <= i < |pieces| ==> |pieces[i]| == size
  }

  lemma {:induction false} FlattenLength<T>(pieces: seq<seq<T>>, size: nat)
    requires EachHas(pieces, size)
    ensures |Flatten(pieces)| == size * |pieces|
  {
    if pieces != [] {
      assert EachHas(pieces[1..], size);
      FlattenLength(pieces[1..], size);
      MulSuccessor(size, |pieces| - 1);
    }
  }

  lemma {:induction false} CutFlatten<T>(pieces: seq<seq<T>>, size: nat)
    requires EachHas(pieces, size)
    ensures |Flatten(pieces)| == size * |pieces|
    ensures Cut(Flatten(pieces), size, |pieces|) == pieces
  {
    FlattenLength(pieces, size);
    if pieces != [] {
      assert EachHas(pieces[1..], size);
      CutFlatten(pieces[1..], size);
      assert Flatten(pieces)[size..] == Flatten(pieces[1..]);
      assert pieces == [pieces[0]] + pieces[1..];
    }
  }

  lemma {:induction false} FlattenCut<T>(xs: seq<T>, size: nat, count: nat)
    requires |xs| == size * count
    ensures Flatten(Cut(xs, size, count)) == xs
    decreases count
  {
    if count > 0 {
      MulSuccessor(size, count - 1);
      FlattenCut(xs[size..], size, count - 1);
      assert Cut(xs, size, count)[1..] == Cut(xs[size..], size, count - 1);
    }
  }

  lemma {:induction false} FlattenAppend<T>(a: seq<seq<T>>, b: seq<seq<T>>)
    ensures Flatten(a + b) == Flatten(a) + Flatten(b)
  {
    if a == [] {
      assert a + b == b;
    } else {
      assert (a + b)[1..] == a[1..] + b;
      FlattenAppend(a[1..], b);
    }
  }

  // ---------------------------------------------------------------------------------------------
  // Fixed-width packing
  // ---------------------------------------------------------------------------------------------

  ghost predicate Fits(values: seq<nat>, width: nat) {
    forall i :: 0 <= i < |values| ==> values[i] < Pow2(width)
  }

  function BitRows(values: seq<nat>, width: nat): (rows: seq<seq<bool>>)
    ensures |rows| == |values| && forall i :: 0 <= i < |rows| ==> rows[i] == ToBits(values[i], width)
  {
    seq(|values|, i requires 0 <= i < |values| => ToBits(values[i], width))
  }

  function Numbers(rows: seq<seq<bool>>): (values: seq<nat>)
    ensures |values| == |rows| && forall i :: 0 <= i < |rows| ==> values[i] == FromBits(rows[i])
  {
    seq(|rows|, i requires 0 <= i < |rows| => FromBits(rows[i]))
  }

  /** The bytes of `values`, `width` bits each; `packedLen` is the length in bytes. */
  function Pack(values: seq<nat>, width: nat, packedLen: nat): (bytes: seq<Byte>)
    requires width * |values| == 8 * packedLen
    ensures |bytes| == packedLen
  {
    FlattenLength(BitRows(values, width), width);
    var rows := Cut(Flatten(BitRows(values, width)), 8, packedLen);
    assert Pow2(8) == 256;
    seq(packedLen, i requires 0 <= i < packedLen => FromBits(rows[i]))
  }

  function Unpack(bytes: seq<Byte>, width: nat, count: nat): (values: seq<nat>)
    requires width * count == 8 * |bytes|
    ensures |values| == count && Fits(values, width)
  {
    FlattenLength(BitRows(bytes, 8), 8);
    Numbers(Cut(Flatten(BitRows(bytes, 8)), width, count))
  }

  lemma PackRoundTrip(values: seq<nat>, width: nat, packedLen: nat)
    requires width * |values| == 8 * packedLen && Fits(values, width)
    ensures Unpack(Pack(values, width, packedLen), width, |values|) == values
  {
    var rows := BitRows(values, width);
    CutFlatten(rows, width);
    var bits := Flatten(rows);
    var octets := Cut(bits, 8, packedLen);
    var bytes := Pack(values, width, packedLen);
    assert BitRows(bytes, 8) == octets by {
      forall i | 0 <= i < packedLen ensures ToBits(bytes[i], 8) == octets[i] {
        ToFromBits(octets[i]);
      }
    }
    FlattenCut(bits, 8, packedLen);
    forall i | 0 <= i < |values| ensures FromBits(rows[i]) == values[i] {
      FromToBits(values[i], width);
    }
  }

  // ---------------------------------------------------------------------------------------------
  // Differences
  // ---------------------------------------------------------------------------------------------

  /** Each value less its predecessor and less `gap`, modulo 2^32. */
  function Deltas(prev: U32, xs: seq<U32>, gap: nat): (ds: seq<U32>)
    ensures |ds| == |xs|
    decreases |xs|
  {
    if xs == [] then [] else [(xs[0] - prev - gap) % U32_RANGE] + Deltas(xs[0], xs[1..], gap)
  }

  function Undelta(prev: U32, ds: seq<nat>, gap: nat): (xs: seq<U32>)
    ensures |xs| == |ds|
    decreases |ds|
  {
    if ds == [] then []
    else
      var x := (prev + ds[0] + gap) % U32_RANGE;
      [x] + Undelta(x, ds[1..], gap)
  }

  lemma DeltaStep(prev: U32, x: U32, gap: nat)
    ensures (prev + (x - prev - gap) % U32_RANGE + gap) % U32_RANGE == x
  {}

  lemma {:induction false} DeltaRoundTrip(prev: U32, xs: seq<U32>, gap: nat)
    ensures Undelta(prev, Deltas(prev, xs, gap), gap) == xs
    decreases |xs|
  {
    if xs != [] {
      DeltaRoundTrip(xs[0], xs[1..], gap);
      DeltaStep(prev, xs[0], gap);
      var ds := Deltas(prev, xs, gap);
      assert ds[1..] == Deltas(xs[0], xs[1..], gap);
    }
  }

  lemma Pow2Of32()
    ensures Pow2(32) == U32_RANGE
  {
    assert Pow2(8) == 0x100;
    assert Pow2(16) == 0x1_0000;
    assert Pow2(24) == 0x100_0000;
  }

  /** The width that fits every difference of a block. */
  function WidthFor(ds: seq<U32>): (width: nat)
    ensures Fits(ds, width)
    ensures width <= 32
    ensures forall w: nat :: Fits(ds, w) ==> width <= w
  {
    assert Pow2(32) == U32_RANGE by { Pow2Of32(); }
    if ds == [] then 0
    else
      BitsForIsLeast(ds[0], 32);
      var w, rest := BitsFor(ds[0]), WidthFor(ds[1..]);
      var width := if w > rest then w else rest;
      assert Fits(ds, width) by {
        forall i | 0 <= i < |ds| ensures ds[i] < Pow2(width) {
          if i == 0 {
            BitsForIsLeast(ds[0], width);
          } else {
            BitsForIsLeast(ds[1..][i - 1], rest);
            BitsForIsLeast(ds[i], width);
          }
        }
      }
      assert forall w: nat :: Fits(ds, w) ==> width <= w by {
        forall w: nat | Fits(ds, w) ensures width <= w {
          assert ds[0] < Pow2(w);
          BitsForIsLeast(ds[0], w);
          assert Fits(ds[1..], w);
        }
      }
      width
  }
}
