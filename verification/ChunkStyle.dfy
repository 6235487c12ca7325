/**
 The chunk encoding of a blocklist: a tag byte, a width or a length, and block numbers either
 packed as differences or written out in full.  `IntoBytes` writes a chunk, `DecodePage` reads
 all the chunks of a page; a result of `None` stands for a panic.
 */
module ChunkStyle {
  import opened Wrappers
  import opened BitPacking

  datatype Tag =
    | Sorted1x | Sorted4x | Sorted8x
    | StrictlySorted1x | StrictlySorted4x | StrictlySorted8x
    | Uncompressed
  {
    function Code(): Byte {
      match this
      case Sorted1x => 0
      case Sorted4x => 1
      case Sorted8x => 2
      case StrictlySorted1x => 3
      case StrictlySorted4x => 4
      case StrictlySorted8x => 5
      case Uncompressed => 6
    }

    static function FromCode(code: Byte): (tag: Option<Tag>)
      ensures tag.Some? ==> tag.value.Code() == code
      ensures tag.None? ==> code > 6
    {
      match code
      case 0 => Some(Sorted1x)
      case 1 => Some(Sorted4x)
      case 2 => Some(Sorted8x)
      case 3 => Some(StrictlySorted1x)
      case 4 => Some(StrictlySorted4x)
      case 5 => Some(StrictlySorted8x)
      case 6 => Some(Uncompressed)
      case _ => None
    }

    /** How many values one packed block holds. */
    function BlockLen(): nat {
      match this
      case Sorted1x | StrictlySorted1x => 32
      case Sorted4x | StrictlySorted4x => 128
      case Sorted8x | StrictlySorted8x => 256
      case Uncompressed => 0
    }

    /** The bytes a packed block takes at the given width. */
    function PackedLen(numBits: nat): (len: nat)
      ensures numBits <= 32 ==> len <= 1024
    {
      match this
      case Sorted1x | StrictlySorted1x => 4 * numBits
      case Sorted4x | StrictlySorted4x => 16 * numBits
      case Sorted8x | StrictlySorted8x => 32 * numBits
      case Uncompressed => 0
    }

    lemma PackedLenIsExact(numBits: nat)
      ensures numBits * BlockLen() == 8 * PackedLen(numBits)
    {}

    predicate Strict() {
      StrictlySorted1x? || StrictlySorted4x? || StrictlySorted8x?
    }
  }

  datatype Chunk =
    | Packed(tag: Tag, numBits: Byte, initial: U32, bytes: seq<Byte>)
    | Plain(values: seq<U32>)
  {
    ghost predicate WellFormed() {
      match this
      case Packed(tag, numBits, _, bytes) =>
        tag != Uncompressed && numBits <= 32 && |bytes| == tag.PackedLen(numBits)
      case Plain(values) => |values| < 256
    }

    function ByteLen(): nat {
      match this
      case Packed(_, _, _, bytes) => 1 + 1 + 4 + |bytes|
      case Plain(values) => 1 + 1 + |values| * 4
    }

    function IntoBytes(): (r: seq<Byte>)
      ensures |r| == ByteLen()
    {
      match this
      case Packed(tag, numBits, initial, bytes) =>
        [tag.Code(), numBits] + ToBytes(initial, 4) + bytes
      case Plain(values) =>
        [Uncompressed.Code(), |values| % 256] + WordsToBytes(values)
    }

    /** The block numbers the chunk stands for. */
    ghost function Values(): seq<U32>
      requires WellFormed()
    {
      match this
      case Packed(tag, numBits, initial, bytes) => Decompress(tag, initial, bytes, numBits)
      case Plain(values) => values
    }
  }

  function WordsToBytes(words: seq<U32>): (bytes: seq<Byte>)
    ensures |bytes| == 4 * |words|
  {
    if words == [] then [] else ToBytes(words[0], 4) + WordsToBytes(words[1..])
  }

  function BytesToWords(bytes: seq<Byte>, count: nat): (words: seq<U32>)
    requires |bytes| >= 4 * count
    ensures |words| == count
  {
    if count == 0 then []
    else
      FromBytesBounded(bytes[..4]);
      [FromBytes(bytes[..4])] + BytesToWords(bytes[4..], count - 1)
  }

  lemma FromBytesBounded(bytes: seq<Byte>)
    requires |bytes| == 4
    ensures FromBytes(bytes) < U32_RANGE
  {
    assert FromBytes(bytes[2..]) < 0x1_0000 by {
      assert FromBytes(bytes[2..][1..]) == bytes[3] + 256 * FromBytes(bytes[2..][1..][1..]);
    }
    assert bytes[1..][1..] == bytes[2..];
  }

  lemma {:induction false} WordsRoundTrip(words: seq<U32>, rest: seq<Byte>)
    ensures BytesToWords(WordsToBytes(words) + rest, |words|) == words
  {
    if words != [] {
      var bytes := WordsToBytes(words) + rest;
      assert bytes[..4] == ToBytes(words[0], 4);
      assert bytes[4..] == WordsToBytes(words[1..]) + rest;
      WordRoundTrip(words[0]);
      WordsRoundTrip(words[1..], rest);
    }
  }

  // ---------------------------------------------------------------------------------------------
  // Packing a slice of the queue
  // ---------------------------------------------------------------------------------------------

  datatype Lanes = X1 | X4 | X8 {
    function BlockLen(): nat {
      match this case X1 => 32 case X4 => 128 case X8 => 256
    }

    function SortedTag(strictly: bool): (tag: Tag)
      ensures tag != Uncompressed && tag.Strict() == strictly && tag.BlockLen() == BlockLen()
    {
      match this
      case X1 => if strictly then StrictlySorted1x else Sorted1x
      case X4 => if strictly then StrictlySorted4x else Sorted4x
      case X8 => if strictly then StrictlySorted8x else Sorted8x
    }
  }

  predicate IsSorted(slice: seq<U32>) {
    forall i :: 0 < i < |slice| ==> slice[i - 1] <= slice[i]
  }

  /** The value before the first, as the packer sees it; "strictly" with no initial means -1. */
  function Before(initial: Option<U32>, strictly: bool): U32 {
    match initial
    case Some(v) => v
    case None => if strictly then U32_RANGE - 1 else 0
  }

  /** `pack_1x`, `pack_4x` and `pack_8x`: a nondecreasing slice takes the "strictly" form. */
  function PackSlice(lanes: Lanes, slice: seq<U32>, initial: Option<U32>): (c: Chunk)
    requires |slice| == lanes.BlockLen()
    ensures c.WellFormed() && c.ByteLen() <= 1030
  {
    var strictly := IsSorted(slice);
    var tag := lanes.SortedTag(strictly);
    var ds := Differences(slice, initial);
    var width := WidthFor(ds);
    tag.PackedLenIsExact(width);
    Packed(tag, width, if initial.Some? then initial.value else 0,
           BitPacking.Pack(ds, width, tag.PackedLen(width)))
  }

  function Differences(slice: seq<U32>, initial: Option<U32>): (ds: seq<U32>)
    ensures |ds| == |slice|
  {
    var strictly := IsSorted(slice);
    Deltas(Before(initial, strictly), slice, if strictly then 1 else 0)
  }

  function Decompress(tag: Tag, initial: U32, bytes: seq<Byte>, numBits: nat): (values: seq<U32>)
    requires |bytes| == tag.PackedLen(numBits)
    ensures |values| == tag.BlockLen()
  {
    tag.PackedLenIsExact(numBits);
    var known := if initial != 0 then Some(initial) else None;
    var before := if tag.Strict() then Before(known, true) else initial;
    Undelta(before, Unpack(bytes, numBits, tag.BlockLen()), if tag.Strict() then 1 else 0)
  }

  /**
   Packing loses nothing, whatever the order of the slice and of `initial`, provided the initial
   value is not 0, which the encoding keeps for "none".
   */
  lemma PackSliceRoundTrip(lanes: Lanes, slice: seq<U32>, initial: Option<U32>)
    requires |slice| == lanes.BlockLen()
    requires initial != Some(0)
    ensures PackSlice(lanes, slice, initial).Values() == slice
  {
    var ds := Differences(slice, initial);
    var width := WidthFor(ds);
    lanes.SortedTag(IsSorted(slice)).PackedLenIsExact(width);
    PackRoundTrip(ds, width, lanes.SortedTag(IsSorted(slice)).PackedLen(width));
    DeltaRoundTrip(Before(initial, IsSorted(slice)), slice, if IsSorted(slice) then 1 else 0);
  }

  /**
   Exactly then: a nondecreasing slice packed behind an initial value of 0 reads back wrong.  The
   builder never does that, because block 0 is never pushed.
   */
  lemma PackSliceIsExact(lanes: Lanes, slice: seq<U32>, initial: Option<U32>)
    requires |slice| == lanes.BlockLen()
    ensures PackSlice(lanes, slice, initial).Values() == slice <==> initial != Some(0) || !IsSorted(slice)
  {
    hide Pack, Unpack, Undelta, Deltas, WidthFor, IsSorted, Tag.PackedLen;
    if initial != Some(0) {
      PackSliceRoundTrip(lanes, slice, initial);
    } else {
      var strictly := IsSorted(slice);
      var gap := if strictly then 1 else 0;
      var ds := Differences(slice, initial);
      var width := WidthFor(ds);
      lanes.SortedTag(strictly).PackedLenIsExact(width);
      PackRoundTrip(ds, width, lanes.SortedTag(strictly).PackedLen(width));
      DeltaRoundTrip(0, slice, gap);
      WrongStart(slice);
    }
  }

  /** Undoing differences from 0 as if they were from -1 goes wrong at once. */
  lemma WrongStart(slice: seq<U32>)
    requires slice != []
    ensures Undelta(U32_RANGE - 1, Deltas(0, slice, 1), 1) != slice
  {
    var x := (slice[0] - 1) % U32_RANGE;
    assert Deltas(0, slice, 1)[0] == x;
    assert Undelta(U32_RANGE - 1, Deltas(0, slice, 1), 1)[0] == (U32_RANGE - 1 + x + 1) % U32_RANGE;
  }

  // ---------------------------------------------------------------------------------------------
  // Reading
  // ---------------------------------------------------------------------------------------------

  /** One chunk at the front of `s`, with the number of bytes it takes. */
  function DecodeChunk(s: seq<Byte>): (r: Option<(seq<U32>, nat)>)
    ensures r.Some? ==> 0 < r.value.1 <= |s|
  {
    if |s| == 0 then None
    else
      match Tag.FromCode(s[0])
      case None => None
      case Some(Uncompressed) =>
        if |s| < 2 then None
        else
          var len: nat := s[1];
          if |s| < 2 + 4 * len then None
          else Some((BytesToWords(s[2..], len), 2 + 4 * len))
      case Some(tag) =>
        if |s| < 6 || s[1] > 32 then None
        else
          var packedLen := tag.PackedLen(s[1]);
          if |s| < 6 + packedLen then None
          else
            FromBytesBounded(s[2..6]);
            Some((Decompress(tag, FromBytes(s[2..6]), s[6..6 + packedLen], s[1]), 6 + packedLen))
  }

  lemma DecodePacked(c: Chunk, rest: seq<Byte>)
    requires c.WellFormed() && c.Packed?
    ensures DecodeChunk(c.IntoBytes() + rest) == Some((c.Values(), c.ByteLen()))
  {
    hide ToBytes, FromBytes, WordsToBytes, BytesToWords, Decompress;
    var s := c.IntoBytes() + rest;
    assert s[0] == c.tag.Code() && s[1] == c.numBits;
    assert s[2..6] == ToBytes(c.initial, 4);
    assert s[6..6 + |c.bytes|] == c.bytes;
    WordRoundTrip(c.initial);
    assert Tag.FromCode(s[0]) == Some(c.tag);
  }

  lemma DecodePlain(c: Chunk, rest: seq<Byte>)
    requires c.WellFormed() && c.Plain?
    ensures DecodeChunk(c.IntoBytes() + rest) == Some((c.Values(), c.ByteLen()))
  {
    hide ToBytes, FromBytes, WordsToBytes, BytesToWords, Decompress;
    var s := c.IntoBytes() + rest;
    assert s[0] == Uncompressed.Code() && s[1] == |c.values|;
    assert Tag.FromCode(s[0]) == Some(Uncompressed);
    assert s[2..] == WordsToBytes(c.values) + rest;
    WordsRoundTrip(c.values, rest);
  }

  lemma DecodeIntoBytes(c: Chunk, rest: seq<Byte>)
    requires c.WellFormed()
    ensures DecodeChunk(c.IntoBytes() + rest) == Some((c.Values(), c.ByteLen()))
  {
    if c.Packed? {
      DecodePacked(c, rest);
    } else {
      DecodePlain(c, rest);
    }
  }

  /** And nothing else can be read: bytes that begin with no chunk are a panic. */
  lemma DecodesIffChunk(s: seq<Byte>)
    ensures DecodeChunk(s).Some? <==> exists c: Chunk, rest: seq<Byte> :: c.WellFormed() && s == c.IntoBytes() + rest
  {
    if DecodeChunk(s).Some? {
      var c, rest := ChunkAtFront(s);
    } else if c: Chunk, rest: seq<Byte> :| c.WellFormed() && s == c.IntoBytes() + rest {
      DecodeIntoBytes(c, rest);
    }
  }

  lemma ChunkAtFront(s: seq<Byte>) returns (c: Chunk, rest: seq<Byte>)
    requires DecodeChunk(s).Some?
    ensures c.WellFormed() && s == c.IntoBytes() + rest
  {
    hide ToBytes, FromBytes, Decompress, WordsToBytes, BytesToWords;
    var tag := Tag.FromCode(s[0]).value;
    if tag == Uncompressed {
      var len: nat := s[1];
      c, rest := Plain(BytesToWords(s[2..], len)), s[2 + 4 * len..];
      WordsAreWritten(s[2..], len);
      assert s == [s[0], s[1]] + s[2..][..4 * len] + rest;
    } else {
      var packedLen := tag.PackedLen(s[1]);
      FromBytesBounded(s[2..6]);
      c, rest := Packed(tag, s[1], FromBytes(s[2..6]), s[6..6 + packedLen]), s[6 + packedLen..];
      BytesAreWritten(s[2..6]);
      assert s == [s[0], s[1]] + s[2..6] + s[6..6 + packedLen] + rest;
    }
  }

  lemma {:induction false} WordsAreWritten(bytes: seq<Byte>, count: nat)
    requires |bytes| >= 4 * count
    ensures WordsToBytes(BytesToWords(bytes, count)) == bytes[..4 * count]
  {
    if count > 0 {
      FromBytesBounded(bytes[..4]);
      BytesAreWritten(bytes[..4]);
      WordsAreWritten(bytes[4..], count - 1);
      assert BytesToWords(bytes, count)[1..] == BytesToWords(bytes[4..], count - 1);
      assert bytes[..4 * count] == bytes[..4] + bytes[4..][..4 * (count - 1)];
    }
  }

  /** A page is read chunk by chunk until the offset reaches its end. */
  function DecodePage(s: seq<Byte>): Option<seq<U32>>
    decreases |s|
  {
    match DecodeChunk(s)
    case None => None
    case Some((values, n)) =>
      if n >= |s| then Some(values)
      else
        match DecodePage(s[n..])
        case None => None
        case Some(more) => Some(values + more)
  }

  function EncodeAll(chunks: seq<Chunk>): seq<Byte> {
    if chunks == [] then [] else chunks[0].IntoBytes() + EncodeAll(chunks[1..])
  }

  ghost predicate AllWellFormed(chunks: seq<Chunk>) {
    forall i :: 0 <= i < |chunks| ==> chunks[i].WellFormed()
  }

  ghost function ValuesOf(chunks: seq<Chunk>): seq<U32>
    requires AllWellFormed(chunks)
  {
    if chunks == [] then [] else chunks[0].Values() + ValuesOf(chunks[1..])
  }

  /** The decoder consumes a page exactly: no chunk is lost, repeated or read past the end. */
  lemma {:induction false} DecodeEncodedPage(chunks: seq<Chunk>)
    requires chunks != [] && AllWellFormed(chunks)
    ensures DecodePage(EncodeAll(chunks)) == Some(ValuesOf(chunks))
  {
    var s := EncodeAll(chunks);
    var tail := chunks[1..];
    DecodeIntoBytes(chunks[0], EncodeAll(tail));
    assert s[chunks[0].ByteLen()..] == EncodeAll(tail);
    if tail != [] {
      assert EncodeAll(tail) == tail[0].IntoBytes() + EncodeAll(tail[1..]);
      DecodeEncodedPage(tail);
    } else {
      assert ValuesOf(chunks) == chunks[0].Values();
    }
  }

  lemma {:induction false} EncodeAllAppend(chunks: seq<Chunk>, c: Chunk)
    ensures EncodeAll(chunks + [c]) == EncodeAll(chunks) + c.IntoBytes()
  {
    if chunks == [] {
      assert EncodeAll([c]) == c.IntoBytes() + [];
    } else {
      assert (chunks + [c])[1..] == chunks[1..] + [c];
      EncodeAllAppend(chunks[1..], c);
    }
  }

  lemma {:induction false} ValuesOfAppend(a: seq<Chunk>, b: seq<Chunk>)
    requires AllWellFormed(a) && AllWellFormed(b)
    ensures AllWellFormed(a + b) && ValuesOf(a + b) == ValuesOf(a) + ValuesOf(b)
  {
    if a == [] {
      assert a + b == b;
    } else {
      assert (a + b)[1..] == a[1..] + b;
      ValuesOfAppend(a[1..], b);
    }
  }

  lemma ValuesOfOne(c: Chunk)
    requires c.WellFormed()
    ensures ValuesOf([c]) == c.Values()
  {
    assert ValuesOf([c]) == c.Values() + ValuesOf([]);
  }
}
