/** The sample index stored at the tail of a media file, and its in-memory form. */
module SampleIndex {
  import opened Common

  const SEPARATOR := -1
  const META_LEN_BYTES := 4
  const KEY_FRAME_FLAG := 1
  const P_FRAME_FLAG := 0

  /** One packet: its length and its offset from the start of the file. */
  datatype RtpMeta = RtpMeta(len: int, offset: int)

  /** The value of a VideoSampleInfo. */
  datatype VideoInfo = VideoInfo(packets: seq<RtpMeta>, size: int, offset: int, flag: int)

  predicate Int16(x: int)
  {
    -0x8000 <= x < 0x8000
  }

  // --------------------------------------------------- metadata bytes to sizes

  /** Big-endian signed 16-bit numbers. */
  function Sizes(metaData: seq<byte>): seq<int>
    requires |metaData| % 2 == 0
  {
    if metaData == [] then []
    else [ToInt16(U16(metaData[0], metaData[1]))] + Sizes(metaData[2..])
  }

  function HighByte(x: int): byte
  {
    (x % 0x1_0000) / 256
  }

  function LowByte(x: int): byte
  {
    x % 256
  }

  lemma WordValue(x: int)
    ensures U16(HighByte(x), LowByte(x)) == x % 0x1_0000
  {
    var q, y := x / 0x1_0000, x % 0x1_0000;
    var high, low := y / 256, y % 256;
    assert y == 256 * high + low;
    assert x == (256 * q + high) * 256 + low;
    DivModUnique(x, 256 * q + high, low, 256);
  }

  lemma SignedOfUnsigned(u: int)
    requires 0 <= u < 0x1_0000
    ensures ToInt16(u) == if u < 0x8000 then u else u - 0x1_0000
  {
    if u < 0x8000 {
      DivModUnique(u + 0x8000, 0, u + 0x8000, 0x1_0000);
    } else {
      DivModUnique(u + 0x8000, 1, u - 0x8000, 0x1_0000);
    }
  }

  lemma UnsignedOfSigned(x: int)
    requires Int16(x)
    ensures x % 0x1_0000 == if x >= 0 then x else x + 0x1_0000
  {
    if x >= 0 { DivModUnique(x, 0, x, 0x1_0000); } else { DivModUnique(x, -1, x + 0x1_0000, 0x1_0000); }
  }

  lemma WordToBytes(x: int)
    requires Int16(x)
    ensures ToInt16(U16(HighByte(x), LowByte(x))) == x
  {
    WordValue(x);
    UnsignedOfSigned(x);
    SignedOfUnsigned(x % 0x1_0000);
  }

  lemma BytesToWord(high: byte, low: byte)
    ensures Int16(ToInt16(U16(high, low)))
    ensures HighByte(ToInt16(U16(high, low))) == high && LowByte(ToInt16(U16(high, low))) == low
  {
    var u := U16(high, low);
    SignedOfUnsigned(u);
    var w := ToInt16(u);
    UnsignedOfSigned(w);
    DivModUnique(u, high, low, 256);
    DivModUnique(w, if u < 0x8000 then high else (high as int) - 256, low, 256);
  }

  function Serialize(sizes: seq<int>): seq<byte>
  {
    if sizes == [] then []
    else [HighByte(sizes[0]), LowByte(sizes[0])] + Serialize(sizes[1..])
  }

  lemma {:induction false} SizesOfSerialize(sizes: seq<int>)
    requires forall i :: 0 <= i < |sizes| ==> Int16(sizes[i])
    ensures |Serialize(sizes)| == 2 * |sizes| && Sizes(Serialize(sizes)) == sizes
  {
    if sizes != [] {
      SizesOfSerialize(sizes[1..]);
      WordToBytes(sizes[0]);
      var head, tail := [HighByte(sizes[0]), LowByte(sizes[0])], Serialize(sizes[1..]);
      assert Serialize(sizes) == head + tail && (head + tail)[2..] == tail;
    }
  }

  lemma {:induction false} SerializeOfSizes(metaData: seq<byte>)
    requires |metaData| % 2 == 0
    ensures Serialize(Sizes(metaData)) == metaData
    ensures forall i :: 0 <= i < |Sizes(metaData)| ==> Int16(Sizes(metaData)[i])
  {
    if metaData != [] {
      SerializeOfSizes(metaData[2..]);
      var w := ToInt16(U16(metaData[0], metaData[1]));
      BytesToWord(metaData[0], metaData[1]);
      assert ([w] + Sizes(metaData[2..]))[1..] == Sizes(metaData[2..]);
      assert Serialize(Sizes(metaData)) == [metaData[0], metaData[1]] + metaData[2..];
    }
  }

  method GetSizes(metaData: seq<byte>) returns (sizes: seq<int>)
    requires |metaData| % 2 == 0
    ensures sizes == Sizes(metaData)
  {
    sizes := [];
    var i := 0;
    while i < |metaData|
      invariant 0 <= i <= |metaData| && i % 2 == 0
      invariant sizes + Sizes(metaData[i..]) == Sizes(metaData)
    {
      var value := ToInt16(U16(metaData[i], metaData[i + 1]));
      assert metaData[i..][2..] == metaData[i + 2..];
      sizes := sizes + [value];
      i := i + 2;
    }
  }

  function Be32(n: nat): seq<byte>
  {
    [HighByte(n / 0x1_0000), LowByte(n / 0x1_0000), HighByte(n), LowByte(n)]
  }

  function ConvertToInt32(b: seq<byte>): int
    requires |b| == META_LEN_BYTES
  {
    ToInt32(0x1_0000 * U16(b[0], b[1]) + U16(b[2], b[3]))
  }

  /** readMetaData: the last four bytes give the length of what stands before them. */
  function ReadMetaData(file: seq<byte>): Option<seq<byte>>
  {
    var pos := |file| - META_LEN_BYTES;
    if pos < 0 then None
    else
      var metaLen := ConvertToInt32(file[pos..]);
      if metaLen <= 0 || pos - metaLen < 0 then None
      else Some(file[pos - metaLen..pos])
  }

  /** The layout the transcoder writes: media bytes, metadata, metadata length. */
  function StoredFile(media: seq<byte>, metaData: seq<byte>): seq<byte>
  {
    media + metaData + Be32(|metaData|)
  }

  /** The most significant byte comes first, and the sign is the first bit. */
  lemma SizesExample()
    ensures Sizes([0xFF, 0xFF, 0x01, 0x02]) == [-1, 258]
  {
    assert [0xFF, 0xFF, 0x01, 0x02][2..] == [0x01, 0x02] && [0x01, 0x02][2..] == [];
    assert Sizes([0x01, 0x02]) == [258];
  }

  /**
   * Whatever stands before them, the last four bytes decide: a length from 1 to
   * what is there gives the bytes before them, anything else fails.
   */
  lemma ReadMetaDataIff(body: seq<byte>, b0: byte, b1: byte, b2: byte, b3: byte)
    ensures var n := 0x100_0000 * (b0 as int) + 0x1_0000 * (b1 as int) + 0x100 * (b2 as int) + b3 as int;
      ReadMetaData(body + [b0, b1, b2, b3])
      == if b0 < 128 && 0 < n <= |body| then Some(body[|body| - n..]) else None
  {
    var file, tail := body + [b0, b1, b2, b3], [b0, b1, b2, b3];
    var n := 0x100_0000 * (b0 as int) + 0x1_0000 * (b1 as int) + 0x100 * (b2 as int) + b3 as int;
    assert file[|body|..] == tail;
    assert 0x1_0000 * U16(b0, b1) + U16(b2, b3) == n;
    SignedOfUnsigned32(n);
    if 0 < n <= |body| { assert file[|body| - n..|body|] == body[|body| - n..]; }
  }

  lemma SignedOfUnsigned32(u: int)
    requires 0 <= u < 0x1_0000_0000
    ensures ToInt32(u) == if u < 0x8000_0000 then u else u - 0x1_0000_0000
  {
    if u < 0x8000_0000 {
      DivModUnique(u + 0x8000_0000, 0, u + 0x8000_0000, 0x1_0000_0000);
    } else {
      DivModUnique(u + 0x8000_0000, 1, u - 0x8000_0000, 0x1_0000_0000);
    }
  }

  lemma TooShortForMetaData(file: seq<byte>)
    requires |file| < 4
    ensures ReadMetaData(file) == None
  {
  }

  // ------------------------------------------------------- sizes to the index

  /** Sum of the packet lengths: everything that is not a separator. */
  function PacketTotal(sizes: seq<int>): int
  {
    if sizes == [] then 0
    else
      var n := |sizes| - 1;
      PacketTotal(sizes[..n]) + if sizes[n] == SEPARATOR then 0 else sizes[n]
  }

  /** The index after a prefix of the sizes; None where the vector access throws. */
  function Build(sizes: seq<int>, gop: int): Option<seq<VideoInfo>>
    requires gop > 0
  {
    if sizes == [] then Some([])
    else
      var n := |sizes| - 1;
      match Build(sizes[..n], gop)
      case None => None
      case Some(infos) => Extend(infos, sizes[n], PacketTotal(sizes[..n]), gop)
  }

  function FlagOf(sampleCount: nat, gop: int): int
    requires gop > 0
  {
    if sampleCount % gop == 0 then KEY_FRAME_FLAG else P_FRAME_FLAG
  }

  function Extend(infos: seq<VideoInfo>, size: int, offset: int, gop: int): Option<seq<VideoInfo>>
    requires gop > 0
  {
    if size == SEPARATOR then
      Some(infos + [VideoInfo([], 0, offset, FlagOf(|infos|, gop))])
    else if infos == [] then None
    else
      var last := infos[|infos| - 1];
      Some(infos[|infos| - 1 := last.(packets := last.packets + [RtpMeta(size, offset)], size := last.size + size)])
  }

  function Lens(packets: seq<RtpMeta>): seq<int>
  {
    if packets == [] then [] else Lens(packets[..|packets| - 1]) + [packets[|packets| - 1].len]
  }

  /** The size list an index came from: a separator, then the lengths, per sample. */
  function Reserialize(infos: seq<VideoInfo>): seq<int>
  {
    if infos == [] then []
    else Reserialize(infos[..|infos| - 1]) + [SEPARATOR] + Lens(infos[|infos| - 1].packets)
  }

  lemma ExtendReserializes(infos: seq<VideoInfo>, size: int, offset: int, gop: int)
    requires gop > 0 && Extend(infos, size, offset, gop).Some?
    ensures Reserialize(Extend(infos, size, offset, gop).value) == Reserialize(infos) + [size]
  {
    var r := Extend(infos, size, offset, gop).value;
    var n := |r| - 1;
    if size == SEPARATOR {
      assert r[..n] == infos;
    } else {
      assert r[..n] == infos[..n];
      assert r[n].packets[..|r[n].packets| - 1] == infos[n].packets;
      assert Reserialize(r) == Reserialize(infos[..n]) + [SEPARATOR] + (Lens(infos[n].packets) + [size]);
    }
  }

  /** The index keeps every stored number; it exists unless the list starts wrong. */
  lemma {:induction false} IndexRoundTrip(sizes: seq<int>, gop: int)
    requires gop > 0
    ensures Build(sizes, gop).Some? <==> sizes == [] || sizes[0] == SEPARATOR
    ensures Build(sizes, gop).Some? ==> Reserialize(Build(sizes, gop).value) == sizes
    ensures Build(sizes, gop).Some? && sizes != [] ==> Build(sizes, gop).value != []
  {
    if sizes != [] {
      var n := |sizes| - 1;
      IndexRoundTrip(sizes[..n], gop);
      var before := Build(sizes[..n], gop);
      if before.Some? && Build(sizes, gop).Some? {
        ExtendReserializes(before.value, sizes[n], PacketTotal(sizes[..n]), gop);
        assert sizes == sizes[..n] + [sizes[n]];
      }
    }
  }

  // -------------------------------------------------------------------- tiling

  /** One sample: its size is the sum of its packets, which stand back to back. */
  ghost predicate SampleTiles(x: VideoInfo)
  {
    && x.size == Sum(Lens(x.packets))
    && |Lens(x.packets)| == |x.packets|
    && forall j :: 0 <= j < |x.packets| ==> x.packets[j].offset == x.offset + Sum(Lens(x.packets)[..j])
  }

  ghost predicate TilesAt(infos: seq<VideoInfo>, total: int, gop: int, i: nat)
    requires gop > 0 && i < |infos|
  {
    && SampleTiles(infos[i])
    && infos[i].flag == (if i % gop == 0 then 1 else 0)
    && infos[i].offset + infos[i].size == EndOf(infos, total, i)
  }

  /** All samples stand back to back from 0 to the total; keys at multiples of the GOP. */
  ghost predicate Tiles(infos: seq<VideoInfo>, total: int, gop: int)
    requires gop > 0
  {
    && (forall i :: 0 <= i < |infos| ==> TilesAt(infos, total, gop, i))
    && (if infos == [] then total else infos[0].offset) == 0
  }

  function EndOf(infos: seq<VideoInfo>, total: int, i: nat): int
    requires i < |infos|
  {
    if i + 1 < |infos| then infos[i + 1].offset else total
  }

  lemma SampleGrows(x: VideoInfo, size: int)
    requires SampleTiles(x)
    ensures SampleTiles(x.(packets := x.packets + [RtpMeta(size, x.offset + x.size)], size := x.size + size))
  {
    var y := x.(packets := x.packets + [RtpMeta(size, x.offset + x.size)], size := x.size + size);
    assert y.packets[..|x.packets|] == x.packets;
    assert Lens(y.packets) == Lens(x.packets) + [size];
    SumAppend(Lens(x.packets), [size]);
    assert Sum([size]) == size;
    forall j | 0 <= j < |y.packets|
      ensures y.packets[j].offset == y.offset + Sum(Lens(y.packets)[..j])
    {
      if j < |x.packets| {
        assert Lens(y.packets)[..j] == Lens(x.packets)[..j];
      } else {
        assert Lens(y.packets)[..j] == Lens(x.packets);
      }
    }
  }

  lemma ExtendTiles(infos: seq<VideoInfo>, size: int, total: int, gop: int)
    requires gop > 0 && Tiles(infos, total, gop) && Extend(infos, size, total, gop).Some?
    ensures Tiles(Extend(infos, size, total, gop).value,
                  total + if size == SEPARATOR then 0 else size, gop)
  {
    var r := Extend(infos, size, total, gop).value;
    var total' := total + if size == SEPARATOR then 0 else size;
    forall i | 0 <= i < |r| ensures TilesAt(r, total', gop, i) {
      ExtendTilesAt(infos, size, total, gop, i);
    }
    if infos != [] { assert r[0].offset == infos[0].offset; }
  }

  lemma ExtendTilesAt(infos: seq<VideoInfo>, size: int, total: int, gop: int, i: nat)
    requires gop > 0 && Extend(infos, size, total, gop).Some?
    requires i < |Extend(infos, size, total, gop).value|
    requires i < |infos| ==> TilesAt(infos, total, gop, i)
    ensures TilesAt(Extend(infos, size, total, gop).value,
                    total + if size == SEPARATOR then 0 else size, gop, i)
  {
    var r := Extend(infos, size, total, gop).value;
    if i < |infos| {
      if size != SEPARATOR && i == |infos| - 1 {
        SampleGrows(infos[i], size);
      } else {
        assert r[i] == infos[i];
      }
    } else {
      assert r[i] == VideoInfo([], 0, total, FlagOf(i, gop));
      assert SampleTiles(r[i]);
    }
  }

  /** The regions tile [0, total) whatever the sizes are, as long as an index exists. */
  lemma {:induction false} IndexTiles(sizes: seq<int>, gop: int)
    requires gop > 0 && Build(sizes, gop).Some?
    ensures Tiles(Build(sizes, gop).value, PacketTotal(sizes), gop)
  {
    if sizes != [] {
      var n := |sizes| - 1;
      IndexTiles(sizes[..n], gop);
      ExtendTiles(Build(sizes[..n], gop).value, sizes[n], PacketTotal(sizes[..n]), gop);
    }
  }

  /** With no negative length, no region is negative. */
  ghost predicate NonNegative(infos: seq<VideoInfo>)
  {
    forall i, j :: 0 <= i < |infos| && 0 <= j < |infos[i].packets| ==> infos[i].packets[j].len >= 0
  }

  lemma {:induction false} IndexNonNegative(sizes: seq<int>, gop: int)
    requires gop > 0 && Build(sizes, gop).Some?
    requires forall i :: 0 <= i < |sizes| ==> sizes[i] >= SEPARATOR
    ensures NonNegative(Build(sizes, gop).value)
  {
    if sizes != [] {
      IndexNonNegative(sizes[..|sizes| - 1], gop);
    }
  }

  lemma {:induction false} LensNonNegative(packets: seq<RtpMeta>)
    requires forall j :: 0 <= j < |packets| ==> packets[j].len >= 0
    ensures |Lens(packets)| == |packets|
    ensures forall j :: 0 <= j < |packets| ==> Lens(packets)[j] == packets[j].len
    ensures Sum(Lens(packets)) >= 0
  {
    if packets != [] { LensNonNegative(packets[..|packets| - 1]); }
    SumNonNegative(Lens(packets));
  }

  lemma OffsetsStep(infos: seq<VideoInfo>, total: int, gop: int, i: nat)
    requires gop > 0 && Tiles(infos, total, gop) && NonNegative(infos) && i < |infos|
    ensures infos[i].size >= 0 && infos[i].offset + infos[i].size == EndOf(infos, total, i)
  {
    LensNonNegative(infos[i].packets);
    assert TilesAt(infos, total, gop, i);
  }

  lemma {:induction false} OffsetsRise(infos: seq<VideoInfo>, total: int, gop: int, i: nat, j: nat)
    requires gop > 0 && Tiles(infos, total, gop) && NonNegative(infos) && i <= j < |infos|
    ensures infos[i].offset <= infos[j].offset
    decreases j
  {
    if i < j {
      OffsetsRise(infos, total, gop, i, j - 1);
      OffsetsStep(infos, total, gop, j - 1);
    }
  }

  /** Regions are disjoint, in order, and lie inside the media bytes. */
  lemma RegionsAscend(infos: seq<VideoInfo>, total: int, gop: int, i: nat, j: nat)
    requires gop > 0 && Tiles(infos, total, gop) && NonNegative(infos) && i < j <= |infos|
    ensures 0 <= infos[i].offset <= infos[i].offset + infos[i].size
    ensures infos[i].offset + infos[i].size <= if j < |infos| then infos[j].offset else total
  {
    OffsetsRise(infos, total, gop, 0, i);
    OffsetsStep(infos, total, gop, i);
    if j < |infos| {
      OffsetsRise(infos, total, gop, i + 1, j);
    } else if i + 1 < |infos| {
      OffsetsRise(infos, total, gop, i + 1, |infos| - 1);
      OffsetsStep(infos, total, gop, |infos| - 1);
    }
  }

  // ------------------------------------------------------------ whole files

  lemma Be32RoundTrip(n: nat)
    requires n < 0x8000_0000
    ensures ConvertToInt32(Be32(n)) == n
  {
    var high, low := n / 0x1_0000, n % 0x1_0000;
    assert n == 0x1_0000 * high + low && high % 0x1_0000 == high;
    WordValue(high);
    WordValue(n);
    ToInt32Id(0x1_0000 * high + low);
  }

  lemma ToInt32Id(x: int)
    requires -0x8000_0000 <= x < 0x8000_0000
    ensures ToInt32(x) == x
  {
  }

  /** What the transcoder stores is what the server reads back. */
  lemma MetaDataRoundTrip(media: seq<byte>, metaData: seq<byte>)
    requires 0 < |metaData| < 0x8000_0000
    ensures ReadMetaData(StoredFile(media, metaData)) == Some(metaData)
  {
    var file := StoredFile(media, metaData);
    var pos := |file| - META_LEN_BYTES;
    assert file[pos..] == Be32(|metaData|);
    Be32RoundTrip(|metaData|);
    assert file[pos - |metaData|..pos] == metaData;
  }

  /**
   * A stored file loads to an index that re-serialises to the very bytes it was
   * loaded from, and whose regions tile exactly the media bytes.
   */
  lemma StoredFileLoads(media: seq<byte>, metaData: seq<byte>, gop: int) returns (infos: seq<VideoInfo>)
    requires gop > 0 && 0 < |metaData| < 0x8000_0000 && |metaData| % 2 == 0
    requires ValidSizes(Sizes(metaData), |media|)
    ensures ReadMetaData(StoredFile(media, metaData)) == Some(metaData)
    ensures Build(Sizes(metaData), gop) == Some(infos) && Serialize(Reserialize(infos)) == metaData
    ensures Tiles(infos, |media|, gop) && NonNegative(infos)
  {
    MetaDataRoundTrip(media, metaData);
    SerializeOfSizes(metaData);
    infos := ValidSizesLoad(Sizes(metaData), |media|, gop);
  }

  /** What the transcoder promises of the stored numbers. */
  ghost predicate ValidSizes(sizes: seq<int>, total: int)
  {
    && sizes != [] && sizes[0] == SEPARATOR
    && (forall i :: 0 <= i < |sizes| ==> sizes[i] >= SEPARATOR)
    && PacketTotal(sizes) == total
  }

  lemma ValidSizesLoad(sizes: seq<int>, total: int, gop: int) returns (infos: seq<VideoInfo>)
    requires gop > 0 && ValidSizes(sizes, total)
    ensures Build(sizes, gop) == Some(infos) && Reserialize(infos) == sizes
    ensures Tiles(infos, total, gop) && NonNegative(infos)
  {
    IndexRoundTrip(sizes, gop);
    infos := Build(sizes, gop).value;
    IndexTiles(sizes, gop);
    IndexNonNegative(sizes, gop);
  }

  // -------------------------------------------------------------- audio index

  /** One audio packet per number; the stored offset is a 32-bit integer. */
  function BuildAudio(sizes: seq<int>): seq<RtpMeta>
  {
    if sizes == [] then []
    else
      var n := |sizes| - 1;
      BuildAudio(sizes[..n]) + [RtpMeta(sizes[n], ToInt32(Sum(sizes[..n])))]
  }

  method LoadRtpAudioMetaData(sizes: seq<int>) returns (meta: seq<RtpMeta>)
    ensures meta == BuildAudio(sizes)
  {
    meta := [];
    var offset := 0;
    var i := 0;
    while i < |sizes|
      invariant 0 <= i <= |sizes|
      invariant offset == Sum(sizes[..i]) && meta == BuildAudio(sizes[..i])
    {
      assert sizes[..i + 1] == sizes[..i] + [sizes[i]] && sizes[..i + 1][..i] == sizes[..i];
      SumAppend(sizes[..i], [sizes[i]]);
      assert Sum([sizes[i]]) == sizes[i];
      meta := meta + [RtpMeta(sizes[i], ToInt32(offset))];
      offset := offset + sizes[i];
      i := i + 1;
    }
    assert sizes[..i] == sizes;
  }

  /** The stored audio offset is the true offset exactly while that is below 2^31. */
  lemma {:induction false} AudioOffsets(sizes: seq<int>, i: nat)
    requires i < |sizes| && forall k :: 0 <= k < |sizes| ==> sizes[k] >= 0
    ensures |BuildAudio(sizes)| == |sizes| && BuildAudio(sizes)[i].len == sizes[i]
    ensures BuildAudio(sizes)[i].offset == Sum(sizes[..i]) <==> Sum(sizes[..i]) < 0x8000_0000
    ensures Int32(BuildAudio(sizes)[i].offset) && (BuildAudio(sizes)[i].offset - Sum(sizes[..i])) % 0x1_0000_0000 == 0
  {
    var n := |sizes| - 1;
    AudioLength(sizes[..n]);
    SumNonNegative(sizes[..i]);
    if i < n {
      AudioOffsets(sizes[..n], i);
      assert sizes[..n][..i] == sizes[..i];
    }
  }

  lemma {:induction false} AudioLength(sizes: seq<int>)
    ensures |BuildAudio(sizes)| == |sizes|
  {
    if sizes != [] { AudioLength(sizes[..|sizes| - 1]); }
  }

  lemma {:induction false} SumOfEqual(n: nat, v: int)
    ensures Sum(seq(n, _ => v)) == n * v
  {
    if n > 0 {
      SumOfEqual(n - 1, v);
      assert seq(n, _ => v)[1..] == seq(n - 1, _ => v);
    }
  }

  /** 65540 packets of the largest length: the last offset is narrowed to a negative number. */
  lemma AudioOffsetWraps()
    ensures var sizes := seq(65540, _ => 32767);
      |BuildAudio(sizes)| == 65540 && BuildAudio(sizes)[65539].offset != Sum(sizes[..65539])
  {
    var sizes := seq(65540, _ => 32767);
    AudioOffsets(sizes, 65539);
    SumOfEqual(65539, 32767);
    assert sizes[..65539] == seq(65539, _ => 32767);
  }

  // ------------------------------------------------- the loader, as it mutates

  class VideoSampleInfo {
    var rtpMetaInfos: seq<RtpMeta>
    var size: int
    var offset: int
    var flag: int
    var initialized: bool

    ghost function Value(): VideoInfo
      reads this
    {
      VideoInfo(rtpMetaInfos, size, offset, flag)
    }

    constructor ()
      ensures Value() == VideoInfo([], 0, 0, 0) && !initialized
    {
      rtpMetaInfos, size, offset, flag, initialized := [], 0, 0, 0, false;
    }

    method SetSize(inputSize: int)
      modifies this`size
      ensures size == if initialized then old(size) else inputSize
    {
      if !initialized { size := inputSize; }
    }

    method SetOffset(inputOffset: int)
      modifies this`offset
      ensures offset == if initialized then old(offset) else inputOffset
    {
      if !initialized { offset := inputOffset; }
    }

    method SetFlag(inputFlag: int)
      modifies this`flag
      ensures flag == if initialized then old(flag) else inputFlag
    {
      if !initialized { flag := inputFlag; }
    }

    method InitCompleted()
      modifies this`initialized
      ensures initialized
    {
      initialized := true;
    }
  }

  ghost predicate Distinct(infos: seq<VideoSampleInfo>)
  {
    forall i, j :: 0 <= i < j < |infos| ==> infos[i] != infos[j]
  }

  ghost predicate Represents(infos: seq<VideoSampleInfo>, values: seq<VideoInfo>)
    reads infos
  {
    |infos| == |values| && forall i :: 0 <= i < |infos| ==> infos[i].Value() == values[i]
  }

  method NewSample(old': seq<VideoSampleInfo>, offset: int, sampleCount: nat, gop: int, ghost value: seq<VideoInfo>)
    returns (infos: seq<VideoSampleInfo>)
    requires gop > 0 && sampleCount == |old'| && Distinct(old') && Represents(old', value)
    ensures |infos| == |old'| + 1 && infos[..|old'|] == old' && fresh(infos[|old'|]) && !infos[|old'|].initialized
    ensures Distinct(infos) && Represents(infos, Extend(value, SEPARATOR, offset, gop).value)
  {
    var newVSampleInfo := new VideoSampleInfo();
    newVSampleInfo.SetOffset(offset);
    newVSampleInfo.SetFlag(FlagOf(sampleCount, gop));
    infos := old' + [newVSampleInfo];
  }

  method NewPacket(infos: seq<VideoSampleInfo>, size: int, offset: int, gop: int, ghost value: seq<VideoInfo>)
    requires gop > 0 && infos != [] && size != SEPARATOR && Distinct(infos) && Represents(infos, value)
    requires !infos[|infos| - 1].initialized
    modifies infos[|infos| - 1]
    ensures Represents(infos, Extend(value, size, offset, gop).value) && !infos[|infos| - 1].initialized
  {
    var latest := infos[|infos| - 1];
    latest.rtpMetaInfos := latest.rtpMetaInfos + [RtpMeta(size, offset)];
    var prevSize := latest.size;
    latest.SetSize(prevSize + size);
  }

  /** The loop of loadRtpMemberVideoMetaData; throws without a GOP or a leading separator. */
  method LoadRtpMemberVideoMetaData(sizes: seq<int>, gopOption: Option<int>)
    returns (infos: seq<VideoSampleInfo>, threw: bool)
    requires gopOption.Some? ==> gopOption.value > 0
    ensures threw <==> gopOption == None || Build(sizes, gopOption.value) == None
    ensures forall i :: 0 <= i < |infos| ==> fresh(infos[i])
    ensures !threw ==> Distinct(infos) && Represents(infos, Build(sizes, gopOption.value).value)
    ensures !threw ==> forall i :: 0 <= i < |infos| ==> infos[i].initialized
  {
    infos, threw := [], false;
    if gopOption == None {
      return [], true;
    }
    var gop := gopOption.value;
    var sampleCount, offset, k := 0, 0, 0;
    while k < |sizes|
      invariant 0 <= k <= |sizes| && Build(sizes[..k], gop).Some?
      invariant sampleCount == |infos| && offset == PacketTotal(sizes[..k])
      invariant Distinct(infos) && Represents(infos, Build(sizes[..k], gop).value)
      invariant forall i :: 0 <= i < |infos| ==> fresh(infos[i]) && !infos[i].initialized
    {
      assert sizes[..k + 1][..k] == sizes[..k];
      var size := sizes[k];
      ghost var value := Build(sizes[..k], gop).value;
      if size == SEPARATOR {
        infos := NewSample(infos, offset, sampleCount, gop, value);
        sampleCount := sampleCount + 1;
      } else {
        if infos == [] {
          BuildStaysNone(sizes, gop, k + 1);
          return [], true;
        }
        NewPacket(infos, size, offset, gop, value);
        offset := offset + size;
      }
      k := k + 1;
    }
    assert sizes[..k] == sizes;
    var i := 0;
    while i < |infos|
      invariant 0 <= i <= |infos|
      invariant Represents(infos, Build(sizes, gop).value)
      invariant forall j :: 0 <= j < i ==> infos[j].initialized
    {
      infos[i].InitCompleted();
      i := i + 1;
    }
  }

  lemma {:induction false} BuildStaysNone(sizes: seq<int>, gop: int, k: nat)
    requires gop > 0 && k <= |sizes| && Build(sizes[..k], gop) == None
    ensures Build(sizes, gop) == None
    decreases |sizes| - k
  {
    if k == |sizes| {
      assert sizes[..k] == sizes;
    } else {
      assert sizes[..k + 1][..k] == sizes[..k];
      BuildStaysNone(sizes, gop, k + 1);
    }
  }
}
