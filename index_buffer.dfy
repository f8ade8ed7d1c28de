/** `parseIndexBuffer`: the index buffer of a mesh, read from the package's
    files as `floor(byteSize / valueByteSize)` little-endian unsigned 16-bit
    values, whatever width `valueByteSize` announces. */
module IndexBuffer {
  import opened Wrappers
  import opened Bytes
  import opened Triangles

  /** `BufferPack.unpack("<{count}H", bytes)`: undefined (None) when the
      buffer holds fewer than `count` values. */
  function UnpackShorts(bytes: seq<Byte>, count: nat): (r: Option<seq<U16>>)
    ensures r.Some? <==> 2 * count <= |bytes|
    ensures r.Some? ==> |r.value| == count
  {
    if 2 * count <= |bytes| then Some(seq(count, k requires 0 <= k < count => Bytes.U16(bytes, 2 * k) as U16)) else None
  }

  /** `parseIndexBuffer(meta, tgxStruct)`: a missing file is undefined,
      which BufferPack cannot read; a zero value size makes the count NaN or
      Infinity, a format BufferPack's behaviour for is not modelled. */
  function ParseIndexBuffer(files: map<string, seq<Byte>>, fileName: string, byteSize: nat, valueByteSize: nat)
    : (r: Result<Option<seq<U16>>>)
    ensures r.Failure? <==> valueByteSize == 0 || fileName !in files
    ensures r.Success? && r.value.Some? ==> |r.value.value| == byteSize / valueByteSize
  {
    if valueByteSize == 0 then Failure(Unsupported)
    else if fileName !in files then Failure(TypeError)
    else Success(UnpackShorts(files[fileName], byteSize / valueByteSize))
  }

  /** Little-endian bytes of 16-bit values, the layout of an index buffer file. */
  function Encode(s: seq<U16>): (b: seq<Byte>)
    ensures |b| == 2 * |s|
  {
    if s == [] then [] else [s[0] % 256, s[0] / 256] + Encode(s[1..])
  }

  lemma {:induction false} EncodeAt(s: seq<U16>, k: nat)
    requires k < |s|
    ensures Encode(s)[2 * k] == s[k] % 256 && Encode(s)[2 * k + 1] == s[k] / 256
  {
    if k > 0 {
      EncodeAt(s[1..], k - 1);
    }
  }

  /** Reading back an encoded index buffer with its own two-byte value size
      gives the indices, and any buffer is the encoding of what it reads. */
  lemma RoundTrip(files: map<string, seq<Byte>>, fileName: string, s: seq<U16>)
    requires fileName in files && files[fileName] == Encode(s)
    ensures ParseIndexBuffer(files, fileName, 2 * |s|, 2) == Success(Some(s))
  {
    assert (2 * |s|) / 2 == |s|;
    DecodeEncode(s);
  }

  lemma DecodeEncode(s: seq<U16>)
    ensures UnpackShorts(Encode(s), |s|) == Some(s)
  {
    var b := Encode(s);
    var r := UnpackShorts(b, |s|).value;
    forall k | 0 <= k < |s|
      ensures r[k] == s[k]
    {
      EncodeAt(s, k);
      Halves(s[k]);
    }
    assert r == s;
  }

  lemma Halves(x: U16)
    ensures x % 256 + 256 * (x / 256) == x
  {
  }

  /** The values read are the 16-bit values of the buffer's first
      `2 * count` bytes, for any value size: a buffer of 32-bit indices is
      misread as twice as many halves, the first `count` of them. */
  lemma WidthIgnored(files: map<string, seq<Byte>>, fileName: string, byteSize: nat, valueByteSize: nat)
    requires fileName in files && valueByteSize > 0
    requires 2 * (byteSize / valueByteSize) <= |files[fileName]|
    ensures var count := byteSize / valueByteSize;
      ParseIndexBuffer(files, fileName, byteSize, valueByteSize)
        == Success(UnpackShorts(files[fileName][..2 * count], count))
  {
    var count := byteSize / valueByteSize;
    var b := files[fileName];
    assert UnpackShorts(b, count).value == UnpackShorts(b[..2 * count], count).value;
  }

  /** Two 32-bit indices 1 and 2 read as the 16-bit values 1 and 0. */
  lemma WideIndicesMisread()
    ensures ParseIndexBuffer(map["ib" := [1, 0, 0, 0, 2, 0, 0, 0]], "ib", 8, 4) == Success(Some([1, 0]))
  {
    var b: seq<Byte> := [1, 0, 0, 0, 2, 0, 0, 0];
    var r := UnpackShorts(b, 2).value;
    assert r[0] == Bytes.U16(b, 0) == 1 && r[1] == Bytes.U16(b, 2) == 0;
    assert r == [1, 0];
  }
}
