/** The per-vertex output buffers of the geometry decoder (the `buffers`
    object of `#parseGeometryBuffers`) and the attribute writers that fill
    them in place. */
module VertexBuffers {
  import opened Wrappers
  import opened Numbers
  import opened Bytes
  import opened BufferUtilities

  /** A store into a typed array: indices outside the array are ignored. */
  function Put<T>(s: seq<T>, i: int, x: T): (r: seq<T>)
    ensures |r| == |s|
  {
    if 0 <= i < |s| then s[i := x] else s
  }

  /** The contents of all fourteen buffers. The first ten are Float32Arrays,
      the last four Uint8Arrays. */
  datatype Channels = Channels(
    position: seq<Num>, positionW: seq<Num>, normal: seq<Num>, dyeslot: seq<Num>,
    tangent: seq<Num>, texcoord0: seq<Num>, texcoord2: seq<Num>,
    blendindices: seq<Num>, blendweight: seq<Num>, color: seq<Num>,
    uvScaleStrideIndex: seq<Byte>, hasBlendindices: seq<Byte>, hasBlendweight: seq<Byte>, hasTexcoord2: seq<Byte>)

  /** `new Float32Array(len)`. */
  function Zeros(len: nat): (s: seq<Num>)
    ensures |s| == len && forall k :: 0 <= k < len ==> s[k] == Fin(0.0)
  {
    seq(len, k => Fin(0.0))
  }

  /** `new Uint8Array(len)`. */
  function ByteZeros(len: nat): (s: seq<Byte>)
    ensures |s| == len && forall k :: 0 <= k < len ==> s[k] == 0
  {
    seq(len, k => 0)
  }

  /** The freshly allocated buffers for `n` vertices: `n * elementLen` zeros each. */
  function Zeroed(n: nat): Channels {
    Channels(Zeros(3 * n), Zeros(n), Zeros(3 * n), Zeros(n), Zeros(4 * n), Zeros(2 * n), Zeros(2 * n),
      Zeros(4 * n), Zeros(4 * n), Zeros(4 * n), ByteZeros(n), ByteZeros(n), ByteZeros(n), ByteZeros(n))
  }

  /** Every buffer holds `n * elementLen` slots. */
  predicate Sized(c: Channels, n: nat) {
    |c.position| == 3 * n && |c.positionW| == n && |c.normal| == 3 * n && |c.dyeslot| == n
    && |c.tangent| == 4 * n && |c.texcoord0| == 2 * n && |c.texcoord2| == 2 * n
    && |c.blendindices| == 4 * n && |c.blendweight| == 4 * n && |c.color| == 4 * n
    && |c.uvScaleStrideIndex| == n && |c.hasBlendindices| == n && |c.hasBlendweight| == n
    && |c.hasTexcoord2| == n
  }

  /** An integer as a Uint8Array store keeps it: modulo 256. */
  function Uint8Of(i: int): (b: Byte)
    ensures 0 <= i < 256 ==> b == i
  {
    i % 256
  }

  /** Consecutive stores starting at `at`. */
  function Put2(s: seq<Num>, at: int, a: Num, b: Num): seq<Num> {
    Put(Put(s, at, a), at + 1, b)
  }

  function Put3(s: seq<Num>, at: int, a: Num, b: Num, c: Num): seq<Num> {
    Put(Put2(s, at, a, b), at + 2, c)
  }

  function Put4(s: seq<Num>, at: int, a: Num, b: Num, c: Num, d: Num): seq<Num> {
    Put(Put3(s, at, a, b, c), at + 3, d)
  }

  /** Component `i` of the parsed element, normalized when the element says so. */
  function Value(vals: seq<Num>, i: nat, normalized: bool, t: DataType): Num {
    if normalized then NormalizedAt(ComponentAt(vals, i), t) else ComponentAt(vals, i)
  }

  /** Reading component `i` of `normalize(vals)` is normalizing component `i`,
      also past the end (undefined and NaN both normalize to NaN). */
  lemma ValueOfNormalized(vals: seq<Num>, i: nat, t: DataType)
    ensures ComponentAt(Normalized(vals, t), i) == Value(vals, i, true, t)
  {
  }

  /** `vals.slice(0, m)`. */
  function Prefix(vals: seq<Num>, m: nat): (r: seq<Num>)
    ensures |r| <= m
  {
    vals[..if |vals| < m then |vals| else m]
  }

  /** Component i below m of the slice, normalized or not, is component i of
      the element as `Value` gives it. */
  lemma SliceValue(vals: seq<Num>, m: nat, i: nat, normalized: bool, t: DataType)
    requires i < m
    ensures ComponentAt(if normalized then Normalized(Prefix(vals, m), t) else Prefix(vals, m), i) == Value(vals, i, normalized, t)
  {
  }

  /** The first `m` components a writer stores: `vals.slice(0, m)`, passed
      through `normalize` when the element is normalized. (`parseTangent` and
      `parseNormal` normalize the whole element instead of the slice; the first
      components are the same.) */
  method Components(vals: seq<Num>, m: nat, normalized: bool, t: DataType) returns (r: seq<Num>)
    ensures |r| == m
    ensures forall i :: 0 <= i < m ==> r[i] == Value(vals, i, normalized, t)
  {
    var sliced := Prefix(vals, m);
    if normalized {
      sliced := Normalize(sliced, t);
    }
    r := [];
    var i := 0;
    while i < m
      invariant 0 <= i <= m && |r| == i
      invariant forall j :: 0 <= j < i ==> r[j] == Value(vals, j, normalized, t)
    {
      SliceValue(vals, m, i, normalized, t);
      r := r + [ComponentAt(sliced, i)];
      i := i + 1;
    }
  }

  /** `parsePosition`: component k scaled and offset, stored in (y, z, x) order;
      the raw fourth component goes to positionW. */
  function PositionWritten(c: Channels, v: nat, vals: seq<Num>, scale: seq<Num>, offset: seq<Num>): Channels {
    var x := Add(Mul(ComponentAt(vals, 0), ComponentAt(scale, 0)), ComponentAt(offset, 0));
    var y := Add(Mul(ComponentAt(vals, 1), ComponentAt(scale, 1)), ComponentAt(offset, 1));
    var z := Add(Mul(ComponentAt(vals, 2), ComponentAt(scale, 2)), ComponentAt(offset, 2));
    c.(position := Put3(c.position, 3 * v, y, z, x), positionW := Put(c.positionW, v, ComponentAt(vals, 3)))
  }

  /** `parseTangent`: (y, z, x, w), normalized when the element says so. */
  function TangentWritten(c: Channels, v: nat, vals: seq<Num>, normalized: bool, t: DataType): Channels {
    c.(tangent := Put4(c.tangent, 4 * v, Value(vals, 1, normalized, t), Value(vals, 2, normalized, t),
                       Value(vals, 0, normalized, t), Value(vals, 3, normalized, t)))
  }

  /** The dye slot packed in normal.w: `w & 0x7`. */
  function DyeSlot(w: Num): (slot: nat)
    ensures slot < 8
  {
    BitwiseOperand(w) % 8
  }

  /** The UV-scale stride index packed in normal.w: `((w & 0xFFFF) >>> 3) & 4095`. */
  function StrideIndex(w: Num): (index: nat)
    ensures index < 4096
  {
    (BitwiseOperand(w) % 0x1_0000 / 8) % 4096
  }

  /** The stride index only depends on the low 16 bits, so a signed short and
      the unsigned short with the same bits give the same index. */
  lemma StrideIndexSignedUnsigned(u: nat)
    requires u < 0x1_0000
    ensures StrideIndex(OfInt(Signed(u, 0x8000))) == StrideIndex(OfInt(u))
    ensures DyeSlot(OfInt(Signed(u, 0x8000))) == DyeSlot(OfInt(u))
  {
    var s := Signed(u, 0x8000);
    BitwiseOperandOfInt(s);
    BitwiseOperandOfInt(u);
    if u >= 0x8000 {
      assert s == u - 0x1_0000;
      assert s % 0x1_0000 == u;
      assert s % 8 == u % 8;
    }
  }

  /** The stride index is bits 3..14 of the 16-bit value. */
  lemma StrideIndexBits(u: nat)
    requires u < 0x1_0000
    ensures StrideIndex(OfInt(u)) == (u / 8) % 4096 && DyeSlot(OfInt(u)) == u % 8
  {
    BitwiseOperandOfInt(u);
    assert u % 0x1_0000 == u;
  }

  /** `parseNormal` on the buffers: (y, z, x) of the (possibly normalized)
      normal, the dye slot into dyeslot, and the stride index truncated to a
      byte by the Uint8Array store. */
  function NormalWritten(c: Channels, v: nat, vals: seq<Num>, normalized: bool, t: DataType): Channels {
    var w := ComponentAt(vals, 3);
    c.(normal := Put3(c.normal, 3 * v, Value(vals, 1, normalized, t), Value(vals, 2, normalized, t), Value(vals, 0, normalized, t)),
       dyeslot := Put(c.dyeslot, v, OfInt(DyeSlot(w))),
       uvScaleStrideIndex := Put<Byte>(c.uvScaleStrideIndex, v, Uint8Of(StrideIndex(w))))
  }

  /** `parseTexcoord0`: the first two components scaled and offset by the mesh's texture transform. */
  function Texcoord0Written(c: Channels, v: nat, vals: seq<Num>, normalized: bool, t: DataType, scale: seq<Num>, offset: seq<Num>): Channels {
    var u0 := Add(Mul(Value(vals, 0, normalized, t), ComponentAt(scale, 0)), ComponentAt(offset, 0));
    var u1 := Add(Mul(Value(vals, 1, normalized, t), ComponentAt(scale, 1)), ComponentAt(offset, 1));
    c.(texcoord0 := Put2(c.texcoord0, 2 * v, u0, u1))
  }

  /** `parseTexcoord2`: the first two components, and the vertex flagged as having them. */
  function Texcoord2Written(c: Channels, v: nat, vals: seq<Num>, normalized: bool, t: DataType): Channels {
    c.(texcoord2 := Put2(c.texcoord2, 2 * v, Value(vals, 0, normalized, t), Value(vals, 1, normalized, t)),
       hasTexcoord2 := Put<Byte>(c.hasTexcoord2, v, 1))
  }

  /** `parseBlendindices`: four raw components (never normalized), and the flag. */
  function BlendindicesWritten(c: Channels, v: nat, vals: seq<Num>): Channels {
    c.(blendindices := Put4(c.blendindices, 4 * v, ComponentAt(vals, 0), ComponentAt(vals, 1), ComponentAt(vals, 2), ComponentAt(vals, 3)),
       hasBlendindices := Put<Byte>(c.hasBlendindices, v, 1))
  }

  /** `parseBlendweights`: four components, normalized when the element says so, and the flag. */
  function BlendweightWritten(c: Channels, v: nat, vals: seq<Num>, normalized: bool, t: DataType): Channels {
    c.(blendweight := Put4(c.blendweight, 4 * v, Value(vals, 0, normalized, t), Value(vals, 1, normalized, t),
                           Value(vals, 2, normalized, t), Value(vals, 3, normalized, t)),
       hasBlendweight := Put<Byte>(c.hasBlendweight, v, 1))
  }

  /** The permutation (x, y, z) -> (y, z, x): for a vertex inside the buffers,
      position slots 3v, 3v+1, 3v+2 hold the scaled y, z and x, positionW the raw
      w, and every other slot and buffer is as before. */
  lemma PositionWrittenSlots(c: Channels, n: nat, v: nat, vals: seq<Num>, scale: seq<Num>, offset: seq<Num>)
    requires Sized(c, n) && v < n
    ensures var d := PositionWritten(c, v, vals, scale, offset);
      Sized(d, n)
      && d.position[3 * v] == Add(Mul(ComponentAt(vals, 1), ComponentAt(scale, 1)), ComponentAt(offset, 1))
      && d.position[3 * v + 1] == Add(Mul(ComponentAt(vals, 2), ComponentAt(scale, 2)), ComponentAt(offset, 2))
      && d.position[3 * v + 2] == Add(Mul(ComponentAt(vals, 0), ComponentAt(scale, 0)), ComponentAt(offset, 0))
      && d.positionW[v] == ComponentAt(vals, 3)
      && (forall k :: 0 <= k < |c.position| && (k < 3 * v || k >= 3 * v + 3) ==> d.position[k] == c.position[k])
      && (forall k :: 0 <= k < |c.positionW| && k != v ==> d.positionW[k] == c.positionW[k])
      && d.(position := c.position, positionW := c.positionW) == c
  {
  }

  /** The normal is stored as (y, z, x) and the packed fields of w land in
      their buffers, the stride index modulo 256. */
  lemma NormalWrittenSlots(c: Channels, n: nat, v: nat, vals: seq<Num>, normalized: bool, t: DataType)
    requires Sized(c, n) && v < n
    ensures var d := NormalWritten(c, v, vals, normalized, t);
      Sized(d, n)
      && d.normal[3 * v .. 3 * v + 3] == [Value(vals, 1, normalized, t), Value(vals, 2, normalized, t), Value(vals, 0, normalized, t)]
      && d.dyeslot[v] == OfInt(DyeSlot(ComponentAt(vals, 3)))
      && d.uvScaleStrideIndex[v] == StrideIndex(ComponentAt(vals, 3)) % 256
      && d.(normal := c.normal, dyeslot := c.dyeslot, uvScaleStrideIndex := c.uvScaleStrideIndex) == c
  {
    var d := NormalWritten(c, v, vals, normalized, t);
    assert d.normal[3 * v .. 3 * v + 3][0] == d.normal[3 * v];
  }

  /** A stride index of 256 or more is not what the Uint8Array keeps: 256 is stored as 0. */
  lemma StrideIndexTruncated()
    ensures StrideIndex(OfInt(256 * 8)) == 256 && StrideIndex(OfInt(256 * 8)) % 256 == 0
  {
    StrideIndexBits(256 * 8);
  }

  /** The smallest and largest stride index seen (`uvScaleStrideIndex`), starting at 100000000000 and 0. */
  class StrideIndexRange {
    var min: int
    var max: int

    constructor()
      ensures min == 100000000000 && max == 0
    {
      min := 100000000000;
      max := 0;
    }

    /** `min = Math.min(min, i); max = Math.max(max, i)`. */
    method Include(i: int)
      modifies this
      ensures min == MinInt(old(min), i) && max == MaxInt(old(max), i)
    {
      min := MinInt(min, i);
      max := MaxInt(max, i);
    }
  }

  /** `Math.min` and `Math.max` on integers. */
  function MinInt(a: int, b: int): (m: int)
    ensures m <= a && m <= b && (m == a || m == b)
  {
    if a <= b then a else b
  }

  function MaxInt(a: int, b: int): (m: int)
    ensures m >= a && m >= b && (m == a || m == b)
  {
    if a >= b then a else b
  }

  /** The fourteen typed arrays of one render mesh, allocated for
      `vertexCount` vertices. Each buffer is a sequence field that the writers
      update slot by slot; the buffers are separate objects in the source, so
      no store to one can change another. */
  class Buffers {
    const vertexCount: nat
    var position: seq<Num>
    var positionW: seq<Num>
    var normal: seq<Num>
    var dyeslot: seq<Num>
    var tangent: seq<Num>
    var texcoord0: seq<Num>
    var texcoord2: seq<Num>
    var blendindices: seq<Num>
    var blendweight: seq<Num>
    var color: seq<Num>
    var uvScaleStrideIndex: seq<Byte>
    var hasBlendindices: seq<Byte>
    var hasBlendweight: seq<Byte>
    var hasTexcoord2: seq<Byte>

    /** The contents of the buffers. */
    function Snapshot(): Channels
      reads this
    {
      Channels(position, positionW, normal, dyeslot, tangent, texcoord0, texcoord2,
        blendindices, blendweight, color, uvScaleStrideIndex, hasBlendindices, hasBlendweight, hasTexcoord2)
    }

    /** Every buffer has the length the loader allocated. */
    ghost predicate Valid()
      reads this
    {
      var n := vertexCount;
      |position| == 3 * n && |positionW| == n && |normal| == 3 * n && |dyeslot| == n
      && |tangent| == 4 * n && |texcoord0| == 2 * n && |texcoord2| == 2 * n
      && |blendindices| == 4 * n && |blendweight| == 4 * n && |color| == 4 * n
      && |uvScaleStrideIndex| == n && |hasBlendindices| == n && |hasBlendweight| == n
      && |hasTexcoord2| == n
    }

    /** Allocates zero-filled buffers for `n` vertices. */
    constructor(n: nat)
      ensures Valid() && vertexCount == n && Snapshot() == Zeroed(n)
    {
      vertexCount := n;
      position := Zeros(3 * n);
      positionW := Zeros(n);
      normal := Zeros(3 * n);
      dyeslot := Zeros(n);
      tangent := Zeros(4 * n);
      texcoord0 := Zeros(2 * n);
      texcoord2 := Zeros(2 * n);
      blendindices := Zeros(4 * n);
      blendweight := Zeros(4 * n);
      color := Zeros(4 * n);
      uvScaleStrideIndex := ByteZeros(n);
      hasBlendindices := ByteZeros(n);
      hasBlendweight := ByteZeros(n);
      hasTexcoord2 := ByteZeros(n);
    }

    /** `parsePosition(buffers, v, vals, scale, offset)`. */
    method ParsePosition(v: nat, vals: seq<Num>, scale: seq<Num>, offset: seq<Num>)
      requires Valid()
      modifies this
      ensures Valid() && Snapshot() == PositionWritten(old(Snapshot()), v, vals, scale, offset)
    {
      var x := Add(Mul(ComponentAt(vals, 0), ComponentAt(scale, 0)), ComponentAt(offset, 0));
      var y := Add(Mul(ComponentAt(vals, 1), ComponentAt(scale, 1)), ComponentAt(offset, 1));
      var z := Add(Mul(ComponentAt(vals, 2), ComponentAt(scale, 2)), ComponentAt(offset, 2));
      var at := v * 3;
      position := Put3(position, at, y, z, x);
      positionW := Put(positionW, v, ComponentAt(vals, 3));
    }

    /** `parseTangent(buffers, v, vals, element)`. */
    method ParseTangent(v: nat, vals: seq<Num>, normalized: bool, t: DataType)
      requires Valid()
      modifies this
      ensures Valid() && Snapshot() == TangentWritten(old(Snapshot()), v, vals, normalized, t)
    {
      var tan := Components(vals, 4, normalized, t);
      var at := v * 4;
      tangent := Put4(tangent, at, tan[1], tan[2], tan[0], tan[3]);
    }

    /** `parseNormal(buffers, v, vals, element, uvScale)`. */
    method ParseNormal(v: nat, vals: seq<Num>, normalized: bool, t: DataType, range: StrideIndexRange)
      requires Valid()
      modifies this, range
      ensures Valid() && Snapshot() == NormalWritten(old(Snapshot()), v, vals, normalized, t)
      ensures range.min == MinInt(old(range.min), StrideIndex(ComponentAt(vals, 3)))
      ensures range.max == MaxInt(old(range.max), StrideIndex(ComponentAt(vals, 3)))
    {
      var nrm := Components(vals, 3, normalized, t);
      var at := v * 3;
      normal := Put3(normal, at, nrm[1], nrm[2], nrm[0]);
      var w := ComponentAt(vals, 3);
      dyeslot := Put(dyeslot, v, OfInt(DyeSlot(w)));
      var strideIndex := StrideIndex(w);
      uvScaleStrideIndex := Put<Byte>(uvScaleStrideIndex, v, Uint8Of(strideIndex));
      range.Include(strideIndex);
    }

    /** `parseTexcoord0(buffers, v, vals, element, texcoordScale, texcoordOffset)`. */
    method ParseTexcoord0(v: nat, vals: seq<Num>, normalized: bool, t: DataType, scale: seq<Num>, offset: seq<Num>)
      requires Valid()
      modifies this
      ensures Valid() && Snapshot() == Texcoord0Written(old(Snapshot()), v, vals, normalized, t, scale, offset)
    {
      var tc := Components(vals, 2, normalized, t);
      var at := v * 2;
      texcoord0 := Put2(texcoord0, at, Add(Mul(tc[0], ComponentAt(scale, 0)), ComponentAt(offset, 0)),
                                       Add(Mul(tc[1], ComponentAt(scale, 1)), ComponentAt(offset, 1)));
    }

    /** `parseTexcoord2(buffers, v, vals, element)`. */
    method ParseTexcoord2(v: nat, vals: seq<Num>, normalized: bool, t: DataType)
      requires Valid()
      modifies this
      ensures Valid() && Snapshot() == Texcoord2Written(old(Snapshot()), v, vals, normalized, t)
    {
      var tc := Components(vals, 2, normalized, t);
      var at := v * 2;
      texcoord2 := Put2(texcoord2, at, tc[0], tc[1]);
      hasTexcoord2 := Put<Byte>(hasTexcoord2, v, 1);
    }

    /** `parseBlendindices(buffers, v, vals, element)`. */
    method ParseBlendindices(v: nat, vals: seq<Num>)
      requires Valid()
      modifies this
      ensures Valid() && Snapshot() == BlendindicesWritten(old(Snapshot()), v, vals)
    {
      var at := v * 4;
      blendindices := Put4(blendindices, at, ComponentAt(vals, 0), ComponentAt(vals, 1), ComponentAt(vals, 2), ComponentAt(vals, 3));
      hasBlendindices := Put<Byte>(hasBlendindices, v, 1);
    }

    /** `parseBlendweights(buffers, v, vals, element)`. */
    method ParseBlendweights(v: nat, vals: seq<Num>, normalized: bool, t: DataType)
      requires Valid()
      modifies this
      ensures Valid() && Snapshot() == BlendweightWritten(old(Snapshot()), v, vals, normalized, t)
    {
      var bw := Components(vals, 4, normalized, t);
      var at := v * 4;
      blendweight := Put4(blendweight, at, bw[0], bw[1], bw[2], bw[3]);
      hasBlendweight := Put<Byte>(hasBlendweight, v, 1);
    }

    /** `addDataDrivenBufferData(buffers, meta, tgxStruct)`: nothing when the
        mesh has no data-driven buffer, else one normalized colour quad per
        iteration, read at `4 * i` of the named file. */
    method AddDataDrivenBufferData(fileName: Option<string>, byteSize: nat, strideByteSize: nat, files: map<string, seq<Byte>>)
      returns (err: Option<Error>)
      requires Valid()
      modifies this
      ensures Valid()
      ensures fileName.None? || fileName == Some("") ==> err.None? && Snapshot() == old(Snapshot())
      ensures fileName.Some? && fileName != Some("") && fileName.value !in files ==>
        (err.None? <==> LoopBound(byteSize, strideByteSize, 0) == 0) && (err.None? ==> Snapshot() == old(Snapshot()))
        && (err.Some? ==> err == Some(TypeError))
      ensures fileName.Some? && fileName != Some("") && fileName.value in files ==>
        var r := ColorPass(old(color), files[fileName.value], LoopBound(byteSize, strideByteSize, |files[fileName.value]|));
        (err.None? <==> r.Some?) && (err.Some? ==> err == Some(TypeError))
        && (r.Some? ==> Snapshot() == old(Snapshot()).(color := r.value))
    {
      err := None;
      if fileName.None? || fileName == Some("") {
        return;
      }
      if fileName.value !in files {
        if LoopBound(byteSize, strideByteSize, 0) > 0 {
          err := Some(TypeError);
        }
        return;
      }
      var bytes := files[fileName.value];
      var length := LoopBound(byteSize, strideByteSize, |bytes|);
      var i := 0;
      while i < length
        invariant 0 <= i <= length
        invariant ColorPass(old(color), bytes, i) == Some(color)
        invariant Snapshot() == old(Snapshot()).(color := color)
      {
        var quad := ColorQuad(bytes, i);
        if quad.None? {
          err := Some(TypeError);
          NoRecovery(old(color), bytes, i + 1, length);
          return;
        }
        var q := quad.value;
        ghost var next := Put4(color, i * 4, q[0], q[1], q[2], q[3]);
        assert ColorPass(old(color), bytes, i + 1) == Some(next);
        var at := i * 4;
        color := Put4(color, at, q[0], q[1], q[2], q[3]);
        i := i + 1;
      }
    }

    /** The branch of `addSkinBufferData` taken without a skin buffer, vertex by vertex. */
    method AssignFallbackWeights()
      requires Valid()
      modifies this
      ensures Valid() && Snapshot() == FallbackWeights(old(Snapshot()), vertexCount)
    {
      ghost var c := old(Snapshot());
      var v := 0;
      while v < vertexCount
        invariant 0 <= v <= vertexCount
        invariant Snapshot() == c.(blendindices := blendindices, blendweight := blendweight)
        invariant |blendindices| == 4 * vertexCount && |blendweight| == 4 * vertexCount
        invariant forall k :: 0 <= k < 4 * vertexCount ==>
          blendindices[k] == if k < 4 * v then FallbackIndex(c, vertexCount, k) else c.blendindices[k]
        invariant forall k :: 0 <= k < 4 * vertexCount ==>
          blendweight[k] == if k < 4 * v then FallbackWeight(c, vertexCount, k) else c.blendweight[k]
      {
        var at := v * 4;
        assert forall k :: at <= k < at + 4 ==> k / 4 == v && k % 4 == k - at;
        if hasBlendindices[v] == 0 && hasBlendweight[v] == 0 {
          blendindices := blendindices[at := positionW[v]];
          blendweight := blendweight[at := Fin(1.0)];
        } else if hasBlendindices[v] == 1 && hasBlendweight[v] == 0 {
          blendweight := blendweight[at := DivBy(blendindices[at + 2], 255.0)][at + 1 := DivBy(blendindices[at + 3], 255.0)];
        }
        v := v + 1;
      }
      assert blendindices == FallbackWeights(c, vertexCount).blendindices;
      assert blendweight == FallbackWeights(c, vertexCount).blendweight;
    }

    /** The texcoord2 post-pass of `#parseGeometryBuffers`. */
    method Texcoord2PostPass(destiny2: bool)
      requires Valid()
      modifies this
      ensures Valid() && Snapshot() == old(Snapshot()).(texcoord2 := Texcoord2Final(old(Snapshot()), destiny2))
    {
      ghost var c := old(Snapshot());
      var v := 0;
      while v < vertexCount
        invariant 0 <= v <= vertexCount
        invariant Snapshot() == c.(texcoord2 := texcoord2)
        invariant |texcoord2| == 2 * vertexCount
        invariant forall k :: 0 <= k < 2 * vertexCount ==>
          texcoord2[k] == if k < 2 * v then Texcoord2At(c, destiny2, k) else c.texcoord2[k]
      {
        var at := v * 2;
        assert at / 2 == v && (at + 1) / 2 == v;
        if destiny2 {
          if hasTexcoord2[v] == 0 {
            texcoord2 := texcoord2[at := Mul(texcoord0[at], Fin(4.0))][at + 1 := Mul(texcoord0[at + 1], Fin(4.0))];
          }
        } else {
          if hasTexcoord2[v] == 0 {
            texcoord2 := texcoord2[at := texcoord0[at]][at + 1 := texcoord0[at + 1]];
          } else {
            texcoord2 := texcoord2[at := Mul(texcoord0[at], texcoord2[at])][at + 1 := Mul(texcoord0[at + 1], texcoord2[at + 1])];
          }
        }
        v := v + 1;
      }
      assert texcoord2 == Texcoord2Final(c, destiny2);
    }
  }

  /** The four normalized unsigned bytes at `4 * i`, or None (undefined, and then a TypeError) past the end. */
  function ColorQuad(bytes: seq<Byte>, i: nat): Option<seq<Num>> {
    if 4 * i + 4 <= |bytes| then
      Some([ColorComponent(bytes[4 * i]), ColorComponent(bytes[4 * i + 1]),
            ColorComponent(bytes[4 * i + 2]), ColorComponent(bytes[4 * i + 3])])
    else None
  }

  /** The colour buffer after the first `n` iterations of `addDataDrivenBufferData`'s
      loop; None when an iteration reads past the data-driven buffer. */
  function ColorPass(color: seq<Num>, bytes: seq<Byte>, n: nat): (r: Option<seq<Num>>)
    ensures r.Some? ==> |r.value| == |color|
  {
    if n == 0 then Some(color)
    else match ColorPass(color, bytes, n - 1)
      case None => None
      case Some(c) =>
        match ColorQuad(bytes, n - 1)
        case None => None
        case Some(q) => Some(Put4(c, 4 * (n - 1), q[0], q[1], q[2], q[3]))
  }

  /** The iterations that `Math.floor(byteSize / strideByteSize)` allows. A zero
      stride gives NaN for an empty buffer (no iteration) and Infinity
      otherwise; an unbounded loop stops at the first read past the `available`
      bytes, exactly as a bound of `available / 4 + 1` does. */
  function LoopBound(byteSize: nat, stride: nat, available: nat): nat {
    if stride > 0 then byteSize / stride
    else if byteSize == 0 then 0
    else available / 4 + 1
  }

  /** Four consecutive stores: slots `at` to `at + 3` take the four values
      (those inside the array), every other slot keeps its value. */
  lemma Put4Slots(s: seq<Num>, at: int, a: Num, b: Num, c: Num, d: Num)
    ensures |Put4(s, at, a, b, c, d)| == |s|
    ensures forall k :: 0 <= k < |s| ==> Put4(s, at, a, b, c, d)[k] == if at <= k < at + 4 then [a, b, c, d][k - at] else s[k]
  {
  }

  /** The colour pass succeeds exactly when every iteration's quad lies in the buffer. */
  lemma {:induction false} ColorPassSucceeds(color: seq<Num>, bytes: seq<Byte>, n: nat)
    ensures ColorPass(color, bytes, n).Some? <==> n == 0 || 4 * n <= |bytes|
  {
    if n > 0 {
      ColorPassSucceeds(color, bytes, n - 1);
    }
  }

  /** `normalize` of one unsigned byte, as a colour component. */
  function ColorComponent(b: Byte): Num {
    NormalizedAt(OfInt(b), UnsignedByte)
  }

  /** After a successful colour pass, colour slot k holds the normalized byte
      k of the data-driven buffer for every slot the pass reached, and its old
      value beyond. */
  lemma {:induction false} ColorPassValues(color: seq<Num>, bytes: seq<Byte>, n: nat)
    requires 4 * n <= |bytes|
    ensures ColorPass(color, bytes, n).Some?
    ensures forall k :: 0 <= k < |color| ==>
      ColorPass(color, bytes, n).value[k] == if k < 4 * n then ColorComponent(bytes[k]) else color[k]
  {
    if n > 0 {
      ColorPassValues(color, bytes, n - 1);
      var prev := ColorPass(color, bytes, n - 1).value;
      var q := ColorQuad(bytes, n - 1).value;
      var at := 4 * (n - 1);
      var r := ColorPass(color, bytes, n).value;
      assert r == Put4(prev, at, q[0], q[1], q[2], q[3]);
      Put4Slots(prev, at, q[0], q[1], q[2], q[3]);
      forall k | 0 <= k < |color|
        ensures r[k] == if k < 4 * n then ColorComponent(bytes[k]) else color[k]
      {
        if at <= k < at + 4 {
          assert r[k] == q[k - at];
        }
      }
    }
  }

  /** Once an iteration fails, later bounds fail too. */
  lemma {:induction false} NoRecovery(color: seq<Num>, bytes: seq<Byte>, m: nat, n: nat)
    requires m <= n && ColorPass(color, bytes, m).None?
    ensures ColorPass(color, bytes, n).None?
    decreases n - m
  {
    if m < n {
      NoRecovery(color, bytes, m + 1, n);
    }
  }

  /** Vertex v has neither blend indices nor blend weights. */
  predicate Unskinned(c: Channels, v: nat)
    requires v < |c.hasBlendindices| && v < |c.hasBlendweight|
  {
    c.hasBlendindices[v] == 0 && c.hasBlendweight[v] == 0
  }

  /** Vertex v has blend indices but no blend weights. */
  predicate IndicesOnly(c: Channels, v: nat)
    requires v < |c.hasBlendindices| && v < |c.hasBlendweight|
  {
    c.hasBlendindices[v] == 1 && c.hasBlendweight[v] == 0
  }

  /** The buffers after `addSkinBufferData`'s branch without a skin buffer. */
  function FallbackWeights(c: Channels, n: nat): (d: Channels)
    requires Sized(c, n)
  {
    c.(blendindices := seq(4 * n, k requires 0 <= k < 4 * n => FallbackIndex(c, n, k)),
       blendweight := seq(4 * n, k requires 0 <= k < 4 * n => FallbackWeight(c, n, k)))
  }

  /** Without a skin buffer: an unskinned vertex is bound to the bone in
      positionW with weight 1; a vertex with indices only takes its first two
      weights from index slots 2 and 3 divided by 255; every other slot and
      buffer is unchanged. */
  lemma FallbackWeightsMeaning(c: Channels, n: nat, v: nat)
    requires Sized(c, n) && v < n
    ensures var d := FallbackWeights(c, n);
      Sized(d, n)
      && d.(blendindices := c.blendindices, blendweight := c.blendweight) == c
      && (Unskinned(c, v) ==> d.blendindices[4 * v] == c.positionW[v] && d.blendweight[4 * v] == Fin(1.0))
      && (IndicesOnly(c, v) ==>
            d.blendweight[4 * v] == DivBy(c.blendindices[4 * v + 2], 255.0)
            && d.blendweight[4 * v + 1] == DivBy(c.blendindices[4 * v + 3], 255.0))
      && (forall k :: 4 * v <= k < 4 * v + 4 ==> d.blendindices[k] == c.blendindices[k] || (k == 4 * v && Unskinned(c, v)))
      && (!Unskinned(c, v) && !IndicesOnly(c, v) ==> forall k :: 4 * v <= k < 4 * v + 4 ==> d.blendweight[k] == c.blendweight[k])
  {
    assert forall k :: 4 * v <= k < 4 * v + 4 ==> k / 4 == v && k % 4 == k - 4 * v;
  }

  function FallbackIndex(c: Channels, n: nat, k: nat): Num
    requires Sized(c, n) && k < 4 * n
  {
    if k % 4 == 0 && Unskinned(c, k / 4) then c.positionW[k / 4] else c.blendindices[k]
  }

  function FallbackWeight(c: Channels, n: nat, k: nat): Num
    requires Sized(c, n) && k < 4 * n
  {
    var v := k / 4;
    if k % 4 == 0 && Unskinned(c, v) then Fin(1.0)
    else if k % 4 < 2 && IndicesOnly(c, v) then DivBy(c.blendindices[k + 2], 255.0)
    else c.blendweight[k]
  }

  /** Slot k of texcoord2 after the post-pass: Destiny 2 fills an unset vertex
      with texcoord0 * 4; Destiny 1 copies texcoord0 into an unset vertex and
      multiplies a set one element-wise by texcoord0. */
  function Texcoord2At(c: Channels, destiny2: bool, k: nat): Num
    requires k < |c.texcoord2| && k < |c.texcoord0| && k / 2 < |c.hasTexcoord2|
  {
    if destiny2 then
      (if c.hasTexcoord2[k / 2] == 0 then Mul(c.texcoord0[k], Fin(4.0)) else c.texcoord2[k])
    else
      (if c.hasTexcoord2[k / 2] == 0 then c.texcoord0[k] else Mul(c.texcoord0[k], c.texcoord2[k]))
  }

  function Texcoord2Final(c: Channels, destiny2: bool): (r: seq<Num>)
    requires |c.texcoord0| == |c.texcoord2| == 2 * |c.hasTexcoord2|
    ensures |r| == |c.texcoord2|
    ensures forall k :: 0 <= k < |r| ==> r[k] == Texcoord2At(c, destiny2, k)
  {
    seq(|c.texcoord2|, k requires 0 <= k < |c.texcoord2| => Texcoord2At(c, destiny2, k))
  }

}
