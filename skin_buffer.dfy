/** The skin buffer of a render mesh (`singlePassSkinVertexBuffer`):
    `parseSkinBuffer` turns its 4-byte records into UV scales and blend
    entries, `assignSkinWeights` gives each vertex its bones from those
    entries, and `addSkinBufferData` chooses between that and the fallback
    for meshes without a skin buffer. */
module SkinBuffer {
  import opened Wrappers
  import opened Numbers
  import opened Bytes
  import opened BufferUtilities
  import opened VertexBuffers

  /** Four values: a record's bytes, or one blend entry's indices or weights. */
  datatype Quad<T> = Quad(q0: T, q1: T, q2: T, q3: T)

  const ZeroIndices: Quad<nat> := Quad(0, 0, 0, 0)
  const ZeroWeights: Quad<Num> := Quad(Fin(0.0), Fin(0.0), Fin(0.0), Fin(0.0))

  /** `BufferPack.unpack("< 4B", bytes, i * 4)`, destructured by the caller:
      a missing file or a record past the end gives undefined, and so a
      TypeError; a negative offset reaches BufferPack, whose behaviour there
      is not modelled. */
  function Record(bytes: Option<seq<Byte>>, i: int): (r: Result<Quad<Byte>>)
    ensures r.Success? <==> bytes.Some? && 0 <= i && 4 * i + 4 <= |bytes.value|
  {
    if bytes.None? then Failure(TypeError)
    else if i < 0 then Failure(Unsupported)
    else if 4 * i + 4 > |bytes.value| then Failure(TypeError)
    else
      var b := bytes.value;
      Success(Quad(b[4 * i], b[4 * i + 1], b[4 * i + 2], b[4 * i + 3]))
  }

  /** `BufferPack.unpack("< 2H", bytes, i * 4)` of a record, each half read by `shortToHalf`. */
  function UvPair(q: Quad<Byte>): (real, real) {
    (ShortToHalf(q.q0 + 256 * q.q1), ShortToHalf(q.q2 + 256 * q.q3))
  }

  /** `normalize([w], "ubyte")[0]`. */
  function Weight(b: Byte): Num {
    NormalizedAt(OfInt(b), UnsignedByte)
  }

  /** A byte weight is the byte divided by 255. */
  lemma WeightValue(b: Byte)
    ensures Weight(b).Fin? && Weight(b).r * 255.0 == b as real
    ensures 0.0 <= Weight(b).r <= 1.0
  {
    NormalizedRange(b, UnsignedByte);
  }

  /** The number of UV records, `min` to `max` inclusive. */
  function UvCount(min: int, max: int): nat {
    if min <= max then max - min + 1 else 0
  }

  /** The UV scales of the first `n` records from `min`, or the error of the first read that fails. */
  function UvScales(bytes: Option<seq<Byte>>, min: int, n: nat): (r: Result<seq<(real, real)>>)
    ensures r.Success? ==> |r.value| == n
  {
    if n == 0 then Success([])
    else match UvScales(bytes, min, n - 1)
      case Failure(e) => Failure(e)
      case Success(s) =>
        match Record(bytes, min + n - 1)
        case Failure(e) => Failure(e)
        case Success(q) => Success(s + [UvPair(q)])
  }

  lemma {:induction false} UvNoRecovery(bytes: Option<seq<Byte>>, min: int, m: nat, n: nat, e: Error)
    requires m <= n && UvScales(bytes, min, m) == Failure(e)
    ensures UvScales(bytes, min, n) == Failure(e)
    decreases n - m
  {
    if m < n {
      UvNoRecovery(bytes, min, m + 1, n, e);
    }
  }

  /** The blend entries pushed so far and whether a weight sum was reported. */
  datatype Skin = Skin(indices: seq<Quad<nat>>, weights: seq<Quad<Num>>, warned: bool)

  /** One iteration of the skinning loop: the tables after it, the next
      record, and whether it ended the loop with `break`. */
  datatype Stepped = Stepped(skin: Skin, next: int, stop: bool)

  /** An all-zero record is an empty entry; weights below 255 in sum make a
      4-bone entry of this record and the next, followed by an empty entry;
      otherwise the record is a 2-bone entry. */
  function SkinStep(bytes: Option<seq<Byte>>, i: int, s: Skin): (r: Result<Stepped>)
    ensures r.Success? && !r.value.stop ==> bytes.Some? && r.value.next > i && 4 * r.value.next <= |bytes.value|
  {
    match Record(bytes, i)
    case Failure(e) => Failure(e)
    case Success(q) =>
      if q.q0 == 0 && q.q1 == 0 && q.q2 == 0 && q.q3 == 0 then
        Success(Stepped(Skin(s.indices + [ZeroIndices], s.weights + [ZeroWeights], s.warned), i + 1, false))
      else if q.q2 + q.q3 < 255 then
        if (i + 1) * 4 >= |bytes.value| then Success(Stepped(s, i + 1, true))
        else match Record(bytes, i + 1)
          case Failure(e) => Failure(e)
          case Success(p) =>
            Success(Stepped(
              Skin(s.indices + [Quad(q.q0, q.q1, p.q0, p.q1), ZeroIndices],
                   s.weights + [Quad(Weight(q.q2), Weight(q.q3), Weight(p.q2), Weight(p.q3)), ZeroWeights],
                   s.warned || q.q2 + q.q3 + p.q2 + p.q3 != 255),
              i + 2, false))
      else
        Success(Stepped(
          Skin(s.indices + [Quad(q.q0, q.q1, 0, 0)],
               s.weights + [Quad(Weight(q.q2), Weight(q.q3), Fin(0.0), Fin(0.0))],
               s.warned || q.q2 + q.q3 != 255),
          i + 1, false))
  }

  /** Records left to read from `i` on: every iteration that goes on reads further into the buffer. */
  function Remaining(bytes: Option<seq<Byte>>, i: int): nat {
    if bytes.Some? && 4 * i <= |bytes.value| then |bytes.value| - 4 * i + 1 else 0
  }

  /** `i < strideCount`, where None stands for an Infinity count. */
  predicate Below(i: int, strideCount: Option<nat>) {
    strideCount.None? || i < strideCount.value
  }

  /** The skinning loop from record `i` with tables `s`. */
  function SkinFrom(bytes: Option<seq<Byte>>, strideCount: Option<nat>, i: int, s: Skin): Result<Skin>
    decreases Remaining(bytes, i)
  {
    if !Below(i, strideCount) then Success(s)
    else match SkinStep(bytes, i, s)
      case Failure(e) => Failure(e)
      case Success(st) => if st.stop then Success(st.skin) else SkinFrom(bytes, strideCount, st.next, st.skin)
  }

  /** `Math.floor(byte_size / stride_byte_size)`: a zero stride gives NaN for
      an empty buffer, which allows no iteration, and Infinity otherwise (None). */
  function StrideCount(byteSize: nat, strideByteSize: nat): Option<nat> {
    if strideByteSize > 0 then Some(byteSize / strideByteSize)
    else if byteSize == 0 then Some(0)
    else None
  }

  /** What `parseSkinBuffer` returns, with the 255-sum reports as a flag. */
  datatype SkinTables = SkinTables(
    uvScales: seq<(real, real)>, blendIndices: seq<Quad<nat>>, blendWeights: seq<Quad<Num>>,
    firstBoneStride: int, warned: bool)

  /** `n` empty entries. */
  function EmptyEntries(n: nat): Skin {
    Skin(seq(n, _ => ZeroIndices), seq(n, _ => ZeroWeights), false)
  }

  lemma EmptyEntriesStep(n: nat)
    ensures EmptyEntries(n + 1) == Skin(EmptyEntries(n).indices + [ZeroIndices], EmptyEntries(n).weights + [ZeroWeights], false)
  {
    assert EmptyEntries(n + 1).indices == EmptyEntries(n).indices + [ZeroIndices];
    assert EmptyEntries(n + 1).weights == EmptyEntries(n).weights + [ZeroWeights];
  }

  /** `parseSkinBuffer(bytes, strideCount, {min, max})`: one UV scale pair and
      one empty entry per record from `min` to `max`, then the skinning loop
      from `max + 1`. */
  function ParsedSkin(bytes: Option<seq<Byte>>, strideCount: Option<nat>, min: int, max: int): Result<SkinTables> {
    var n := UvCount(min, max);
    match UvScales(bytes, min, n)
    case Failure(e) => Failure(e)
    case Success(uv) =>
      match SkinFrom(bytes, strideCount, max + 1, EmptyEntries(n))
      case Failure(e) => Failure(e)
      case Success(s) => Success(SkinTables(uv, s.indices, s.weights, 0, s.warned))
  }

  /** One iteration of the skinning loop, as the source writes it. */
  method SkinStride(bytes: Option<seq<Byte>>, i: int, blendIndices: seq<Quad<nat>>, blendWeights: seq<Quad<Num>>, warned: bool)
    returns (r: Result<Stepped>)
    ensures r == SkinStep(bytes, i, Skin(blendIndices, blendWeights, warned))
  {
    var stride := Record(bytes, i);
    if stride.Failure? {
      return Failure(stride.error);
    }
    var q := stride.value;
    var weights := Normalize([OfInt(q.q2), OfInt(q.q3)], UnsignedByte);
    if q.q0 == 0 && q.q1 == 0 && q.q2 == 0 && q.q3 == 0 {
      r := Success(Stepped(Skin(blendIndices + [ZeroIndices], blendWeights + [ZeroWeights], warned), i + 1, false));
    } else if q.q2 + q.q3 < 255 {
      var j := i + 1;
      if j * 4 >= |bytes.value| {
        return Success(Stepped(Skin(blendIndices, blendWeights, warned), j, true));
      }
      var second := Record(bytes, j);
      if second.Failure? {
        return Failure(second.error);
      }
      var p := second.value;
      var more := Normalize([OfInt(p.q2), OfInt(p.q3)], UnsignedByte);
      var mismatch := q.q2 + q.q3 + p.q2 + p.q3 != 255;
      r := Success(Stepped(
        Skin(blendIndices + [Quad(q.q0, q.q1, p.q0, p.q1), ZeroIndices],
             blendWeights + [Quad(weights[0], weights[1], more[0], more[1]), ZeroWeights],
             warned || mismatch),
        j + 1, false));
    } else {
      var mismatch := q.q2 + q.q3 != 255;
      r := Success(Stepped(
        Skin(blendIndices + [Quad(q.q0, q.q1, 0, 0)],
             blendWeights + [Quad(weights[0], weights[1], Fin(0.0), Fin(0.0))],
             warned || mismatch),
        i + 1, false));
    }
  }

  /** The UV block of `parseSkinBuffer`: one scale pair and one empty entry
      per record from `min` to `max`. Its anomaly check can never fire,
      because it asks for `i > max` inside a loop bounded by `i <= max`. */
  method UvBlock(bytes: Option<seq<Byte>>, min: int, max: int)
    returns (r: Result<seq<(real, real)>>, blendIndices: seq<Quad<nat>>, blendWeights: seq<Quad<Num>>,
             firstBoneStride: int, uvStrideBroken: bool)
    ensures r == UvScales(bytes, min, UvCount(min, max))
    ensures r.Success? ==> !uvStrideBroken && firstBoneStride == 0
    ensures r.Success? ==> Skin(blendIndices, blendWeights, false) == EmptyEntries(UvCount(min, max))
  {
    var uvScales: seq<(real, real)> := [];
    blendIndices, blendWeights := [], [];
    uvStrideBroken, firstBoneStride := false, 0;
    var n := UvCount(min, max);
    var k := 0;
    while min + k <= max
      invariant 0 <= k <= n
      invariant UvScales(bytes, min, k) == Success(uvScales)
      invariant Skin(blendIndices, blendWeights, false) == EmptyEntries(k)
      decreases n - k
    {
      var i := min + k;
      var stride := Record(bytes, i);
      if stride.Failure? {
        UvNoRecovery(bytes, min, k + 1, n, stride.error);
        return Failure(stride.error), blendIndices, blendWeights, firstBoneStride, uvStrideBroken;
      }
      var q := stride.value;
      if q.q0 != q.q2 && q.q2 + q.q3 == 255 && i > max {
        uvStrideBroken := true;
        firstBoneStride := i;
        break;
      }
      EmptyEntriesStep(k);
      uvScales := uvScales + [UvPair(q)];
      blendIndices := blendIndices + [ZeroIndices];
      blendWeights := blendWeights + [ZeroWeights];
      k := k + 1;
    }
    r := Success(uvScales);
  }

  /** `parseSkinBuffer`: the UV block, then the skinning loop from the
      record after the UV block. */
  method ParseSkinBuffer(bytes: Option<seq<Byte>>, strideCount: Option<nat>, min: int, max: int)
    returns (r: Result<SkinTables>)
    ensures r == ParsedSkin(bytes, strideCount, min, max)
    ensures r.Success? ==> r.value.firstBoneStride == 0
  {
    var uv, blendIndices, blendWeights, firstBoneStride, uvStrideBroken := UvBlock(bytes, min, max);
    if uv.Failure? {
      return Failure(uv.error);
    }
    ghost var total := SkinFrom(bytes, strideCount, max + 1, EmptyEntries(UvCount(min, max)));
    var i := if uvStrideBroken then firstBoneStride else max + 1;
    var warned := false;
    var stop := false;
    while Below(i, strideCount) && !stop
      invariant stop ==> total == Success(Skin(blendIndices, blendWeights, warned))
      invariant !stop ==> total == SkinFrom(bytes, strideCount, i, Skin(blendIndices, blendWeights, warned))
      decreases Remaining(bytes, i), if stop then 0 else 1
    {
      var step := SkinStride(bytes, i, blendIndices, blendWeights, warned);
      if step.Failure? {
        return Failure(step.error);
      }
      var st := step.value;
      blendIndices, blendWeights, warned := st.skin.indices, st.skin.weights, st.skin.warned;
      if st.stop {
        stop := true;
      } else {
        i := st.next;
      }
    }
    r := Success(SkinTables(uv.value, blendIndices, blendWeights, firstBoneStride, warned));
  }

  /** One skinning step adds one entry to both tables, or two (4-bone), or none (the stop). */
  lemma SkinStepExtends(bytes: Option<seq<Byte>>, i: int, s: Skin)
    requires SkinStep(bytes, i, s).Success?
    ensures var t := SkinStep(bytes, i, s).value.skin;
      |t.indices| - |s.indices| == |t.weights| - |s.weights| >= 0
      && t.indices[..|s.indices|] == s.indices && t.weights[..|s.weights|] == s.weights
  {
  }

  /** The skinning loop only appends to the tables, in step. */
  lemma {:induction false} SkinFromExtends(bytes: Option<seq<Byte>>, strideCount: Option<nat>, i: int, s: Skin)
    requires SkinFrom(bytes, strideCount, i, s).Success?
    ensures var t := SkinFrom(bytes, strideCount, i, s).value;
      |t.indices| - |s.indices| == |t.weights| - |s.weights| >= 0
      && t.indices[..|s.indices|] == s.indices && t.weights[..|s.weights|] == s.weights
    decreases Remaining(bytes, i)
  {
    if Below(i, strideCount) {
      SkinStepExtends(bytes, i, s);
      var st := SkinStep(bytes, i, s).value;
      if !st.stop {
        SkinFromExtends(bytes, strideCount, st.next, st.skin);
      }
    }
  }

  /** The result of `parseSkinBuffer`: `firstBoneStride` is 0, the two blend
      tables have equal length, there is one UV scale pair per UV record, and
      each UV record has an empty entry at its position in the blend tables. */
  lemma ParsedSkinShape(bytes: Option<seq<Byte>>, strideCount: Option<nat>, min: int, max: int)
    requires ParsedSkin(bytes, strideCount, min, max).Success?
    ensures var t := ParsedSkin(bytes, strideCount, min, max).value;
      t.firstBoneStride == 0 && |t.blendIndices| == |t.blendWeights|
      && |t.uvScales| == UvCount(min, max) <= |t.blendIndices|
      && (forall k :: 0 <= k < UvCount(min, max) ==> t.blendIndices[k] == ZeroIndices && t.blendWeights[k] == ZeroWeights)
  {
    var n := UvCount(min, max);
    SkinFromExtends(bytes, strideCount, max + 1, EmptyEntries(n));
    var t := ParsedSkin(bytes, strideCount, min, max).value;
    forall k | 0 <= k < n
      ensures t.blendIndices[k] == ZeroIndices && t.blendWeights[k] == ZeroWeights
    {
      assert t.blendIndices[k] == t.blendIndices[..n][k];
      assert t.blendWeights[k] == t.blendWeights[..n][k];
    }
  }

  /** An all-zero record is an empty entry, even though its weights also sum
      to less than 255: the next record is not read. */
  lemma EmptyRecordFirst(b: seq<Byte>, i: nat, s: Skin)
    requires 4 * i + 4 <= |b| && b[4 * i] == b[4 * i + 1] == b[4 * i + 2] == b[4 * i + 3] == 0
    ensures Record(Some(b), i).value.q2 + Record(Some(b), i).value.q3 < 255
    ensures SkinStep(Some(b), i, s) == Success(Stepped(Skin(s.indices + [ZeroIndices], s.weights + [ZeroWeights], s.warned), i + 1, false))
  {
  }

  /** A record with weights below 255 in sum and a non-zero byte is the first
      half of a 4-bone entry: when the next record starts past the buffer the
      loop stops with the tables unchanged; otherwise the entry takes both
      indices and both weights of each record, and an empty entry follows it. */
  lemma FourBoneStep(b: seq<Byte>, i: nat, s: Skin)
    requires 4 * i + 4 <= |b| && (b[4 * i + 2] as int) + (b[4 * i + 3] as int) < 255
    requires b[4 * i] != 0 || b[4 * i + 1] != 0 || b[4 * i + 2] != 0 || b[4 * i + 3] != 0
    ensures 4 * (i + 1) >= |b| ==> SkinStep(Some(b), i, s) == Success(Stepped(s, i + 1, true))
    ensures 4 * (i + 1) < |b| < 4 * (i + 1) + 4 ==> SkinStep(Some(b), i, s) == Failure(TypeError)
    ensures 4 * (i + 1) + 4 <= |b| ==> (SkinStep(Some(b), i, s).Success?
      && var st := SkinStep(Some(b), i, s).value; var j := 4 * i;
      !st.stop && st.next == i + 2
      && st.skin.indices == s.indices + [Quad(b[j], b[j + 1], b[j + 4], b[j + 5]), ZeroIndices]
      && st.skin.weights == s.weights + [Quad(Weight(b[j + 2]), Weight(b[j + 3]), Weight(b[j + 6]), Weight(b[j + 7])), ZeroWeights]
      && (st.skin.warned <==> s.warned || (b[j + 2] as int) + (b[j + 3] as int) + (b[j + 6] as int) + (b[j + 7] as int) != 255))
  {
  }

  /** A record with weights of at least 255 in sum is a 2-bone entry: its two
      indices with two zero indices, and its two weights, which sum to at
      least 1, with two zero weights. */
  lemma TwoBoneStep(b: seq<Byte>, i: nat, s: Skin)
    requires 4 * i + 4 <= |b| && (b[4 * i + 2] as int) + (b[4 * i + 3] as int) >= 255
    ensures SkinStep(Some(b), i, s).Success?
    ensures var st := SkinStep(Some(b), i, s).value; var j := 4 * i;
      !st.stop && st.next == i + 1
      && st.skin.indices == s.indices + [Quad(b[j], b[j + 1], 0, 0)]
      && st.skin.weights == s.weights + [Quad(Weight(b[j + 2]), Weight(b[j + 3]), Fin(0.0), Fin(0.0))]
      && Weight(b[j + 2]).r + Weight(b[j + 3]).r >= 1.0
      && (st.skin.warned <==> s.warned || (b[j + 2] as int) + (b[j + 3] as int) != 255)
  {
    WeightValue(b[4 * i + 2]);
    WeightValue(b[4 * i + 3]);
  }

  /** A weight sum other than 255 is only reported: the step is the same whatever the report flag. */
  lemma SkinStepWarned(bytes: Option<seq<Byte>>, i: int, s: Skin, warned: bool)
    ensures var a := SkinStep(bytes, i, s); var c := SkinStep(bytes, i, s.(warned := warned));
      a.Success? == c.Success?
      && (a.Success? ==> (a.value.next == c.value.next && a.value.stop == c.value.stop
          && a.value.skin.indices == c.value.skin.indices && a.value.skin.weights == c.value.skin.weights))
  {
  }

  /** A weight sum other than 255 is only reported: the skinning loop
      succeeds, fails and fills the tables the same whatever was reported. */
  lemma {:induction false} SkinFromWarned(bytes: Option<seq<Byte>>, strideCount: Option<nat>, i: int, s: Skin, warned: bool)
    ensures var a := SkinFrom(bytes, strideCount, i, s); var c := SkinFrom(bytes, strideCount, i, s.(warned := warned));
      a.Success? == c.Success?
      && (a.Success? ==> a.value.indices == c.value.indices && a.value.weights == c.value.weights)
    decreases Remaining(bytes, i)
  {
    if Below(i, strideCount) {
      SkinStepWarned(bytes, i, s, warned);
      var a := SkinStep(bytes, i, s);
      if a.Success? && !a.value.stop {
        var c := SkinStep(bytes, i, s.(warned := warned));
        assert c.value.skin == a.value.skin.(warned := c.value.skin.warned);
        SkinFromWarned(bytes, strideCount, a.value.next, a.value.skin, c.value.skin.warned);
      }
    }
  }

  // assignSkinWeights

  /** `prevBlendIndex` and `offset`: the group of the last multi-bone vertex
      and the position reached inside that group's entries. */
  datatype Cursor = Cursor(prev: Num, offset: nat)

  const Start: Cursor := Cursor(Fin(0.0), 0)

  /** `a === b` on numbers: NaN equals nothing, itself included. */
  predicate SameNumber(a: Num, b: Num) {
    a.Fin? && b.Fin? && a.r == b.r
  }

  /** The blend group that a vertex's positionW selects, or None for a
      single bone: a value from 0 to 255 is the bone itself; a negative value
      is a group of up to four bones, its absolute value less the 0x800 flag;
      a larger value (and NaN, for which every comparison is false) is a group
      of up to two bones, the value less the flag. */
  function Group(w: Num): (g: Option<Num>)
    ensures g.None? <==> w.Fin? && 0.0 <= w.r <= 255.0
    ensures w.Fin? && w.r < 0.0 ==> g == Some(Fin(-w.r - 2048.0))
    ensures w.Fin? && w.r > 255.0 ==> g == Some(Fin(w.r - 2048.0))
    ensures w.NaN? ==> g == Some(NaN)
  {
    if Le(Fin(0.0), w) && Le(w, Fin(255.0)) then None
    else if Lt(w, Fin(0.0)) then Some(Sub(Abs(w), Fin(2048.0)))
    else Some(Sub(w, Fin(2048.0)))
  }

  /** How many of an entry's indices are non-zero (the `reduce` over it). */
  function Count(q: Quad<nat>): (k: nat)
    ensures k <= 4 && (k == 0 <==> q == ZeroIndices)
  {
    (if q.q0 > 0 then 1 else 0) + (if q.q1 > 0 then 1 else 0) + (if q.q2 > 0 then 1 else 0) + (if q.q3 > 0 then 1 else 0)
  }

  /** `blendIndex * 8`, the first entry of a group, when it is an integer:
      any other number indexes no array element. */
  function EntryBase(g: Num): (b: Option<int>)
    ensures b.Some? <==> IsInteger(Mul(g, Fin(8.0)))
    ensures b.Some? ==> b.value as real == g.r * 8.0
  {
    var x := Mul(g, Fin(8.0));
    if IsInteger(x) then Some(x.r.Floor) else None
  }

  /** The `do ... while (count === 0)` loop: the offset of the first entry
      from `base + offset` on with a non-zero index. Reading before the start
      or past the end of the entries gives undefined, and so a TypeError. */
  function NextNonEmpty(indices: seq<Quad<nat>>, base: int, offset: nat): (r: Result<nat>)
    ensures r.Success? ==> offset <= r.value && 0 <= base + r.value < |indices|
    decreases |indices| - base - offset
  {
    var i := base + offset;
    if i < 0 || i >= |indices| then Failure(TypeError)
    else if Count(indices[i]) == 0 then NextNonEmpty(indices, base, offset + 1)
    else Success(offset)
  }

  /** Every entry from `from` up to `to` is empty. */
  predicate AllEmpty(indices: seq<Quad<nat>>, from: nat, to: int) {
    forall i :: from <= i < to && i < |indices| ==> indices[i] == ZeroIndices
  }

  /** The loop finds the first non-empty entry at or after `base + offset`,
      and fails exactly when the search starts before the first entry or
      every entry from there to the end is empty. */
  lemma {:induction false} NextNonEmptyMeaning(indices: seq<Quad<nat>>, base: int, offset: nat)
    ensures var r := NextNonEmpty(indices, base, offset);
      (r.Success? ==>
         indices[base + r.value] != ZeroIndices && base + offset >= 0 && AllEmpty(indices, base + offset, base + r.value))
      && (r.Failure? <==> base + offset < 0 || AllEmpty(indices, base + offset, |indices|))
      && (r.Failure? ==> r.error == TypeError)
    decreases |indices| - base - offset
  {
    var i := base + offset;
    if 0 <= i < |indices| {
      if Count(indices[i]) == 0 {
        NextNonEmptyMeaning(indices, base, offset + 1);
        var r := NextNonEmpty(indices, base, offset);
        if r.Success? {
          AllEmptyExtend(indices, i, base + r.value);
        }
        AllEmptyExtend(indices, i, |indices|);
      } else {
        assert !AllEmpty(indices, i, |indices|);
      }
    }
  }

  /** An empty entry joins the empty run that follows it. */
  lemma AllEmptyExtend(indices: seq<Quad<nat>>, from: nat, to: int)
    requires from < |indices| && indices[from] == ZeroIndices
    ensures AllEmpty(indices, from + 1, to) <==> AllEmpty(indices, from, to)
  {
  }

  /** The texcoord2 back-fill: a vertex whose UV-scale index lies below
      `firstBoneStride` and that has no texcoord2 of its own takes texcoord0
      times that UV scale pair. An index with no UV scale pair reads undefined. */
  function UvBackfill(c: Channels, n: nat, t: SkinTables, v: nat): (r: Result<Channels>)
    requires Sized(c, n) && v < n
    ensures r.Success? ==> Sized(r.value, n)
  {
    var s := c.uvScaleStrideIndex[v];
    if s < t.firstBoneStride && c.hasTexcoord2[v] == 0 then
      if s >= |t.uvScales| then Failure(TypeError)
      else
        var uv := t.uvScales[s];
        Success(c.(texcoord2 := Put2(c.texcoord2, 2 * v, Mul(c.texcoord0[2 * v], Fin(uv.0)), Mul(c.texcoord0[2 * v + 1], Fin(uv.1))),
                   hasTexcoord2 := Put<Byte>(c.hasTexcoord2, v, 1)))
    else Success(c)
  }

  /** The entry a vertex of group `g` receives, with the offset inside the
      group it was found at: the cursor restarts from 0 when the group differs
      from the previous one, and the first non-empty entry from there on is
      taken. Its weights must exist too. */
  function Located(t: SkinTables, cur: Cursor, g: Num): (r: Result<(nat, nat)>)
    ensures r.Success? ==> r.value.0 < |t.blendIndices| && r.value.0 < |t.blendWeights|
  {
    var start := if SameNumber(cur.prev, g) then cur.offset else 0;
    match EntryBase(g)
    case None => Failure(TypeError)
    case Some(base) =>
      match NextNonEmpty(t.blendIndices, base, start)
      case Failure(e) => Failure(e)
      case Success(o) =>
        if base + o >= |t.blendWeights| then Failure(TypeError) else Success((base + o, o))
  }

  /** The bones of vertex `v`: a single bone is written with weight 1 and
      leaves the cursor alone; a group writes its located entry and moves the
      cursor past it, and past the empty entry that follows a 4-bone entry. */
  function Bones(c: Channels, n: nat, t: SkinTables, cur: Cursor, v: nat): (r: Result<(Channels, Cursor)>)
    requires Sized(c, n) && v < n
    ensures r.Success? ==> Sized(r.value.0, n)
  {
    var w := c.positionW[v];
    match Group(w)
    case None =>
      Success((c.(blendindices := Put(c.blendindices, 4 * v, w), blendweight := Put(c.blendweight, 4 * v, Fin(1.0))), cur))
    case Some(g) =>
      match Located(t, cur, g)
      case Failure(e) => Failure(e)
      case Success(ko) =>
        var q := t.blendIndices[ko.0];
        var p := t.blendWeights[ko.0];
        Success((c.(blendindices := Put4(c.blendindices, 4 * v, OfInt(q.q0), OfInt(q.q1), OfInt(q.q2), OfInt(q.q3)),
                    blendweight := Put4(c.blendweight, 4 * v, p.q0, p.q1, p.q2, p.q3)),
                 Cursor(g, ko.1 + if Count(q) > 2 then 2 else 1)))
  }

  /** One iteration of the vertex loop of `assignSkinWeights`. */
  function SkinVertex(c: Channels, n: nat, t: SkinTables, cur: Cursor, v: nat): (r: Result<(Channels, Cursor)>)
    requires Sized(c, n) && v < n
    ensures r.Success? ==> Sized(r.value.0, n)
  {
    match UvBackfill(c, n, t, v)
    case Failure(e) => Failure(e)
    case Success(d) => Bones(d, n, t, cur, v)
  }

  /** The buffers and the cursor after the first `v` vertices. */
  function SkinnedUpTo(c: Channels, n: nat, t: SkinTables, v: nat): (r: Result<(Channels, Cursor)>)
    requires Sized(c, n) && v <= n
    ensures r.Success? ==> Sized(r.value.0, n)
  {
    if v == 0 then Success((c, Start))
    else match SkinnedUpTo(c, n, t, v - 1)
      case Failure(e) => Failure(e)
      case Success(dc) => SkinVertex(dc.0, n, t, dc.1, v - 1)
  }

  /** `assignSkinWeights(buffers, n, ...)` as a value. */
  function Skinned(c: Channels, n: nat, t: SkinTables): Result<Channels>
    requires Sized(c, n)
  {
    match SkinnedUpTo(c, n, t, n)
    case Failure(e) => Failure(e)
    case Success(dc) => Success(dc.0)
  }

  /** A vertex from 0 to 255 is bound to that one bone with weight 1; the
      cursor does not move and no other slot changes. */
  lemma SingleBone(c: Channels, n: nat, t: SkinTables, cur: Cursor, v: nat)
    requires Sized(c, n) && v < n && c.positionW[v].Fin? && 0.0 <= c.positionW[v].r <= 255.0
    ensures Bones(c, n, t, cur, v).Success?
    ensures var (d, next) := Bones(c, n, t, cur, v).value;
      next == cur && d.blendindices[4 * v] == c.positionW[v] && d.blendweight[4 * v] == Fin(1.0)
      && d.(blendindices := c.blendindices, blendweight := c.blendweight) == c
      && (forall k :: 0 <= k < 4 * n && k != 4 * v ==> d.blendindices[k] == c.blendindices[k] && d.blendweight[k] == c.blendweight[k])
  {
  }

  /** A group's entry is the first non-empty one from the cursor on,
      counted from the group's first entry `group * 8`; the cursor starts
      again from 0 when the group differs from the previous one. A group
      that is not a whole number of entries, or a search that runs off the
      entries, fails. */
  lemma LocatedMeaning(t: SkinTables, cur: Cursor, g: Num)
    ensures var start := if SameNumber(cur.prev, g) then cur.offset else 0;
      var r := Located(t, cur, g);
      (EntryBase(g).None? ==> r == Failure(TypeError))
      && (r.Success? ==> EntryBase(g).Some? && var base := EntryBase(g).value; var (k, o) := r.value;
           k == base + o && start <= o && t.blendIndices[k] != ZeroIndices
           && base + start >= 0 && AllEmpty(t.blendIndices, base + start, k))
      && (EntryBase(g).Some? && (EntryBase(g).value + start < 0 || AllEmpty(t.blendIndices, EntryBase(g).value + start, |t.blendIndices|))
          ==> r == Failure(TypeError))
  {
    if EntryBase(g).Some? {
      var start := if SameNumber(cur.prev, g) then cur.offset else 0;
      NextNonEmptyMeaning(t.blendIndices, EntryBase(g).value, start);
    }
  }

  /** A vertex of a group receives the four indices and the four weights of
      its located entry, the cursor then holds the group and lies 2 past the
      entry's offset for more than two bones, 1 otherwise. Only the vertex's
      four blend slots change. */
  lemma GroupBones(c: Channels, n: nat, t: SkinTables, cur: Cursor, v: nat)
    requires Sized(c, n) && v < n && Group(c.positionW[v]).Some?
    requires Bones(c, n, t, cur, v).Success?
    ensures var g := Group(c.positionW[v]).value;
      var (d, next) := Bones(c, n, t, cur, v).value;
      Located(t, cur, g).Success? && var (k, o) := Located(t, cur, g).value;
      var q := t.blendIndices[k];
      var p := t.blendWeights[k];
      next == Cursor(g, o + if Count(q) > 2 then 2 else 1)
      && d.blendindices[4 * v..4 * v + 4] == [OfInt(q.q0), OfInt(q.q1), OfInt(q.q2), OfInt(q.q3)]
      && d.blendweight[4 * v..4 * v + 4] == [p.q0, p.q1, p.q2, p.q3]
      && d.(blendindices := c.blendindices, blendweight := c.blendweight) == c
      && (forall j :: 0 <= j < 4 * n && !(4 * v <= j < 4 * v + 4) ==> d.blendindices[j] == c.blendindices[j] && d.blendweight[j] == c.blendweight[j])
  {
    var g := Group(c.positionW[v]).value;
    var (k, o) := Located(t, cur, g).value;
    var q := t.blendIndices[k];
    var p := t.blendWeights[k];
    var (d, next) := Bones(c, n, t, cur, v).value;
    Put4Slots(c.blendindices, 4 * v, OfInt(q.q0), OfInt(q.q1), OfInt(q.q2), OfInt(q.q3));
    Put4Slots(c.blendweight, 4 * v, p.q0, p.q1, p.q2, p.q3);
    assert d.blendindices[4 * v..4 * v + 4] == [OfInt(q.q0), OfInt(q.q1), OfInt(q.q2), OfInt(q.q3)];
    assert d.blendweight[4 * v..4 * v + 4] == [p.q0, p.q1, p.q2, p.q3];
  }

  /** With `firstBoneStride` 0, as `parseSkinBuffer` always returns it, no
      UV-scale index lies below it, and the back-fill changes nothing. */
  lemma {:induction false} BackfillIsDead(c: Channels, n: nat, t: SkinTables, v: nat)
    requires Sized(c, n) && v <= n && t.firstBoneStride == 0
    requires SkinnedUpTo(c, n, t, v).Success?
    ensures var d := SkinnedUpTo(c, n, t, v).value.0;
      d.texcoord2 == c.texcoord2 && d.hasTexcoord2 == c.hasTexcoord2
      && d.(blendindices := c.blendindices, blendweight := c.blendweight) == c
  {
    if v > 0 {
      BackfillIsDead(c, n, t, v - 1);
    }
  }

  lemma {:induction false} SkinnedNoRecovery(c: Channels, n: nat, t: SkinTables, v: nat, m: nat, e: Error)
    requires Sized(c, n) && v <= m <= n && SkinnedUpTo(c, n, t, v) == Failure(e)
    ensures SkinnedUpTo(c, n, t, m) == Failure(e)
    decreases m
  {
    if v < m {
      SkinnedNoRecovery(c, n, t, v, m - 1, e);
    }
  }

  lemma SkinnedStep(c: Channels, n: nat, t: SkinTables, v: nat, d: Channels, cur: Cursor)
    requires Sized(c, n) && v < n && SkinnedUpTo(c, n, t, v) == Success((d, cur))
    ensures Sized(d, n) && SkinnedUpTo(c, n, t, v + 1) == SkinVertex(d, n, t, cur, v)
  {
  }

  /** The do-while that skips empty entries. */
  method FindNonEmpty(indices: seq<Quad<nat>>, base: int, offset: nat) returns (r: Result<nat>)
    ensures r == NextNonEmpty(indices, base, offset)
  {
    var o := offset;
    while true
      invariant NextNonEmpty(indices, base, o) == NextNonEmpty(indices, base, offset)
      decreases |indices| - base - o
    {
      var i := base + o;
      if i < 0 || i >= |indices| {
        return Failure(TypeError);
      }
      var count := Count(indices[i]);
      if count == 0 {
        o := o + 1;
      } else {
        return Success(o);
      }
    }
  }

  /** The texcoord2 back-fill of vertex `v`. */
  method ApplyUvBackfill(buf: Buffers, t: SkinTables, v: nat) returns (err: Option<Error>)
    requires buf.Valid() && v < buf.vertexCount
    modifies buf
    ensures buf.Valid() && Outcome(UvBackfill(old(buf.Snapshot()), buf.vertexCount, t, v), err, buf.Snapshot())
  {
    var s := buf.uvScaleStrideIndex[v];
    if s < t.firstBoneStride && buf.hasTexcoord2[v] == 0 {
      if s >= |t.uvScales| {
        return Some(TypeError);
      }
      var uv := t.uvScales[s];
      var at := v * 2;
      buf.texcoord2 := Put2(buf.texcoord2, at, Mul(buf.texcoord0[at], Fin(uv.0)), Mul(buf.texcoord0[at + 1], Fin(uv.1)));
      buf.hasTexcoord2 := Put<Byte>(buf.hasTexcoord2, v, 1);
    }
    err := None;
  }

  /** The cursor update and the skip loop of a group vertex. */
  method Locate(t: SkinTables, cur: Cursor, g: Num) returns (r: Result<(nat, nat)>)
    ensures r == Located(t, cur, g)
  {
    var offset := if SameNumber(cur.prev, g) then cur.offset else 0;
    var base := EntryBase(g);
    if base.None? {
      return Failure(TypeError);
    }
    var found := FindNonEmpty(t.blendIndices, base.value, offset);
    if found.Failure? {
      return Failure(found.error);
    }
    offset := found.value;
    var k := base.value + offset;
    if k >= |t.blendWeights| {
      return Failure(TypeError);
    }
    r := Success((k, offset));
  }

  /** The bone assignment of vertex `v`, with the cursor passed in and out. */
  method AssignBones(buf: Buffers, t: SkinTables, cur: Cursor, v: nat) returns (err: Option<Error>, next: Cursor)
    requires buf.Valid() && v < buf.vertexCount
    modifies buf
    ensures buf.Valid()
    ensures match Bones(old(buf.Snapshot()), buf.vertexCount, t, cur, v)
      case Failure(e) => err == Some(e)
      case Success(dc) => err.None? && buf.Snapshot() == dc.0 && next == dc.1
  {
    var w := buf.positionW[v];
    var at := v * 4;
    next := cur;
    var group := Group(w);
    if group.None? {
      buf.blendindices := Put(buf.blendindices, at, w);
      buf.blendweight := Put(buf.blendweight, at, Fin(1.0));
      return None, next;
    }
    var g := group.value;
    var located := Locate(t, cur, g);
    if located.Failure? {
      return Some(located.error), next;
    }
    var (k, offset) := located.value;
    var q := t.blendIndices[k];
    var p := t.blendWeights[k];
    buf.blendindices := Put4(buf.blendindices, at, OfInt(q.q0), OfInt(q.q1), OfInt(q.q2), OfInt(q.q3));
    buf.blendweight := Put4(buf.blendweight, at, p.q0, p.q1, p.q2, p.q3);
    var count := Count(q);
    var offsetInc := if count > 2 then 2 else 1;
    next := Cursor(g, offset + offsetInc);
    err := None;
  }

  /** One iteration of the vertex loop. */
  method SkinOneVertex(buf: Buffers, t: SkinTables, cur: Cursor, v: nat) returns (err: Option<Error>, next: Cursor)
    requires buf.Valid() && v < buf.vertexCount
    modifies buf
    ensures buf.Valid() && Outcome(SkinVertex(old(buf.Snapshot()), buf.vertexCount, t, cur, v), err, (buf.Snapshot(), next))
  {
    next := cur;
    err := ApplyUvBackfill(buf, t, v);
    if err.Some? {
      return;
    }
    err, next := AssignBones(buf, t, cur, v);
  }

  /** `assignSkinWeights(buffers, vertexCount, ...)`. */
  method AssignSkinWeights(buf: Buffers, t: SkinTables) returns (err: Option<Error>)
    requires buf.Valid()
    modifies buf
    ensures buf.Valid() && Outcome(Skinned(old(buf.Snapshot()), buf.vertexCount, t), err, buf.Snapshot())
  {
    ghost var c := buf.Snapshot();
    var cur := Start;
    var v := 0;
    while v < buf.vertexCount
      invariant 0 <= v <= buf.vertexCount && buf.Valid()
      invariant SkinnedUpTo(c, buf.vertexCount, t, v) == Success((buf.Snapshot(), cur))
    {
      SkinnedStep(c, buf.vertexCount, t, v, buf.Snapshot(), cur);
      err, cur := SkinOneVertex(buf, t, cur, v);
      if err.Some? {
        SkinnedNoRecovery(c, buf.vertexCount, t, v + 1, buf.vertexCount, err.value);
        return;
      }
      v := v + 1;
    }
    err := None;
  }

  /** `addSkinBufferData(buffers, vertexCount, meta, tgxStruct, uvScaleStrideIndex)` as a value:
      without a skin buffer file name, the 1- and 2-bone fallback; otherwise
      the file's records parsed and assigned. */
  function SkinBufferAdded(c: Channels, n: nat, fileName: Option<string>, byteSize: nat, strideByteSize: nat,
                           files: map<string, seq<Byte>>, min: int, max: int): Result<Channels>
    requires Sized(c, n)
  {
    if fileName.None? || fileName == Some("") then Success(FallbackWeights(c, n))
    else
      var bytes := if fileName.value in files then Some(files[fileName.value]) else None;
      match ParsedSkin(bytes, StrideCount(byteSize, strideByteSize), min, max)
      case Failure(e) => Failure(e)
      case Success(t) => Skinned(c, n, t)
  }

  /** `addSkinBufferData`. */
  method AddSkinBufferData(buf: Buffers, fileName: Option<string>, byteSize: nat, strideByteSize: nat,
                           files: map<string, seq<Byte>>, min: int, max: int) returns (err: Option<Error>)
    requires buf.Valid()
    modifies buf
    ensures buf.Valid()
    ensures Outcome(SkinBufferAdded(old(buf.Snapshot()), buf.vertexCount, fileName, byteSize, strideByteSize, files, min, max), err, buf.Snapshot())
  {
    if fileName.None? || fileName == Some("") {
      buf.AssignFallbackWeights();
      return None;
    }
    var bytes := if fileName.value in files then Some(files[fileName.value]) else None;
    var parsed := ParseSkinBuffer(bytes, StrideCount(byteSize, strideByteSize), min, max);
    if parsed.Failure? {
      return Some(parsed.error);
    }
    err := AssignSkinWeights(buf, parsed.value);
  }
}
