/** The per-vertex decode loop of `#parseGeometryBuffers`: for every vertex,
    every vertex stream and every element of that stream's layout, the
    element's components are read from the stream's buffer file at
    `vertexIndex * strideByteSize + byteOffset` and handed to the attribute
    writer that its semantic selects. */
module GeometryDecode {
  import opened Wrappers
  import opened Numbers
  import opened Bytes
  import opened BufferUtilities
  import opened VertexBuffers
  import opened RenderMesh

  /** What the loop reads: the constructed mesh, the container's files and
      the binary32 decoder BufferPack uses for `f` components. */
  datatype Input = Input(mesh: Mesh, files: map<string, seq<Byte>>, f32: seq<Byte> -> Num)

  /** The buffers and the tracked range of UV-scale stride indices. */
  datatype DecodeState = DecodeState(c: Channels, min: int, max: int)

  /** `Math.floor(byteSize / strideByteSize)` of the first vertex buffer.
      Without vertex buffers the property access throws; a zero stride gives
      Infinity for a non-empty buffer, which `new Float32Array` rejects, and
      NaN (None) for an empty one, which allocates empty arrays. */
  function VertexCount(vbs: seq<VertexBufferMetadata>): (r: Result<Option<nat>>)
    ensures r == Failure(TypeError) <==> |vbs| == 0
    ensures r == Failure(RangeError) <==> |vbs| > 0 && vbs[0].strideByteSize == 0 && vbs[0].byteSize > 0
    ensures r == Success(None) <==> |vbs| > 0 && vbs[0].strideByteSize == 0 && vbs[0].byteSize == 0
    ensures r.Success? && r.value.Some? ==>
      var n := r.value.value; var s := vbs[0].strideByteSize;
      s > 0 && n * s <= vbs[0].byteSize < (n + 1) * s
  {
    if |vbs| == 0 then Failure(TypeError)
    else if vbs[0].strideByteSize > 0 then Success(Some(vbs[0].byteSize / vbs[0].strideByteSize))
    else if vbs[0].byteSize > 0 then Failure(RangeError)
    else Success(None)
  }

  /** The number of iterations of the vertex loop and the length the arrays are allocated for. */
  function LoopCount(n: Option<nat>): nat {
    if n.Some? then n.value else 0
  }

  /** The attribute writers of the semantic `if` chain. */
  datatype Writer = WritePosition | WriteTangent | WriteNormal | WriteTexcoord0 | WriteTexcoord2
                  | WriteBlendindices | WriteBlendweight

  /** The writer the `if` chain selects for an attribute; None for the attributes it skips. */
  function WriterOf(a: Attribute): Option<Writer> {
    if a.semantic == "position" then Some(WritePosition)
    else if a.semantic == "tangent" then Some(WriteTangent)
    else if a.semantic == "normal" then Some(WriteNormal)
    else if a.semantic == "texcoord" && a.semanticIndex == 0 then Some(WriteTexcoord0)
    else if a.semantic == "texcoord" && a.semanticIndex == 2 then Some(WriteTexcoord2)
    else if a.semantic == "blendindices" then Some(WriteBlendindices)
    else if a.semantic == "blendweight" then Some(WriteBlendweight)
    else None
  }

  /** The attributes the loop reads but does not store: an unknown semantic,
      or a texture coordinate set other than 0 and 2. */
  predicate Ignored(a: Attribute) {
    (a.semantic != "position" && a.semantic != "tangent" && a.semantic != "normal" && a.semantic != "texcoord"
     && a.semantic != "blendindices" && a.semantic != "blendweight")
    || (a.semantic == "texcoord" && a.semanticIndex != 0 && a.semanticIndex != 2)
  }

  lemma WriterOfIgnored(a: Attribute)
    ensures WriterOf(a).None? <==> Ignored(a)
  {
  }

  /** The state after one writer call; the normal writer also widens the stride-index range. */
  function Written(st: DecodeState, v: nat, w: Writer, vals: seq<Num>, a: Attribute, m: Mesh): DecodeState {
    match w
    case WritePosition => st.(c := PositionWritten(st.c, v, vals, m.positionScale, m.positionOffset))
    case WriteTangent => st.(c := TangentWritten(st.c, v, vals, a.isNormalized, a.elementType))
    case WriteNormal =>
      var i := StrideIndex(ComponentAt(vals, 3));
      DecodeState(NormalWritten(st.c, v, vals, a.isNormalized, a.elementType), MinInt(st.min, i), MaxInt(st.max, i))
    case WriteTexcoord0 => st.(c := Texcoord0Written(st.c, v, vals, a.isNormalized, a.elementType, m.textureScale, m.textureOffset))
    case WriteTexcoord2 => st.(c := Texcoord2Written(st.c, v, vals, a.isNormalized, a.elementType))
    case WriteBlendindices => st.(c := BlendindicesWritten(st.c, v, vals))
    case WriteBlendweight => st.(c := BlendweightWritten(st.c, v, vals, a.isNormalized, a.elementType))
  }

  /** Byte position of attribute `a` of vertex `v` in stream `b`'s file. */
  function ReadPosition(m: Mesh, v: nat, b: nat, a: Attribute): int
    requires b < |m.vertexBuffers| && a.byteOffset.Some?
  {
    v * m.vertexBuffers[b].strideByteSize + a.byteOffset.value
  }

  /** `BufferPack.unpack("< {count}{alias}", file, offset)`: the components,
      None (`undefined`) when they run past the file. A missing file throws;
      a NaN or negative count or offset is not modelled. */
  function ElementRead(inp: Input, v: nat, b: nat, a: Attribute): Result<Option<seq<Num>>>
    requires b < |inp.mesh.vertexBuffers|
  {
    var meta := inp.mesh.vertexBuffers[b];
    if meta.fileName !in inp.files then Failure(TypeError)
    else if a.count.None? || a.count.value < 0 || a.byteOffset.None? || ReadPosition(inp.mesh, v, b, a) < 0 then Failure(Unsupported)
    else Success(ReadComponents(inp.files[meta.fileName], ReadPosition(inp.mesh, v, b, a), a.elementType, a.count.value, inp.f32))
  }

  /** One iteration of the element loop: the read, then the writer; a writer
      handed `undefined` throws. */
  function ElementStep(inp: Input, st: DecodeState, v: nat, b: nat, a: Attribute): Result<DecodeState>
    requires b < |inp.mesh.vertexBuffers|
  {
    match ElementRead(inp, v, b, a)
    case Failure(e) => Failure(e)
    case Success(vals) =>
      match WriterOf(a)
      case None => Success(st)
      case Some(w) => if vals.None? then Failure(TypeError) else Success(Written(st, v, w, vals.value, a, inp.mesh))
  }

  predicate StreamInRange(inp: Input, b: nat) {
    b < |inp.mesh.vertexBuffers| && b < |inp.mesh.attributes|
  }

  /** The first `k` elements of stream `b` for vertex `v`, in layout order; the first throw ends the loop. */
  function ElementsDecoded(inp: Input, st: DecodeState, v: nat, b: nat, k: nat): Result<DecodeState>
    requires StreamInRange(inp, b) && k <= |inp.mesh.attributes[b]|
  {
    if k == 0 then Success(st)
    else match ElementsDecoded(inp, st, v, b, k - 1)
      case Failure(e) => Failure(e)
      case Success(s) => ElementStep(inp, s, v, b, inp.mesh.attributes[b][k - 1])
  }

  /** The first `b` streams for vertex `v`; reading the stride of a stream
      without vertex buffer metadata throws. */
  function StreamsDecoded(inp: Input, st: DecodeState, v: nat, b: nat): Result<DecodeState>
    requires b <= |inp.mesh.attributes|
  {
    if b == 0 then Success(st)
    else match StreamsDecoded(inp, st, v, b - 1)
      case Failure(e) => Failure(e)
      case Success(s) =>
        if b - 1 >= |inp.mesh.vertexBuffers| then Failure(TypeError)
        else ElementsDecoded(inp, s, v, b - 1, |inp.mesh.attributes[b - 1]|)
  }

  /** The first `n` vertices, in order. */
  function VerticesDecoded(inp: Input, st: DecodeState, n: nat): Result<DecodeState> {
    if n == 0 then Success(st)
    else match VerticesDecoded(inp, st, n - 1)
      case Failure(e) => Failure(e)
      case Success(s) => StreamsDecoded(inp, s, n - 1, |inp.mesh.attributes|)
  }

  lemma {:induction false} ElementsNoRecovery(inp: Input, st: DecodeState, v: nat, b: nat, k: nat, n: nat)
    requires StreamInRange(inp, b) && k <= n <= |inp.mesh.attributes[b]|
    requires ElementsDecoded(inp, st, v, b, k).Failure?
    ensures ElementsDecoded(inp, st, v, b, n) == ElementsDecoded(inp, st, v, b, k)
    decreases n
  {
    if k < n {
      ElementsNoRecovery(inp, st, v, b, k, n - 1);
    }
  }

  lemma {:induction false} StreamsNoRecovery(inp: Input, st: DecodeState, v: nat, b: nat, n: nat)
    requires b <= n <= |inp.mesh.attributes|
    requires StreamsDecoded(inp, st, v, b).Failure?
    ensures StreamsDecoded(inp, st, v, n) == StreamsDecoded(inp, st, v, b)
    decreases n
  {
    if b < n {
      StreamsNoRecovery(inp, st, v, b, n - 1);
    }
  }

  lemma {:induction false} VerticesNoRecovery(inp: Input, st: DecodeState, k: nat, n: nat)
    requires k <= n && VerticesDecoded(inp, st, k).Failure?
    ensures VerticesDecoded(inp, st, n) == VerticesDecoded(inp, st, k)
    decreases n
  {
    if k < n {
      VerticesNoRecovery(inp, st, k, n - 1);
    }
  }

  /** A missing buffer file throws for every element; with the file present
      an ignored element changes nothing, and any other element is read at
      `vertexIndex * strideByteSize + byteOffset`, fails exactly when the read
      runs past the file, and otherwise stores what was read through its
      writer. */
  lemma ElementStepMeaning(inp: Input, st: DecodeState, v: nat, b: nat, a: Attribute)
    requires b < |inp.mesh.vertexBuffers|
    ensures inp.mesh.vertexBuffers[b].fileName !in inp.files ==> ElementStep(inp, st, v, b, a) == Failure(TypeError)
    ensures (inp.mesh.vertexBuffers[b].fileName in inp.files && a.count.Some? && a.count.value >= 0
             && a.byteOffset.Some? && a.byteOffset.value >= 0) ==>
      var bytes := inp.files[inp.mesh.vertexBuffers[b].fileName];
      var at := v * inp.mesh.vertexBuffers[b].strideByteSize + a.byteOffset.value;
      var r := ElementStep(inp, st, v, b, a);
      (Ignored(a) ==> r == Success(st))
      && (!Ignored(a) ==> (r.Success? <==> at + a.count.value * ByteSize(a.elementType) <= |bytes|))
      && (!Ignored(a) && r.Success? ==>
            r.value == Written(st, v, WriterOf(a).value, ReadComponents(bytes, at, a.elementType, a.count.value, inp.f32).value, a, inp.mesh))
  {
    WriterOfIgnored(a);
  }

  /** A stream whose elements are all ignored writes nothing. */
  lemma {:induction false} IgnoredStreamUnchanged(inp: Input, st: DecodeState, v: nat, b: nat, k: nat)
    requires StreamInRange(inp, b) && k <= |inp.mesh.attributes[b]|
    requires forall j :: 0 <= j < |inp.mesh.attributes[b]| ==> Ignored(inp.mesh.attributes[b][j])
    ensures ElementsDecoded(inp, st, v, b, k).Success? ==> ElementsDecoded(inp, st, v, b, k).value == st
  {
    if k > 0 {
      IgnoredStreamUnchanged(inp, st, v, b, k - 1);
      WriterOfIgnored(inp.mesh.attributes[b][k - 1]);
    }
  }

  /** The blend and texcoord2 flags only ever hold 0 or 1. */
  predicate Flags01(c: Channels) {
    (forall k :: 0 <= k < |c.hasBlendindices| ==> c.hasBlendindices[k] <= 1)
    && (forall k :: 0 <= k < |c.hasBlendweight| ==> c.hasBlendweight[k] <= 1)
    && (forall k :: 0 <= k < |c.hasTexcoord2| ==> c.hasTexcoord2[k] <= 1)
  }

  /** What the decode keeps: the allocated sizes and the 0/1 flags. */
  predicate Shaped(st: DecodeState, n: nat) {
    Sized(st.c, n) && Flags01(st.c)
  }

  /** The freshly allocated buffers satisfy the invariant. */
  lemma ZeroedShaped(n: nat, min: int, max: int)
    ensures Shaped(DecodeState(Zeroed(n), min, max), n)
  {
  }

  /** Setting a 0/1 flag keeps the flags 0/1. */
  lemma FlagSet(s: seq<Byte>, v: nat)
    requires forall k :: 0 <= k < |s| ==> s[k] <= 1
    ensures |Put<Byte>(s, v, 1)| == |s| && forall k :: 0 <= k < |s| ==> Put<Byte>(s, v, 1)[k] <= 1
  {
  }

  /** A writer keeps the invariant, and the range only widens. */
  lemma WrittenShaped(st: DecodeState, n: nat, v: nat, w: Writer, vals: seq<Num>, a: Attribute, m: Mesh)
    requires Shaped(st, n)
    ensures var d := Written(st, v, w, vals, a, m);
      Shaped(d, n) && d.min <= st.min && d.max >= st.max
  {
    match w
    case WriteTexcoord2 => FlagSet(st.c.hasTexcoord2, v);
    case WriteBlendindices => FlagSet(st.c.hasBlendindices, v);
    case WriteBlendweight => FlagSet(st.c.hasBlendweight, v);
    case _ =>
  }

  /** One step keeps the invariant and only widens the range. */
  predicate Kept(st: DecodeState, r: Result<DecodeState>, n: nat) {
    r.Success? ==> Shaped(r.value, n) && r.value.min <= st.min && r.value.max >= st.max
  }

  lemma {:induction false} ElementsShaped(inp: Input, st: DecodeState, n: nat, v: nat, b: nat, k: nat)
    requires StreamInRange(inp, b) && k <= |inp.mesh.attributes[b]| && Shaped(st, n)
    ensures Kept(st, ElementsDecoded(inp, st, v, b, k), n)
  {
    if k > 0 {
      ElementsShaped(inp, st, n, v, b, k - 1);
      var r := ElementsDecoded(inp, st, v, b, k - 1);
      if r.Success? {
        var a := inp.mesh.attributes[b][k - 1];
        var vals := ElementRead(inp, v, b, a);
        if vals.Success? && vals.value.Some? && WriterOf(a).Some? {
          WrittenShaped(r.value, n, v, WriterOf(a).value, vals.value.value, a, inp.mesh);
        }
      }
    }
  }

  lemma {:induction false} StreamsShaped(inp: Input, st: DecodeState, n: nat, v: nat, b: nat)
    requires b <= |inp.mesh.attributes| && Shaped(st, n)
    ensures Kept(st, StreamsDecoded(inp, st, v, b), n)
  {
    if b > 0 {
      StreamsShaped(inp, st, n, v, b - 1);
      var r := StreamsDecoded(inp, st, v, b - 1);
      if r.Success? && b - 1 < |inp.mesh.vertexBuffers| {
        ElementsShaped(inp, r.value, n, v, b - 1, |inp.mesh.attributes[b - 1]|);
      }
    }
  }

  /** The whole vertex loop keeps the allocated sizes and the 0/1 flags, and
      the stride-index range only widens. */
  lemma {:induction false} VerticesShaped(inp: Input, st: DecodeState, n: nat, k: nat)
    requires Shaped(st, n)
    ensures Kept(st, VerticesDecoded(inp, st, k), n)
  {
    if k > 0 {
      VerticesShaped(inp, st, n, k - 1);
      var r := VerticesDecoded(inp, st, k - 1);
      if r.Success? {
        StreamsShaped(inp, r.value, n, k - 1, |inp.mesh.attributes|);
      }
    }
  }

  /** The buffers and the range as one value. */
  function State(buf: Buffers, range: StrideIndexRange): DecodeState
    reads buf, range
  {
    DecodeState(buf.Snapshot(), range.min, range.max)
  }

  /** The body of the element loop. */
  method DecodeElement(inp: Input, buf: Buffers, range: StrideIndexRange, v: nat, b: nat, a: Attribute)
    returns (err: Option<Error>)
    requires buf.Valid() && b < |inp.mesh.vertexBuffers|
    modifies buf, range
    ensures buf.Valid()
    ensures Outcome(ElementStep(inp, old(State(buf, range)), v, b, a), err, State(buf, range))
  {
    err := None;
    var meta := inp.mesh.vertexBuffers[b];
    if meta.fileName !in inp.files {
      return Some(TypeError);
    }
    if a.count.None? || a.count.value < 0 || a.byteOffset.None? || ReadPosition(inp.mesh, v, b, a) < 0 {
      return Some(Unsupported);
    }
    var strideElementOffset := v * meta.strideByteSize + a.byteOffset.value;
    var parsed := ReadComponents(inp.files[meta.fileName], strideElementOffset, a.elementType, a.count.value, inp.f32);
    if WriterOf(a).Some? && parsed.None? {
      return Some(TypeError);
    }
    if a.semantic == "position" {
      buf.ParsePosition(v, parsed.value, inp.mesh.positionScale, inp.mesh.positionOffset);
    } else if a.semantic == "tangent" {
      buf.ParseTangent(v, parsed.value, a.isNormalized, a.elementType);
    } else if a.semantic == "normal" {
      buf.ParseNormal(v, parsed.value, a.isNormalized, a.elementType, range);
    } else if a.semantic == "texcoord" && a.semanticIndex == 0 {
      buf.ParseTexcoord0(v, parsed.value, a.isNormalized, a.elementType, inp.mesh.textureScale, inp.mesh.textureOffset);
    } else if a.semantic == "texcoord" && a.semanticIndex == 2 {
      buf.ParseTexcoord2(v, parsed.value, a.isNormalized, a.elementType);
    } else if a.semantic == "blendindices" {
      buf.ParseBlendindices(v, parsed.value);
    } else if a.semantic == "blendweight" {
      buf.ParseBlendweights(v, parsed.value, a.isNormalized, a.elementType);
    }
  }

  /** The element loop `for (const element of format)` of stream `b`. */
  method DecodeStream(inp: Input, buf: Buffers, range: StrideIndexRange, v: nat, b: nat)
    returns (err: Option<Error>)
    requires buf.Valid() && StreamInRange(inp, b)
    modifies buf, range
    ensures buf.Valid()
    ensures Outcome(ElementsDecoded(inp, old(State(buf, range)), v, b, |inp.mesh.attributes[b]|), err, State(buf, range))
  {
    ghost var st0 := State(buf, range);
    var format := inp.mesh.attributes[b];
    var k := 0;
    while k < |format|
      invariant 0 <= k <= |format|
      invariant buf.Valid()
      invariant ElementsDecoded(inp, st0, v, b, k) == Success(State(buf, range))
    {
      err := DecodeElement(inp, buf, range, v, b, format[k]);
      if err.Some? {
        ElementsNoRecovery(inp, st0, v, b, k + 1, |format|);
        return;
      }
      k := k + 1;
    }
    err := None;
  }

  /** The stream loop for vertex `v`. */
  method DecodeVertex(inp: Input, buf: Buffers, range: StrideIndexRange, v: nat)
    returns (err: Option<Error>)
    requires buf.Valid()
    modifies buf, range
    ensures buf.Valid()
    ensures Outcome(StreamsDecoded(inp, old(State(buf, range)), v, |inp.mesh.attributes|), err, State(buf, range))
  {
    ghost var st0 := State(buf, range);
    var b := 0;
    while b < |inp.mesh.attributes|
      invariant 0 <= b <= |inp.mesh.attributes|
      invariant buf.Valid()
      invariant StreamsDecoded(inp, st0, v, b) == Success(State(buf, range))
    {
      if b >= |inp.mesh.vertexBuffers| {
        StreamsNoRecovery(inp, st0, v, b + 1, |inp.mesh.attributes|);
        return Some(TypeError);
      }
      err := DecodeStream(inp, buf, range, v, b);
      if err.Some? {
        StreamsNoRecovery(inp, st0, v, b + 1, |inp.mesh.attributes|);
        return;
      }
      b := b + 1;
    }
    err := None;
  }

  /** The vertex loop: every vertex the buffers were allocated for. */
  method DecodeVertices(inp: Input, buf: Buffers, range: StrideIndexRange) returns (err: Option<Error>)
    requires buf.Valid()
    modifies buf, range
    ensures buf.Valid()
    ensures Outcome(VerticesDecoded(inp, old(State(buf, range)), buf.vertexCount), err, State(buf, range))
  {
    ghost var st0 := State(buf, range);
    var v := 0;
    while v < buf.vertexCount
      invariant 0 <= v <= buf.vertexCount
      invariant buf.Valid()
      invariant VerticesDecoded(inp, st0, v) == Success(State(buf, range))
    {
      err := DecodeVertex(inp, buf, range, v);
      if err.Some? {
        VerticesNoRecovery(inp, st0, v + 1, buf.vertexCount);
        return;
      }
      v := v + 1;
    }
    err := None;
  }
}
