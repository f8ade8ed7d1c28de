/** The `RenderMesh` constructor: stage-part descriptors with their dye
    mapping, the assignment of render stages to stage parts from the offsets
    table, the vertex-buffer metadata and the vertex-element layout of every
    stream. */
module RenderMesh {
  import opened Wrappers
  import opened Numbers
  import opened JsStrings
  import opened BufferUtilities

  /** `renderStages`: the names of the 24 render stages, by index. */
  const RenderStageNames: seq<string> := [
    "GenerateGbuffer", "Decals", "InvestmentDecals", "ShadowGenerate", "LightingApply",
    "LightProbeApply", "DecalsAdditive", "Transparents", "Distortion", "LightShaftOcclusion",
    "SkinPrepass", "LensFlares", "DepthPrepass", "WaterReflection", "PostprocessTransparentStencil",
    "Impulse", "Reticle", "WaterRipples", "MaskSunLight", "Volumetrics", "Cubemaps",
    "PostprocessScreen", "WorldForces", "ComputeSkinning"]

  const StageCount: nat := 24

  /** One entry of `stage_part_list` as the geometry metadata gives it. */
  datatype RawStagePart = RawStagePart(
    staticTextures: Option<seq<string>>, startIndex: int, indexCount: int, indexMin: int, indexMax: int,
    flags: int, gearDyeChangeColorIndex: int, variantShaderIndex: int, externalIdentifier: int,
    primitiveType: int, lodCategory: int, lodRun: int)

  datatype Side = FrontSide | DoubleSide

  /** The descriptor `parseStagePart` builds; `part` is the raw entry (the
      descriptor's `default`), whose fields the descriptor copies. */
  datatype StagePart = StagePart(
    id: string, part: RawStagePart, stagePartIndex: nat, staticTextureCount: nat, sides: Side,
    gearDyeSlot: nat, usePrimaryColor: bool, useInvestmentDecal: bool,
    renderStagesIndices: seq<nat>, renderStages: seq<(nat, string)>)

  /** The dye fields a gear-dye change-colour index selects: slot, primary
      colour, investment decal. Indices 0 to 5 pair up on slots 0 to 2 (even
      indices use the primary colour), 6 and 7 are slot 3 with the investment
      decal; anything else has none. */
  function DyeMapping(index: int): (r: Option<(nat, bool, bool)>)
    ensures r.Some? <==> 0 <= index <= 7
  {
    if 0 <= index <= 5 then Some((index / 2, index % 2 == 0, false))
    else if index == 6 || index == 7 then Some((3, index == 6, true))
    else None
  }

  /** `g{hash}_m{mesh}_p{index}`. */
  function PartId(geometryHash: string, meshIndex: int, index: nat): string {
    "g" + geometryHash + "_m" + IntToString(meshIndex) + "_p" + IntToString(index)
  }

  /** Two stage parts of one render mesh never share an id. */
  lemma PartIdInjective(geometryHash: string, meshIndex: int, i: nat, j: nat)
    requires PartId(geometryHash, meshIndex, i) == PartId(geometryHash, meshIndex, j)
    ensures i == j
  {
    var prefix := "g" + geometryHash + "_m" + IntToString(meshIndex) + "_p";
    assert PartId(geometryHash, meshIndex, i) == prefix + IntToString(i);
    assert PartId(geometryHash, meshIndex, j) == prefix + IntToString(j);
    assert IntToString(i) == (prefix + IntToString(i))[|prefix|..];
    assert IntToString(j) == (prefix + IntToString(j))[|prefix|..];
    ParseIntOfIntToString(i);
    ParseIntOfIntToString(j);
  }

  function StaticTextureCount(textures: Option<seq<string>>): nat {
    if textures.Some? then |textures.value| else 0
  }

  /** The descriptor of raw entry `part` at `index` with the given dye fields,
      before any render stage is added. */
  function Described(part: RawStagePart, index: nat, geometryHash: string, meshIndex: int, dye: (nat, bool, bool)): StagePart {
    StagePart(PartId(geometryHash, meshIndex, index), part, index, StaticTextureCount(part.staticTextures),
      if part.primitiveType == 3 then DoubleSide else FrontSide, dye.0, dye.1, dye.2, [], [])
  }

  /** `parseStagePart`: the descriptor with its defaults, then the switch on
      the dye index. An index outside 0 to 7 reaches `case _:`, whose
      expression names an undeclared variable: a ReferenceError. */
  method ParseStagePart(part: RawStagePart, index: nat, geometryHash: string, meshIndex: int) returns (r: Result<StagePart>)
    ensures DyeMapping(part.gearDyeChangeColorIndex).None? <==> r.Failure?
    ensures r.Failure? ==> r.error == ReferenceError
    ensures r.Success? ==> r.value == Described(part, index, geometryHash, meshIndex, DyeMapping(part.gearDyeChangeColorIndex).value)
  {
    var gearDyeSlot := 0;
    var usePrimaryColor := true;
    var useInvestmentDecal := false;
    match part.gearDyeChangeColorIndex {
      case 0 =>
        gearDyeSlot := 0;
      case 1 =>
        gearDyeSlot := 0;
        usePrimaryColor := false;
      case 2 =>
        gearDyeSlot := 1;
      case 3 =>
        gearDyeSlot := 1;
        usePrimaryColor := false;
      case 4 =>
        gearDyeSlot := 2;
      case 5 =>
        gearDyeSlot := 2;
        usePrimaryColor := false;
      case 6 =>
        gearDyeSlot := 3;
        useInvestmentDecal := true;
      case 7 =>
        gearDyeSlot := 3;
        useInvestmentDecal := true;
        usePrimaryColor := false;
      case _ =>
        return Failure(ReferenceError);
    }
    r := Success(Described(part, index, geometryHash, meshIndex, (gearDyeSlot, usePrimaryColor, useInvestmentDecal)));
  }

  /** Every raw entry through `parseStagePart`, in order; the first unknown dye index throws. */
  method ParseStageParts(list: seq<RawStagePart>, geometryHash: string, meshIndex: int) returns (r: Result<seq<StagePart>>)
    ensures r.Failure? <==> exists i :: 0 <= i < |list| && DyeMapping(list[i].gearDyeChangeColorIndex).None?
    ensures r.Failure? ==> r.error == ReferenceError
    ensures r.Success? ==> (|r.value| == |list|
      && forall i :: 0 <= i < |list| ==> r.value[i] == Described(list[i], i, geometryHash, meshIndex, DyeMapping(list[i].gearDyeChangeColorIndex).value))
  {
    var parts: seq<StagePart> := [];
    var i := 0;
    while i < |list|
      invariant 0 <= i <= |list| && |parts| == i
      invariant forall k :: 0 <= k < i ==> DyeMapping(list[k].gearDyeChangeColorIndex).Some?
      invariant forall k :: 0 <= k < i ==> parts[k] == Described(list[k], k, geometryHash, meshIndex, DyeMapping(list[k].gearDyeChangeColorIndex).value)
    {
      var p := ParseStagePart(list[i], i, geometryHash, meshIndex);
      if p.Failure? {
        return Failure(p.error);
      }
      parts := parts + [p.value];
      i := i + 1;
    }
    r := Success(parts);
  }

  /** Stage `s` covers part `i`: `stagePartOffsets[s] <= i < stagePartOffsets[s + 1]`,
      both entries present (a missing one is undefined and stops the loop at once). */
  predicate Covers(offsets: seq<int>, s: nat, i: int) {
    s + 1 < |offsets| && offsets[s] <= i < offsets[s + 1]
  }

  /** The loop of stage `s` reaches a part index that does not exist, and
      pushing into `stageParts[i]` throws. */
  predicate BadStage(offsets: seq<int>, partCount: nat, s: nat) {
    s + 1 < |offsets| && offsets[s] < offsets[s + 1] && (offsets[s] < 0 || offsets[s + 1] > partCount)
  }

  /** The stages below `s` that cover part `i`, ascending. */
  function StagesBelow(offsets: seq<int>, i: int, s: nat): (r: seq<nat>)
    requires s <= StageCount
    ensures |r| <= s
    ensures forall k :: 0 <= k < |r| ==> r[k] < s
  {
    if s == 0 then [] else StagesBelow(offsets, i, s - 1) + (if Covers(offsets, s - 1, i) then [s - 1] else [])
  }

  /** The `[index, name]` pairs of the stages below `s` that cover part `i`. */
  function EntriesBelow(offsets: seq<int>, i: int, s: nat): seq<(nat, string)>
    requires s <= StageCount
  {
    if s == 0 then [] else EntriesBelow(offsets, i, s - 1) + (if Covers(offsets, s - 1, i) then [(s - 1, RenderStageNames[s - 1])] else [])
  }

  /** Part `p` (number `i`) with the stages below `s` appended to both lists. */
  function WithStagesBelow(p: StagePart, offsets: seq<int>, i: int, s: nat): StagePart
    requires s <= StageCount
  {
    p.(renderStagesIndices := p.renderStagesIndices + StagesBelow(offsets, i, s),
       renderStages := p.renderStages + EntriesBelow(offsets, i, s))
  }

  /** A stage is among the assigned ones exactly when it covers the part. */
  lemma {:induction false} StagesBelowMembers(offsets: seq<int>, i: int, s: nat, t: nat)
    requires s <= StageCount
    ensures t in StagesBelow(offsets, i, s) <==> t < s && Covers(offsets, t, i)
  {
    if s > 0 {
      StagesBelowMembers(offsets, i, s - 1, t);
    }
  }

  /** The assigned stages are strictly ascending. */
  lemma {:induction false} StagesBelowAscending(offsets: seq<int>, i: int, s: nat)
    requires s <= StageCount
    ensures forall a, b :: 0 <= a < b < |StagesBelow(offsets, i, s)| ==> StagesBelow(offsets, i, s)[a] < StagesBelow(offsets, i, s)[b]
  {
    if s > 0 {
      StagesBelowAscending(offsets, i, s - 1);
    }
  }

  /** The name list and the index list stay parallel: entry k is the pair of
      index k and that stage's name. */
  lemma {:induction false} EntriesParallel(offsets: seq<int>, i: int, s: nat)
    requires s <= StageCount
    ensures |EntriesBelow(offsets, i, s)| == |StagesBelow(offsets, i, s)|
    ensures forall k :: 0 <= k < |StagesBelow(offsets, i, s)| ==>
      EntriesBelow(offsets, i, s)[k] == (StagesBelow(offsets, i, s)[k], RenderStageNames[StagesBelow(offsets, i, s)[k]])
  {
    if s > 0 {
      EntriesParallel(offsets, i, s - 1);
    }
  }

  /** One iteration of the loop over `renderStages`: stage `s` pushed onto
      the parts from `stagePartOffsets[s]` up to `stagePartOffsets[s + 1]`. */
  method AssignStage(parts: seq<StagePart>, cur: seq<StagePart>, offsets: seq<int>, s: nat) returns (r: Result<seq<StagePart>>)
    requires s < StageCount && |cur| == |parts|
    requires forall i :: 0 <= i < |parts| ==> cur[i] == WithStagesBelow(parts[i], offsets, i, s)
    ensures r.Failure? <==> BadStage(offsets, |parts|, s)
    ensures r.Failure? ==> r.error == TypeError
    ensures r.Success? ==> (|r.value| == |parts|
      && forall i :: 0 <= i < |parts| ==> r.value[i] == WithStagesBelow(parts[i], offsets, i, s + 1))
  {
    var next := cur;
    if s + 1 < |offsets| {
      var start := offsets[s];
      var stop := offsets[s + 1];
      var j := start;
      while j < stop
        invariant start <= j && |next| == |parts|
        invariant start < j ==> 0 <= start && j <= |parts| && j <= stop
        invariant forall i :: 0 <= i < |parts| ==>
          next[i] == WithStagesBelow(parts[i], offsets, i, if start <= i < j then s + 1 else s)
        decreases stop - j
      {
        if j < 0 || j >= |next| {
          return Failure(TypeError);
        }
        next := next[j := next[j].(renderStagesIndices := next[j].renderStagesIndices + [s],
                                   renderStages := next[j].renderStages + [(s, RenderStageNames[s])])];
        j := j + 1;
      }
    }
    r := Success(next);
  }

  /** The loop over `renderStages`: each stage pushes its index and its
      `[index, name]` pair onto every part it covers, stage by stage. */
  method AssignRenderStages(parts: seq<StagePart>, offsets: seq<int>) returns (r: Result<seq<StagePart>>)
    ensures r.Failure? <==> exists s :: 0 <= s < StageCount && BadStage(offsets, |parts|, s)
    ensures r.Failure? ==> r.error == TypeError
    ensures r.Success? ==> (|r.value| == |parts|
      && forall i :: 0 <= i < |parts| ==> r.value[i] == WithStagesBelow(parts[i], offsets, i, StageCount))
  {
    var cur := parts;
    var s := 0;
    while s < StageCount
      invariant 0 <= s <= StageCount && |cur| == |parts|
      invariant forall i :: 0 <= i < |parts| ==> cur[i] == WithStagesBelow(parts[i], offsets, i, s)
      invariant forall t :: 0 <= t < s ==> !BadStage(offsets, |parts|, t)
    {
      var next := AssignStage(parts, cur, offsets, s);
      if next.Failure? {
        return next;
      }
      cur := next.value;
      s := s + 1;
    }
    r := Success(cur);
  }

  /** One vertex-layout element as the layout definition gives it. */
  datatype RawElement = RawElement(semantic: string, semanticIndex: int, typeName: string, normalized: bool)

  /** The attribute the constructor derives from an element. `count`,
      `byteOffset` and `byteCount` are None where JavaScript computes NaN (a
      type name without a parsable count). */
  datatype Attribute = Attribute(
    semantic: string, semanticIndex: int, shaderValueType: string, count: Option<int>,
    isNormalized: bool, byteOffset: Option<int>, elementType: DataType, byteCount: Option<int>,
    shaderValueName: string)

  /** Addition and multiplication where None is NaN. */
  function AddOpt(a: Option<int>, b: Option<int>): Option<int> {
    if a.Some? && b.Some? then Some(a.value + b.value) else None
  }

  function MulOpt(a: int, b: Option<int>): Option<int> {
    if b.Some? then Some(a * b.value) else None
  }

  /** `String(n)` of a count, NaN included. */
  function CountString(n: Option<int>): string {
    if n.Some? then IntToString(n.value) else "NaN"
  }

  /** Scalar type and count of an element: its type name without the
      `_vertex_format_attribute_` prefix through `getDataTypeAndCount`. */
  function ElementType(e: RawElement): Option<(DataType, Option<int>)> {
    GetDataTypeAndCount(ReplaceFirst(e.typeName, "_vertex_format_attribute_", ""))
  }

  function StrippedSemantic(e: RawElement): string {
    ReplaceFirst(e.semantic, "_tfx_vb_semantic_", "")
  }

  /** Everything the attribute states about its element except the offset,
      which depends on the elements before it. */
  predicate Describes(a: Attribute, e: RawElement) {
    ElementType(e) == Some((a.elementType, a.count))
    && a.semantic == StrippedSemantic(e) && a.semanticIndex == e.semanticIndex
    && a.isNormalized == e.normalized
    && a.byteCount == MulOpt(ByteSize(a.elementType), a.count)
    && a.shaderValueType == ShaderValueType(a.count)
    && a.shaderValueName == ShaderValueName(StrippedSemantic(e), e.semanticIndex)
  }

  /** "float" for a single component, else "vec" and the count. */
  function ShaderValueType(count: Option<int>): string {
    if count == Some(1) then "float" else "vec" + CountString(count)
  }

  /** `a_{semantic}`, followed by the semantic index when it is positive. */
  function ShaderValueName(semantic: string, semanticIndex: int): string {
    "a_" + semantic + (if semanticIndex > 0 then IntToString(semanticIndex) else "")
  }

  /** The attribute of element `e` at byte `offset` of its stream; None when
      `getDataTypeAndCount` finds no type (destructuring its undefined result
      throws). */
  function AttributeAt(e: RawElement, offset: Option<int>): Option<Attribute> {
    match ElementType(e)
    case None => None
    case Some((t, n)) =>
      Some(Attribute(StrippedSemantic(e), e.semanticIndex, ShaderValueType(n), n, e.normalized, offset, t,
        MulOpt(ByteSize(t), n), ShaderValueName(StrippedSemantic(e), e.semanticIndex)))
  }

  /** `elementByteOffset` after the given attributes: 0 at the start, then
      the last offset plus the last byte count. */
  function NextOffset(prev: seq<Attribute>): Option<int> {
    if prev == [] then Some(0) else AddOpt(prev[|prev| - 1].byteOffset, prev[|prev| - 1].byteCount)
  }

  /** The attributes of the first `k` elements of a stream, each computed by
      `step` from the element and the running offset; None once a step throws. */
  function Fold(elements: seq<RawElement>, k: nat, step: (RawElement, Option<int>) -> Option<Attribute>): (r: Option<seq<Attribute>>)
    requires k <= |elements|
    ensures r.Some? ==> |r.value| == k
  {
    if k == 0 then Some([])
    else match Fold(elements, k - 1, step)
      case None => None
      case Some(prev) =>
        match step(elements[k - 1], NextOffset(prev))
        case None => None
        case Some(a) => Some(prev + [a])
  }

  /** The layout of the first `k` elements of a stream. */
  function LayoutUpTo(elements: seq<RawElement>, k: nat): (r: Option<seq<Attribute>>)
    requires k <= |elements|
  {
    Fold(elements, k, AttributeAt)
  }

  /** A successful fold extends the folds of its prefixes. */
  lemma {:induction false} FoldPrefix(elements: seq<RawElement>, step: (RawElement, Option<int>) -> Option<Attribute>, j: nat, k: nat)
    requires j <= k <= |elements| && Fold(elements, k, step).Some?
    ensures Fold(elements, j, step).Some? && Fold(elements, j, step).value == Fold(elements, k, step).value[..j]
    decreases k
  {
    if j < k {
      FoldPrefix(elements, step, j, k - 1);
      var prev := Fold(elements, k - 1, step).value;
      assert Fold(elements, k, step).value[..k - 1] == prev;
      assert prev[..j] == Fold(elements, k, step).value[..j];
    } else {
      assert Fold(elements, k, step).value[..k] == Fold(elements, k, step).value;
    }
  }

  /** Once a step throws, every longer fold throws. */
  lemma {:induction false} FoldNoRecovery(elements: seq<RawElement>, step: (RawElement, Option<int>) -> Option<Attribute>, m: nat, n: nat)
    requires m <= n <= |elements| && Fold(elements, m, step).None?
    ensures Fold(elements, n, step).None?
    decreases n - m
  {
    if m < n {
      FoldNoRecovery(elements, step, m + 1, n);
    }
  }

  /** Entry `j` of a successful fold is the step's attribute of element `j`
      at the offset the entries before it reach. */
  lemma FoldEntry(elements: seq<RawElement>, step: (RawElement, Option<int>) -> Option<Attribute>, j: nat, k: nat)
    requires j < k <= |elements| && Fold(elements, k, step).Some?
    ensures var r := Fold(elements, k, step).value;
      step(elements[j], NextOffset(r[..j])) == Some(r[j])
  {
    FoldPrefix(elements, step, j + 1, k);
    FoldPrefix(elements, step, j, k);
    var r := Fold(elements, k, step).value;
    assert r[..j + 1] == r[..j] + [r[j]];
  }

  /** `getDataTypeAndCount` finds no type for the element. */
  predicate UnknownType(e: RawElement) {
    ElementType(e).None?
  }

  /** What `AttributeAt` promises: None exactly for an unknown type, else an
      attribute describing the element at the given offset. */
  lemma AttributeAtMeaning(e: RawElement, offset: Option<int>)
    ensures AttributeAt(e, offset).None? <==> UnknownType(e)
    ensures AttributeAt(e, offset).Some? ==> Describes(AttributeAt(e, offset).value, e) && AttributeAt(e, offset).value.byteOffset == offset
  {
  }

  /** The inner loop of the layout: one attribute per element, the running
      `elementByteOffset` growing by each element's byte count. */
  method StreamAttributes(elements: seq<RawElement>) returns (r: Result<seq<Attribute>>)
    ensures r.Failure? <==> LayoutUpTo(elements, |elements|).None?
    ensures r.Failure? ==> r.error == TypeError
    ensures r.Success? ==> r.value == LayoutUpTo(elements, |elements|).value
  {
    var attributes: seq<Attribute> := [];
    var elementByteOffset: Option<int> := Some(0);
    var k := 0;
    while k < |elements|
      invariant 0 <= k <= |elements|
      invariant LayoutUpTo(elements, k) == Some(attributes)
      invariant elementByteOffset == NextOffset(attributes)
    {
      var found := AttributeAt(elements[k], elementByteOffset);
      if found.None? {
        FoldNoRecovery(elements, AttributeAt, k + 1, |elements|);
        return Failure(TypeError);
      }
      var a := found.value;
      AttributeAtMeaning(elements[k], elementByteOffset);
      assert Fold(elements, k + 1, AttributeAt) == Some(attributes + [a]);
      elementByteOffset := AddOpt(elementByteOffset, a.byteCount);
      attributes := attributes + [a];
      k := k + 1;
    }
    r := Success(attributes);
  }

  /** When a step throws for an element whatever the offset, a fold throws
      exactly when one of its elements is such an element. */
  lemma {:induction false} FoldFails(elements: seq<RawElement>, step: (RawElement, Option<int>) -> Option<Attribute>, fails: RawElement -> bool, k: nat)
    requires k <= |elements|
    requires forall e, offset :: step(e, offset).None? <==> fails(e)
    ensures Fold(elements, k, step).None? <==> exists j :: 0 <= j < k && fails(elements[j])
  {
    if k > 0 {
      FoldFails(elements, step, fails, k - 1);
    }
  }

  /** The layout of a prefix fails exactly when one of its elements has no known type. */
  lemma LayoutFails(elements: seq<RawElement>, k: nat)
    requires k <= |elements|
    ensures LayoutUpTo(elements, k).None? <==> exists j :: 0 <= j < k && UnknownType(elements[j])
  {
    forall e, offset ensures AttributeAt(e, offset).None? <==> UnknownType(e) {
      AttributeAtMeaning(e, offset);
    }
    FoldFails(elements, AttributeAt, UnknownType, k);
  }

  /** Attribute `j` of a layout describes element `j` (stripped semantic,
      semantic index, scalar type and count from `getDataTypeAndCount`, the
      normalized flag, byte count and shader names), and offsets accumulate:
      the first attribute is at 0 and each later one starts where the
      previous one's byte count ends. */
  lemma LayoutEntry(elements: seq<RawElement>, k: nat, j: nat)
    requires j < k <= |elements| && LayoutUpTo(elements, k).Some?
    ensures var r := LayoutUpTo(elements, k).value;
      Describes(r[j], elements[j])
      && r[j].byteOffset == if j == 0 then Some(0) else AddOpt(r[j - 1].byteOffset, r[j - 1].byteCount)
  {
    var r := LayoutUpTo(elements, k).value;
    FoldEntry(elements, AttributeAt, j, k);
    AttributeAtMeaning(elements[j], NextOffset(r[..j]));
  }

  /** With every count known and not negative, the elements of a stream lie
      one after another without overlap: an earlier element ends at or before
      the start of a later one. */
  lemma {:induction false} AttributesDisjoint(attributes: seq<Attribute>, k: nat, l: nat)
    requires k < l < |attributes|
    requires attributes[0].byteOffset == Some(0)
    requires forall j :: 0 < j < |attributes| ==> attributes[j].byteOffset == AddOpt(attributes[j - 1].byteOffset, attributes[j - 1].byteCount)
    requires forall j :: 0 <= j < |attributes| ==> attributes[j].byteCount.Some? && attributes[j].byteCount.value >= 0
    ensures attributes[k].byteOffset.Some? && attributes[l].byteOffset.Some?
    ensures attributes[k].byteOffset.value + attributes[k].byteCount.value <= attributes[l].byteOffset.value
    decreases l
  {
    OffsetsDefined(attributes, l);
    if l > k + 1 {
      AttributesDisjoint(attributes, k, l - 1);
    }
  }

  lemma {:induction false} OffsetsDefined(attributes: seq<Attribute>, l: nat)
    requires l < |attributes|
    requires attributes[0].byteOffset == Some(0)
    requires forall j :: 0 < j < |attributes| ==> attributes[j].byteOffset == AddOpt(attributes[j - 1].byteOffset, attributes[j - 1].byteCount)
    requires forall j :: 0 <= j < |attributes| ==> attributes[j].byteCount.Some? && attributes[j].byteCount.value >= 0
    ensures forall j :: 0 <= j <= l ==> attributes[j].byteOffset.Some? && attributes[j].byteOffset.value >= 0
  {
    if l > 0 {
      OffsetsDefined(attributes, l - 1);
      assert attributes[l].byteOffset == AddOpt(attributes[l - 1].byteOffset, attributes[l - 1].byteCount);
    }
  }

  /** The stream of a layout cannot be read: `formats[b]` is undefined, or an element's type is unknown. */
  predicate BadStream(formats: seq<seq<RawElement>>, b: nat) {
    b >= |formats| || LayoutUpTo(formats[b], |formats[b]|).None?
  }

  /** The outer loop of the layout: the attributes of each of the
      `streamCount` vertex buffers from the first layout definition's
      formats. Without a definition, reading its `formats` throws. */
  method LayoutAttributes(definitions: seq<seq<seq<RawElement>>>, streamCount: nat) returns (r: Result<seq<seq<Attribute>>>)
    ensures r.Failure? <==> |definitions| == 0 || exists b :: 0 <= b < streamCount && BadStream(definitions[0], b)
    ensures r.Failure? ==> r.error == TypeError
    ensures r.Success? ==> (|definitions| > 0 && streamCount <= |definitions[0]| && |r.value| == streamCount
      && forall b :: 0 <= b < streamCount ==> StreamLayout(r.value[b], definitions[0][b]))
  {
    if |definitions| == 0 {
      return Failure(TypeError);
    }
    var formats := definitions[0];
    var all: seq<seq<Attribute>> := [];
    var b := 0;
    while b < streamCount
      invariant 0 <= b <= streamCount && b <= |formats| && |all| == b
      invariant forall j :: 0 <= j < b ==> !BadStream(formats, j) && StreamLayout(all[j], formats[j])
    {
      if b >= |formats| {
        assert BadStream(formats, b);
        return Failure(TypeError);
      }
      var attributes := StreamAttributes(formats[b]);
      if attributes.Failure? {
        assert BadStream(formats, b);
        return Failure(attributes.error);
      }
      assert !BadStream(formats, b) && StreamLayout(attributes.value, formats[b]);
      ghost var earlier := all;
      all := all + [attributes.value];
      assert all[b] == attributes.value && forall j | 0 <= j < b :: all[j] == earlier[j];
      b := b + 1;
    }
    r := Success(all);
  }

  /** The attributes of one stream, as `StreamAttributes` computes them. */
  predicate StreamLayout(attributes: seq<Attribute>, elements: seq<RawElement>) {
    LayoutUpTo(elements, |elements|) == Some(attributes)
  }

  /** `fileName`, `byteSize`, `strideByteSize` of a vertex buffer and
      `fileName`, `byteSize`, `valueByteSize` of the index buffer. */
  datatype VertexBufferMetadata = VertexBufferMetadata(fileName: string, byteSize: nat, strideByteSize: nat)
  datatype IndexBufferMetadata = IndexBufferMetadata(fileName: string, byteSize: nat, valueByteSize: nat)

  /** The render-mesh entry of the geometry metadata. */
  datatype RawMesh = RawMesh(
    positionOffset: seq<Num>, positionScale: seq<Num>, texcoord0ScaleOffset: seq<Num>,
    stagePartOffsets: seq<int>, stagePartList: seq<RawStagePart>, indexBuffer: IndexBufferMetadata,
    vertexBuffers: seq<VertexBufferMetadata>, layoutDefinitions: seq<seq<seq<RawElement>>>)

  /** The fields of a constructed `RenderMesh` the geometry pipeline uses. */
  datatype Mesh = Mesh(
    positionOffset: seq<Num>, positionScale: seq<Num>, textureScale: seq<Num>, textureOffset: seq<Num>,
    stagePartOffsets: seq<int>, stageParts: seq<StagePart>, indexBuffer: IndexBufferMetadata,
    vertexBuffers: seq<VertexBufferMetadata>, attributes: seq<seq<Attribute>>)

  /** An attribute that triggers the cloth-position override: a semantic
      starting with "position" and of type float. */
  predicate FloatPosition(a: Attribute) {
    StartsWith(a.semantic, "position") && a.elementType == Float32
  }

  /** The stage parts the constructor builds, stages assigned. */
  predicate BuiltParts(parts: seq<StagePart>, raw: RawMesh, geometryHash: string, meshIndex: int) {
    |parts| == |raw.stagePartList|
    && forall i :: 0 <= i < |parts| ==>
      DyeMapping(raw.stagePartList[i].gearDyeChangeColorIndex).Some?
      && parts[i] == WithStagesBelow(Described(raw.stagePartList[i], i, geometryHash, meshIndex,
                                               DyeMapping(raw.stagePartList[i].gearDyeChangeColorIndex).value),
                                     raw.stagePartOffsets, i, StageCount)
  }

  /** `new RenderMesh(renderMesh, geometryHash, renderMeshIndex)`: stage parts,
      stage assignment, metadata copies and the layout, in the constructor's
      order; the first step that throws decides the error. Texture scale and
      offset are the first two entries of `texcoord0_scale_offset` and the
      rest. */
  method BuildMesh(raw: RawMesh, geometryHash: string, meshIndex: int) returns (r: Result<Mesh>)
    ensures r.Failure? <==>
      (exists i :: 0 <= i < |raw.stagePartList| && DyeMapping(raw.stagePartList[i].gearDyeChangeColorIndex).None?)
      || (exists s :: 0 <= s < StageCount && BadStage(raw.stagePartOffsets, |raw.stagePartList|, s))
      || |raw.layoutDefinitions| == 0
      || (exists b :: 0 <= b < |raw.vertexBuffers| && BadStream(raw.layoutDefinitions[0], b))
    ensures r.Success? ==>
      var m := r.value;
      var cut := if |raw.texcoord0ScaleOffset| < 2 then |raw.texcoord0ScaleOffset| else 2;
      BuiltParts(m.stageParts, raw, geometryHash, meshIndex)
      && m.textureScale == raw.texcoord0ScaleOffset[..cut] && m.textureOffset == raw.texcoord0ScaleOffset[cut..]
      && m.stagePartOffsets == raw.stagePartOffsets && m.indexBuffer == raw.indexBuffer
      && m.vertexBuffers == raw.vertexBuffers
      && |raw.layoutDefinitions| > 0 && |raw.vertexBuffers| <= |raw.layoutDefinitions[0]|
      && |m.attributes| == |raw.vertexBuffers|
      && (forall b :: 0 <= b < |m.attributes| ==> StreamLayout(m.attributes[b], raw.layoutDefinitions[0][b]))
      && ((exists b, k :: 0 <= b < |m.attributes| && 0 <= k < |m.attributes[b]| && FloatPosition(m.attributes[b][k])) ==>
            m.positionScale == [Fin(1.0), Fin(1.0), Fin(1.0)] && m.positionOffset == [Fin(0.0), Fin(0.0), Fin(0.0)])
      && (!(exists b, k :: 0 <= b < |m.attributes| && 0 <= k < |m.attributes[b]| && FloatPosition(m.attributes[b][k])) ==>
            m.positionScale == raw.positionScale && m.positionOffset == raw.positionOffset)
  {
    var cut := if |raw.texcoord0ScaleOffset| < 2 then |raw.texcoord0ScaleOffset| else 2;
    var parsed := ParseStageParts(raw.stagePartList, geometryHash, meshIndex);
    if parsed.Failure? {
      return Failure(parsed.error);
    }
    var staged := AssignRenderStages(parsed.value, raw.stagePartOffsets);
    if staged.Failure? {
      return Failure(staged.error);
    }
    var layout := LayoutAttributes(raw.layoutDefinitions, |raw.vertexBuffers|);
    if layout.Failure? {
      return Failure(layout.error);
    }
    var positionScale, positionOffset := PositionOverride(layout.value, raw.positionScale, raw.positionOffset);
    r := Success(Mesh(positionOffset, positionScale, raw.texcoord0ScaleOffset[..cut], raw.texcoord0ScaleOffset[cut..],
      raw.stagePartOffsets, staged.value, raw.indexBuffer, raw.vertexBuffers, layout.value));
  }

  /** The scale and offset after the layout loop: each float position element
      overwrites them with identity values. */
  method PositionOverride(attributes: seq<seq<Attribute>>, scale: seq<Num>, offset: seq<Num>)
    returns (positionScale: seq<Num>, positionOffset: seq<Num>)
    ensures (exists b, k :: 0 <= b < |attributes| && 0 <= k < |attributes[b]| && FloatPosition(attributes[b][k])) ==>
      positionScale == [Fin(1.0), Fin(1.0), Fin(1.0)] && positionOffset == [Fin(0.0), Fin(0.0), Fin(0.0)]
    ensures !(exists b, k :: 0 <= b < |attributes| && 0 <= k < |attributes[b]| && FloatPosition(attributes[b][k])) ==>
      positionScale == scale && positionOffset == offset
  {
    positionScale, positionOffset := scale, offset;
    var b := 0;
    while b < |attributes|
      invariant 0 <= b <= |attributes|
      invariant (exists c, k :: 0 <= c < b && 0 <= k < |attributes[c]| && FloatPosition(attributes[c][k])) ==>
        positionScale == [Fin(1.0), Fin(1.0), Fin(1.0)] && positionOffset == [Fin(0.0), Fin(0.0), Fin(0.0)]
      invariant !(exists c, k :: 0 <= c < b && 0 <= k < |attributes[c]| && FloatPosition(attributes[c][k])) ==>
        positionScale == scale && positionOffset == offset
    {
      var k := 0;
      while k < |attributes[b]|
        invariant 0 <= k <= |attributes[b]|
        invariant (exists c, j :: ((0 <= c < b && 0 <= j < |attributes[c]|) || (c == b && 0 <= j < k)) && FloatPosition(attributes[c][j])) ==>
          positionScale == [Fin(1.0), Fin(1.0), Fin(1.0)] && positionOffset == [Fin(0.0), Fin(0.0), Fin(0.0)]
        invariant !(exists c, j :: ((0 <= c < b && 0 <= j < |attributes[c]|) || (c == b && 0 <= j < k)) && FloatPosition(attributes[c][j])) ==>
          positionScale == scale && positionOffset == offset
      {
        if FloatPosition(attributes[b][k]) {
          positionScale := [Fin(1.0), Fin(1.0), Fin(1.0)];
          positionOffset := [Fin(0.0), Fin(0.0), Fin(0.0)];
        }
        k := k + 1;
      }
      b := b + 1;
    }
  }
}
