/** `stagePartFilter`: the parts of a mesh that are drawn. A part passes the
    level-of-detail test when its LOD category is one of those the requested
    LOD draws, and is kept when one of its render stages is allowed; the
    Destiny 2 filter also drops a part whose flags are 0. */
module StagePartFilter {
  import opened Wrappers
  import opened Numbers
  import opened RenderMesh

  /** `LODToValues[LOD]`: the categories each LOD draws; any other key is undefined. */
  function LODToValues(lod: Num): (r: Option<seq<int>>)
    ensures r.Some? <==> IsInteger(lod) && 0.0 <= lod.r <= 3.0
  {
    if lod == OfInt(0) then Some([0, 1, 2, 3])
    else if lod == OfInt(1) then Some([1, 2, 3, 4, 5, 6])
    else if lod == OfInt(2) then Some([2, 3, 5, 6, 7, 8])
    else if lod == OfInt(3) then Some([3, 6, 8, 9])
    else None
  }

  /** `LODFilter(stagePart, LOD)`: `includes` on undefined raises a TypeError. */
  function LODFilter(p: StagePart, lod: Num): (r: Result<bool>)
    ensures r.Failure? <==> LODToValues(lod).None?
    ensures r.Failure? ==> r.error == TypeError
    ensures r.Success? ==> (r.value <==> p.part.lodCategory in LODToValues(lod).value)
  {
    match LODToValues(lod)
    case None => Failure(TypeError)
    case Some(values) => Success(p.part.lodCategory in values)
  }

  /** Category 10 ("unused") is drawn at no LOD, and the all-LOD category 3 at every one. */
  lemma LODCategories(p: StagePart, lod: Num)
    requires LODToValues(lod).Some?
    ensures p.part.lodCategory == 10 ==> LODFilter(p, lod) == Success(false)
    ensures p.part.lodCategory == 3 ==> LODFilter(p, lod) == Success(true)
  {
  }

  /** `part.renderStagesIndices.some(el => allowedRenderStageIndexes.includes(el))`. */
  predicate SomeStageAllowed(stages: seq<nat>, allowed: seq<Num>) {
    exists i :: 0 <= i < |stages| && OfInt(stages[i]) in allowed
  }

  /** Whether a filter keeps `p`; `checkFlags` is the Destiny 2 flags test. */
  function Keep(p: StagePart, lod: Num, allowed: seq<Num>, checkFlags: bool): (r: Result<bool>)
    ensures r.Failure? <==> LODToValues(lod).None?
    ensures r.Success? ==> (r.value <==> (LODFilter(p, lod) == Success(true)
                                         && (checkFlags ==> p.part.flags != 0)
                                         && SomeStageAllowed(p.renderStagesIndices, allowed)))
  {
    match LODFilter(p, lod)
    case Failure(e) => Failure(e)
    case Success(false) => Success(false)
    case Success(true) =>
      if checkFlags && p.part.flags == 0 then Success(false)
      else Success(SomeStageAllowed(p.renderStagesIndices, allowed))
  }

  /** The parts a filter keeps, in order. */
  function Filtered(parts: seq<StagePart>, lod: Num, allowed: seq<Num>, checkFlags: bool): Result<seq<StagePart>> {
    if |parts| == 0 then Success([])
    else match Filtered(parts[..|parts| - 1], lod, allowed, checkFlags)
      case Failure(e) => Failure(e)
      case Success(kept) =>
        match Keep(parts[|parts| - 1], lod, allowed, checkFlags)
        case Failure(e) => Failure(e)
        case Success(k) => Success(if k then kept + [parts[|parts| - 1]] else kept)
  }

  /** `filterDestiny2StagePartsToRender(mesh, LOD, allowedRenderStageIndexes)`. */
  method FilterDestiny2StagePartsToRender(parts: seq<StagePart>, lod: Num, allowed: seq<Num>) returns (r: Result<seq<StagePart>>)
    ensures r == Filtered(parts, lod, allowed, true)
  {
    var renderableParts := [];
    for p := 0 to |parts|
      invariant Filtered(parts[..p], lod, allowed, true) == Success(renderableParts)
    {
      assert parts[..p + 1][..p] == parts[..p];
      var part := parts[p];
      var lodOk := LODFilter(part, lod);
      if lodOk.Failure? {
        FilteredNoRecovery(parts, lod, allowed, true, p + 1, lodOk.error);
        return Failure(lodOk.error);
      }
      if !lodOk.value {
        continue;
      }
      if part.part.flags == 0 {
        continue;
      }
      if SomeStageAllowed(part.renderStagesIndices, allowed) {
        renderableParts := renderableParts + [part];
      }
    }
    assert parts[..|parts|] == parts;
    r := Success(renderableParts);
  }

  /** `filterDestinyStagePartsToRender(mesh, LOD, allowedRenderStageIndexes)`:
      the LOD test runs with its default LOD 0, and there is no flags test. */
  method FilterDestinyStagePartsToRender(parts: seq<StagePart>, lod: Num, allowed: seq<Num>) returns (r: Result<seq<StagePart>>)
    ensures r == Filtered(parts, OfInt(0), allowed, false)
  {
    var renderableParts := [];
    for p := 0 to |parts|
      invariant Filtered(parts[..p], OfInt(0), allowed, false) == Success(renderableParts)
    {
      assert parts[..p + 1][..p] == parts[..p];
      var part := parts[p];
      var lodOk := LODFilter(part, OfInt(0));
      if !lodOk.value {
        continue;
      }
      if SomeStageAllowed(part.renderStagesIndices, allowed) {
        renderableParts := renderableParts + [part];
      }
    }
    assert parts[..|parts|] == parts;
    r := Success(renderableParts);
  }

  lemma {:induction false} FilteredNoRecovery(parts: seq<StagePart>, lod: Num, allowed: seq<Num>, checkFlags: bool, i: nat, e: Error)
    requires i <= |parts| && Filtered(parts[..i], lod, allowed, checkFlags) == Failure(e)
    ensures Filtered(parts, lod, allowed, checkFlags) == Failure(e)
    decreases |parts| - i
  {
    if i < |parts| {
      assert parts[..i + 1][..i] == parts[..i];
      FilteredNoRecovery(parts, lod, allowed, checkFlags, i + 1, e);
    } else {
      assert parts[..i] == parts;
    }
  }

  /** `a` is `b` with some elements left out. */
  predicate Subsequence<T(==)>(a: seq<T>, b: seq<T>)
    decreases |b|
  {
    if |a| == 0 then true
    else if |b| == 0 then false
    else if a[|a| - 1] == b[|b| - 1] && Subsequence(a[..|a| - 1], b[..|b| - 1]) then true
    else Subsequence(a, b[..|b| - 1])
  }

  /** A filter fails exactly when it has a part to test against an LOD that
      is not 0 to 3; otherwise it keeps, in their order, exactly the parts
      that pass. */
  lemma {:induction false} FilteredMeaning(parts: seq<StagePart>, lod: Num, allowed: seq<Num>, checkFlags: bool)
    ensures Filtered(parts, lod, allowed, checkFlags).Failure? <==> |parts| > 0 && LODToValues(lod).None?
    ensures Filtered(parts, lod, allowed, checkFlags).Success? ==>
      var kept := Filtered(parts, lod, allowed, checkFlags).value;
      Subsequence(kept, parts)
      && (forall p | p in kept :: Keep(p, lod, allowed, checkFlags) == Success(true))
      && (forall k | 0 <= k < |parts| :: Keep(parts[k], lod, allowed, checkFlags) == Success(true) ==> parts[k] in kept)
    decreases |parts|
  {
    if |parts| > 0 {
      var init := parts[..|parts| - 1];
      var last := parts[|parts| - 1];
      FilteredMeaning(init, lod, allowed, checkFlags);
      if Filtered(parts, lod, allowed, checkFlags).Success? {
        var kept := Filtered(init, lod, allowed, checkFlags).value;
        var kept' := Filtered(parts, lod, allowed, checkFlags).value;
        if Keep(last, lod, allowed, checkFlags) == Success(true) {
          assert kept' == kept + [last];
          assert kept'[..|kept'| - 1] == kept;
        } else {
          assert kept' == kept;
          SubsequenceExtend(kept, init, last);
        }
        forall k | 0 <= k < |parts| && Keep(parts[k], lod, allowed, checkFlags) == Success(true)
          ensures parts[k] in kept'
        {
          if k < |init| {
            assert init[k] == parts[k];
          }
        }
      }
    }
  }

  /** Appending to the longer sequence keeps a subsequence. */
  lemma SubsequenceExtend<T>(a: seq<T>, b: seq<T>, x: T)
    requires Subsequence(a, b)
    ensures Subsequence(a, b + [x])
  {
    assert (b + [x])[..|b + [x]| - 1] == b;
  }

  /** The Destiny 1 filter uses LOD 0 whatever LOD it is given. */
  lemma DestinyIgnoresLOD(parts: seq<StagePart>, lod: Num, allowed: seq<Num>, p: StagePart)
    requires p in parts
    ensures Filtered(parts, OfInt(0), allowed, false).Success?
    ensures p in Filtered(parts, OfInt(0), allowed, false).value <==>
      p.part.lodCategory in [0, 1, 2, 3] && SomeStageAllowed(p.renderStagesIndices, allowed)
  {
    FilteredMeaning(parts, OfInt(0), allowed, false);
    var k :| 0 <= k < |parts| && parts[k] == p;
  }

  /** A part with flags 0 and an allowed stage at LOD 0 is kept by the
      Destiny 1 filter and dropped by the Destiny 2 one. */
  lemma FlaglessPart(p: StagePart, allowed: seq<Num>)
    requires p.part.flags == 0 && p.part.lodCategory == 0 && SomeStageAllowed(p.renderStagesIndices, allowed)
    ensures Filtered([p], OfInt(0), allowed, false) == Success([p])
    ensures Filtered([p], OfInt(0), allowed, true) == Success([])
  {
    assert [p][..0] == [] && [p][0] == p;
    assert LODFilter(p, OfInt(0)) == Success(true);
    assert Keep(p, OfInt(0), allowed, false) == Success(true);
    assert Filtered([p][..0], OfInt(0), allowed, false) == Success([]);
    assert [] + [p] == [p];
  }
}
