/** The triangle builder of `#makeGeometries`: the index buffer slice of one
    renderable part is turned into a triangle list. Primitive type 5 is a
    triangle strip (one face per index, winding alternating between (0, 1, 2)
    and (1, 0, 2)); any other type is read three indices per face, with the
    (0, 1, 2) winding for type 3. A face touching the restart value 65535 is
    skipped and resets the winding counter; the first index not below the
    vertex count ends the part, keeping what the face had pushed. */
module Triangles {
  import opened Wrappers

  type U16 = x: nat | x < 0x1_0000

  /** The renderable part fields the builder reads. */
  datatype Part = Part(startIndex: int, indexCount: int, primitiveType: int)

  const Restart: U16 := 65535

  /** `indexBuffer[j]`: undefined outside the array. */
  function Lookup(ib: seq<U16>, j: int): Option<nat> {
    if 0 <= j < |ib| then Some(ib[j]) else None
  }

  /** `index >= vertexCount`: false for an undefined index and for a NaN (None) vertex count. */
  predicate Missing(x: Option<nat>, vertexCount: Option<nat>) {
    x.Some? && vertexCount.Some? && x.value >= vertexCount.value
  }

  /** The loop bound and step: strips have `indexCount - 2` faces one index apart. */
  function Count(p: Part): int {
    if p.primitiveType == 5 then p.indexCount - 2 else p.indexCount
  }

  function Increment(p: Part): nat {
    if p.primitiveType == 5 then 1 else 3
  }

  /** `oddOrder` is chosen over `evenOrder` for types other than 3 when the counter is odd. */
  predicate Swapped(primitiveType: int, odd: nat) {
    primitiveType != 3 && odd % 2 == 1
  }

  /** `evenOrder[j]` = j, or `oddOrder[j]` with the first two corners exchanged. */
  function Corner(swapped: bool, j: nat): nat {
    if swapped && j == 0 then 1 else if swapped && j == 1 then 0 else j
  }

  /** The winding as the loader declares it. */
  function Order(swapped: bool): seq<nat> {
    if swapped then [1, 0, 2] else [0, 1, 2]
  }

  /** The face at `faceIndex` touches the restart value. */
  predicate Restarts(ib: seq<U16>, faceIndex: int) {
    Lookup(ib, faceIndex) == Some(Restart) || Lookup(ib, faceIndex + 1) == Some(Restart)
    || Lookup(ib, faceIndex + 2) == Some(Restart)
  }

  /** The three corners of the face at `faceIndex`, in winding order. */
  function Corners(ib: seq<U16>, faceIndex: int, swapped: bool): seq<Option<nat>> {
    [Lookup(ib, faceIndex + Corner(swapped, 0)), Lookup(ib, faceIndex + Corner(swapped, 1)),
     Lookup(ib, faceIndex + Corner(swapped, 2))]
  }

  /** What the corner loop pushes, and whether it met a missing vertex. */
  datatype FaceResult = FaceResult(pushed: seq<Option<nat>>, stopped: bool)

  /** The corners before the first missing one are pushed; a missing one stops the part. */
  function Face(ib: seq<U16>, faceIndex: int, swapped: bool, vertexCount: Option<nat>): FaceResult {
    var c := Corners(ib, faceIndex, swapped);
    if Missing(c[0], vertexCount) then FaceResult([], true)
    else if Missing(c[1], vertexCount) then FaceResult([c[0]], true)
    else if Missing(c[2], vertexCount) then FaceResult([c[0], c[1]], true)
    else FaceResult(c, false)
  }

  /** The face loop's parameters: first index, bound, step and primitive type. */
  datatype Walk = Walk(start: int, count: int, step: nat, primitiveType: int)

  function WalkOf(p: Part): (w: Walk)
    ensures w.step > 0
  {
    Walk(p.startIndex, Count(p), Increment(p), p.primitiveType)
  }

  /** The indices pushed from loop position `i` on, with the winding counter at `odd`. */
  function Strip(w: Walk, ib: seq<U16>, vertexCount: Option<nat>, i: int, odd: nat): seq<Option<nat>>
    requires w.step > 0
    decreases if i < w.count then w.count - i else 0, 1
  {
    if i >= w.count then [] else StripAt(w, ib, vertexCount, i, odd)
  }

  /** One pass of the loop at position `i < count`, and the rest of the part. */
  function StripAt(w: Walk, ib: seq<U16>, vertexCount: Option<nat>, i: int, odd: nat): seq<Option<nat>>
    requires w.step > 0 && i < w.count
    decreases w.count - i, 0
  {
    if Restarts(ib, w.start + i) then Strip(w, ib, vertexCount, i + w.step, 0)
    else
      var face := Face(ib, w.start + i, Swapped(w.primitiveType, odd), vertexCount);
      if face.stopped then face.pushed
      else face.pushed + Strip(w, ib, vertexCount, i + w.step, odd + 1)
  }

  /** A face touching the restart value pushes nothing and resets the counter. */
  lemma StripRestart(w: Walk, ib: seq<U16>, vertexCount: Option<nat>, i: int, odd: nat)
    requires w.step > 0 && i < w.count && Restarts(ib, w.start + i)
    ensures Strip(w, ib, vertexCount, i, odd) == Strip(w, ib, vertexCount, i + w.step, 0)
  {
    assert Strip(w, ib, vertexCount, i, odd) == StripAt(w, ib, vertexCount, i, odd);
  }

  /** Any other face pushes its corners; the part goes on unless one was missing. */
  lemma StripFace(w: Walk, ib: seq<U16>, vertexCount: Option<nat>, i: int, odd: nat)
    requires w.step > 0 && i < w.count && !Restarts(ib, w.start + i)
    ensures var face := Face(ib, w.start + i, Swapped(w.primitiveType, odd), vertexCount);
      Strip(w, ib, vertexCount, i, odd)
      == if face.stopped then face.pushed else face.pushed + Strip(w, ib, vertexCount, i + w.step, odd + 1)
  {
    assert Strip(w, ib, vertexCount, i, odd) == StripAt(w, ib, vertexCount, i, odd);
  }

  /** `indexBufferPerPart` for the part. */
  function Triangles(p: Part, ib: seq<U16>, vertexCount: Option<nat>): seq<Option<nat>> {
    Strip(WalkOf(p), ib, vertexCount, 0, 0)
  }

  /** `new Uint16Array(list)`: undefined entries become 0, numbers are taken modulo 2^16. */
  function ToUint16(s: seq<Option<nat>>): (r: seq<U16>)
    ensures |r| == |s|
    ensures forall k :: 0 <= k < |s| ==> r[k] == if s[k].Some? then s[k].value % 0x1_0000 else 0
  {
    if s == [] then [] else [if s[0].Some? then s[0].value % 0x1_0000 else 0] + ToUint16(s[1..])
  }

  /** The corner loop `for (let j = 0; j < 3; j++)` of one face: the corners
      pushed, and whether a missing vertex ended the part (`i = count; break`). */
  method FaceCorners(ib: seq<U16>, faceIndex: int, tri: seq<nat>, ghost swapped: bool, vertexCount: Option<nat>)
    returns (pushed: seq<Option<nat>>, stopped: bool)
    requires tri == Order(swapped)
    ensures FaceResult(pushed, stopped) == Face(ib, faceIndex, swapped, vertexCount)
  {
    ghost var c := Corners(ib, faceIndex, swapped);
    pushed, stopped := [], false;
    var j := 0;
    while j < 3
      invariant 0 <= j <= 3 && pushed == c[..j]
      invariant forall k :: 0 <= k < j ==> !Missing(c[k], vertexCount)
    {
      assert tri[j] == Corner(swapped, j);
      var index := Lookup(ib, faceIndex + tri[j]);
      if Missing(index, vertexCount) {
        stopped := true;
        return;
      }
      pushed := pushed + [index];
      j := j + 1;
    }
  }

  /** One iteration of the face loop at position `i`: the indices it pushes
      and the loop position and counter after it. */
  method FaceStep(w: Walk, ib: seq<U16>, vertexCount: Option<nat>, i: int, oddEvenControl: nat)
    returns (pushed: seq<Option<nat>>, next: int, nextOdd: nat)
    requires w.step > 0 && i < w.count
    ensures next > i
    ensures pushed + Strip(w, ib, vertexCount, next, nextOdd) == Strip(w, ib, vertexCount, i, oddEvenControl)
  {
    var faceIndex := w.start + i;
    if Lookup(ib, faceIndex) == Some(Restart) || Lookup(ib, faceIndex + 1) == Some(Restart)
       || Lookup(ib, faceIndex + 2) == Some(Restart) {
      StripRestart(w, ib, vertexCount, i, oddEvenControl);
      return [], i + w.step, 0;
    }
    var tri := if w.primitiveType == 3 || oddEvenControl % 2 == 0 then [0, 1, 2] else [1, 0, 2];
    assert tri == Order(Swapped(w.primitiveType, oddEvenControl));
    StripFace(w, ib, vertexCount, i, oddEvenControl);
    var stopped;
    pushed, stopped := FaceCorners(ib, faceIndex, tri, Swapped(w.primitiveType, oddEvenControl), vertexCount);
    next := i + w.step;
    if stopped {
      next := w.count + w.step;
    }
    nextOdd := oddEvenControl + 1;
  }

  /** Every defined index in the list is below the vertex count (when that is a number). */
  predicate Below(s: seq<Option<nat>>, vertexCount: Option<nat>) {
    forall k :: 0 <= k < |s| && s[k].Some? && vertexCount.Some? ==> s[k].value < vertexCount.value
  }

  lemma FaceBelow(ib: seq<U16>, faceIndex: int, swapped: bool, vertexCount: Option<nat>)
    ensures Below(Face(ib, faceIndex, swapped, vertexCount).pushed, vertexCount)
  {
  }

  lemma BelowConcat(a: seq<Option<nat>>, b: seq<Option<nat>>, vertexCount: Option<nat>)
    requires Below(a, vertexCount) && Below(b, vertexCount)
    ensures Below(a + b, vertexCount)
  {
    assert forall k :: |a| <= k < |a + b| ==> (a + b)[k] == b[k - |a|];
  }

  lemma {:induction false} StripBelow(w: Walk, ib: seq<U16>, vertexCount: Option<nat>, i: int, odd: nat)
    requires w.step > 0
    ensures Below(Strip(w, ib, vertexCount, i, odd), vertexCount)
    decreases if i < w.count then w.count - i else 0
  {
    if i >= w.count {
      StripDone(w, ib, vertexCount, i, odd);
    } else if Restarts(ib, w.start + i) {
      StripRestart(w, ib, vertexCount, i, odd);
      StripBelow(w, ib, vertexCount, i + w.step, 0);
    } else {
      StripFace(w, ib, vertexCount, i, odd);
      FaceBelow(ib, w.start + i, Swapped(w.primitiveType, odd), vertexCount);
      StripBelow(w, ib, vertexCount, i + w.step, odd + 1);
      BelowConcat(Face(ib, w.start + i, Swapped(w.primitiveType, odd), vertexCount).pushed,
                  Strip(w, ib, vertexCount, i + w.step, odd + 1), vertexCount);
    }
  }

  /** Every index the builder emits that is defined is below the vertex count. */
  lemma TrianglesBelow(p: Part, ib: seq<U16>, vertexCount: Option<nat>)
    ensures Below(Triangles(p, ib, vertexCount), vertexCount)
  {
    StripBelow(WalkOf(p), ib, vertexCount, 0, 0);
  }

  /** The index buffer between `lo` and `hi` holds no restart value and no index out of range. */
  predicate Clean(ib: seq<U16>, lo: int, hi: int, vertexCount: Option<nat>) {
    0 <= lo <= hi <= |ib|
    && forall j :: lo <= j < hi ==> ib[j] != Restart && (vertexCount.Some? ==> ib[j] < vertexCount.value)
  }

  lemma CleanWithin(ib: seq<U16>, lo: int, hi: int, lo': int, hi': int, vertexCount: Option<nat>)
    requires Clean(ib, lo, hi, vertexCount) && lo <= lo' <= hi' <= hi
    ensures Clean(ib, lo', hi', vertexCount)
  {
  }

  /** The entries of an index slice, all defined. */
  function Defined(s: seq<U16>): seq<Option<nat>> {
    seq(|s|, k requires 0 <= k < |s| => Some(s[k] as nat))
  }

  /** The face at `f` of a strip, with the even (0, 1, 2) or odd (1, 0, 2) winding. */
  function Wound(ib: seq<U16>, f: int, odd: bool): (r: seq<Option<nat>>)
    requires 0 <= f && f + 2 < |ib|
    ensures |r| == 3
  {
    if odd then [Some(ib[f + 1] as nat), Some(ib[f] as nat), Some(ib[f + 2] as nat)]
    else [Some(ib[f] as nat), Some(ib[f + 1] as nat), Some(ib[f + 2] as nat)]
  }

  /** On clean indices a face pushes its three corners in winding order. */
  lemma CleanFace(ib: seq<U16>, faceIndex: int, swapped: bool, vertexCount: Option<nat>)
    requires Clean(ib, faceIndex, faceIndex + 3, vertexCount)
    ensures Face(ib, faceIndex, swapped, vertexCount) == FaceResult(Wound(ib, faceIndex, swapped), false)
  {
  }

  /** The first face of a slice, then the rest. */
  lemma DefinedSplit(ib: seq<U16>, f: nat, e: nat)
    requires f + 3 <= e <= |ib|
    ensures Defined(ib[f..e]) == Wound(ib, f, false) + Defined(ib[f + 3..e])
  {
    assert ib[f..e][3..] == ib[f + 3..e];
  }

  /** A clean face of a list pushes its three corners unswapped, and the list goes on. */
  lemma ListClean(w: Walk, ib: seq<U16>, vertexCount: Option<nat>, i: int, odd: nat, f: nat)
    requires w.primitiveType == 3 && w.step == 3 && f == w.start + i && i < w.count
    requires Clean(ib, f, f + 3, vertexCount)
    ensures Strip(w, ib, vertexCount, i, odd) == Wound(ib, f, false) + Strip(w, ib, vertexCount, i + 3, odd + 1)
  {
    StripFace(w, ib, vertexCount, i, odd);
    CleanFace(ib, f, false, vertexCount);
  }

  /** From face `f` to the end `e` of the slice, a clean list is emitted as it stands. */
  lemma {:induction false} ListFrom(w: Walk, ib: seq<U16>, vertexCount: Option<nat>, i: int, odd: nat, f: nat, e: nat)
    requires w.primitiveType == 3 && w.step == 3 && f == w.start + i && e == w.start + w.count
    requires f <= e && (e - f) % 3 == 0 && Clean(ib, f, e, vertexCount)
    ensures Strip(w, ib, vertexCount, i, odd) == Defined(ib[f..e])
    decreases e - f
  {
    if f == e {
      StripDone(w, ib, vertexCount, i, odd);
    } else {
      CleanWithin(ib, f, e, f, f + 3, vertexCount);
      CleanWithin(ib, f, e, f + 3, e, vertexCount);
      ListClean(w, ib, vertexCount, i, odd, f);
      ListFrom(w, ib, vertexCount, i + 3, odd + 1, f + 3, e);
      DefinedSplit(ib, f, e);
    }
  }

  /** A triangle list (type 3) whose slice is clean and a whole number of
      faces is emitted as the slice itself. */
  lemma ListIsSlice(p: Part, ib: seq<U16>, vertexCount: Option<nat>)
    requires p.primitiveType == 3 && p.indexCount >= 0 && p.indexCount % 3 == 0
    requires Clean(ib, p.startIndex, p.startIndex + p.indexCount, vertexCount)
    ensures Triangles(p, ib, vertexCount) == Defined(ib[p.startIndex .. p.startIndex + p.indexCount])
  {
    ListFrom(WalkOf(p), ib, vertexCount, 0, 0, p.startIndex, p.startIndex + p.indexCount);
  }

  /** A strip read from face `f` on, `n` faces, the winding alternating from `swapped`. */
  function StripReference(ib: seq<U16>, f: nat, n: nat, swapped: bool): (r: seq<Option<nat>>)
    requires f + n + 2 <= |ib|
    ensures |r| == 3 * n
    decreases n
  {
    if n == 0 then [] else Wound(ib, f, swapped) + StripReference(ib, f + 1, n - 1, !swapped)
  }

  lemma StripReferenceStep(ib: seq<U16>, f: nat, n: nat, swapped: bool)
    requires f + n + 2 <= |ib| && n > 0
    ensures StripReference(ib, f, n, swapped) == Wound(ib, f, swapped) + StripReference(ib, f + 1, n - 1, !swapped)
  {
  }

  /** The winding `k` faces after one wound by `swapped`. */
  function Alternate(swapped: bool, k: nat): bool
    decreases k
  {
    if k == 0 then swapped else Alternate(!swapped, k - 1)
  }

  /** Starting unswapped, the odd faces are swapped. */
  lemma {:induction false} AlternateParity(swapped: bool, k: nat)
    ensures Alternate(swapped, k) == (swapped != (k % 2 == 1))
    decreases k
  {
    if k > 0 {
      AlternateParity(!swapped, k - 1);
    }
  }

  lemma ParityStep(odd: nat)
    ensures ((odd + 1) % 2 == 1) == !(odd % 2 == 1)
  {
  }

  /** A slice lying past `a` in `a + b` is a slice of `b`. */
  lemma SliceAfter(a: seq<Option<nat>>, b: seq<Option<nat>>, lo: int, hi: int)
    requires |a| <= lo <= hi <= |a| + |b|
    ensures (a + b)[lo..hi] == b[lo - |a|..hi - |a|]
  {
  }

  /** Face k of the reference strip is corners k, k+1, k+2, wound `k` alternations on. */
  lemma {:induction false} StripReferenceFaces(ib: seq<U16>, f: nat, n: nat, swapped: bool, k: nat)
    requires f + n + 2 <= |ib| && k < n
    ensures StripReference(ib, f, n, swapped)[3 * k .. 3 * k + 3] == Wound(ib, f + k, Alternate(swapped, k))
    decreases k
  {
    var face := Wound(ib, f, swapped);
    var rest := StripReference(ib, f + 1, n - 1, !swapped);
    assert StripReference(ib, f, n, swapped) == face + rest by {
      StripReferenceStep(ib, f, n, swapped);
    }
    if k > 0 {
      assert rest[3 * (k - 1) .. 3 * (k - 1) + 3] == Wound(ib, f + k, Alternate(swapped, k)) by {
        StripReferenceFaces(ib, f + 1, n - 1, !swapped, k - 1);
        assert f + 1 + (k - 1) == f + k;
      }
      SliceAfter(face, rest, 3 * k, 3 * k + 3);
    } else {
      assert (face + rest)[0..3] == face;
    }
  }

  /** A clean face of a strip pushes its three corners, wound by the counter, and the strip goes on. */
  lemma StripClean(w: Walk, ib: seq<U16>, vertexCount: Option<nat>, i: int, odd: nat, f: nat)
    requires w.primitiveType == 5 && w.step == 1 && f == w.start + i && i < w.count
    requires Clean(ib, f, f + 3, vertexCount)
    ensures Strip(w, ib, vertexCount, i, odd) == Wound(ib, f, odd % 2 == 1) + Strip(w, ib, vertexCount, i + 1, odd + 1)
  {
    var swapped := Swapped(w.primitiveType, odd);
    assert swapped == (odd % 2 == 1);
    StripFace(w, ib, vertexCount, i, odd);
    CleanFace(ib, f, swapped, vertexCount);
  }

  /** One clean face extends the match between the strip and the reference strip. */
  lemma StripToReference(w: Walk, ib: seq<U16>, vertexCount: Option<nat>, i: int, odd: nat, f: nat, n: nat)
    requires w.primitiveType == 5 && w.step == 1 && f == w.start + i && n == w.count - i && n > 0
    requires Clean(ib, f, f + n + 2, vertexCount)
    requires Strip(w, ib, vertexCount, i + 1, odd + 1) == StripReference(ib, f + 1, n - 1, (odd + 1) % 2 == 1)
    ensures Strip(w, ib, vertexCount, i, odd) == StripReference(ib, f, n, odd % 2 == 1)
  {
    CleanWithin(ib, f, f + n + 2, f, f + 3, vertexCount);
    StripClean(w, ib, vertexCount, i, odd, f);
    ParityStep(odd);
    StripReferenceStep(ib, f, n, odd % 2 == 1);
  }

  /** From face `f` on, `n` faces before the end, a clean strip is the reference strip. */
  lemma {:induction false} StripFrom(w: Walk, ib: seq<U16>, vertexCount: Option<nat>, i: int, odd: nat, f: nat, n: nat)
    requires w.primitiveType == 5 && w.step == 1 && f == w.start + i && n == w.count - i
    requires Clean(ib, f, f + n + 2, vertexCount)
    ensures Strip(w, ib, vertexCount, i, odd) == StripReference(ib, f, n, odd % 2 == 1)
    decreases n
  {
    if n == 0 {
      StripDone(w, ib, vertexCount, i, odd);
    } else {
      assert Strip(w, ib, vertexCount, i + 1, odd + 1) == StripReference(ib, f + 1, n - 1, (odd + 1) % 2 == 1) by {
        CleanWithin(ib, f, f + n + 2, f + 1, f + 1 + (n - 1) + 2, vertexCount);
        StripFrom(w, ib, vertexCount, i + 1, odd + 1, f + 1, n - 1);
      }
      assert Strip(w, ib, vertexCount, i, odd) == StripReference(ib, f, n, odd % 2 == 1) by {
        StripToReference(w, ib, vertexCount, i, odd, f, n);
      }
    }
  }

  /** A clean triangle strip (type 5) emits `indexCount - 2` faces; face k is
      corners k, k+1, k+2 of the slice, with corners 0 and 1 swapped on odd faces. */
  lemma StripWinding(p: Part, ib: seq<U16>, vertexCount: Option<nat>)
    requires p.primitiveType == 5 && p.startIndex >= 0 && p.indexCount >= 2
    requires Clean(ib, p.startIndex, p.startIndex + p.indexCount, vertexCount)
    ensures |Triangles(p, ib, vertexCount)| == 3 * (p.indexCount - 2)
    ensures forall k :: 0 <= k < p.indexCount - 2 ==>
      Triangles(p, ib, vertexCount)[3 * k .. 3 * k + 3] == Wound(ib, p.startIndex + k, k % 2 == 1)
  {
    var n := p.indexCount - 2;
    StripFrom(WalkOf(p), ib, vertexCount, 0, 0, p.startIndex, n);
    var r := StripReference(ib, p.startIndex, n, false);
    assert Triangles(p, ib, vertexCount) == r;
    forall k | 0 <= k < n
      ensures r[3 * k .. 3 * k + 3] == Wound(ib, p.startIndex + k, k % 2 == 1)
    {
      StripReferenceFaces(ib, p.startIndex, n, false, k);
      AlternateParity(false, k);
    }
  }

  /** The first index out of range ends the part inside its face: the corners
      pushed before it stay, so the list need not be whole faces. */
  lemma MissingVertexKeepsPartialFace()
    ensures Triangles(Part(0, 3, 3), [0, 5, 1], Some(2)) == [Some(0)]
    ensures |Triangles(Part(0, 3, 3), [0, 5, 1], Some(2))| % 3 != 0
  {
    var w := WalkOf(Part(0, 3, 3));
    var ib: seq<U16> := [0, 5, 1];
    assert !Restarts(ib, 0);
    StripFace(w, ib, Some(2), 0, 0);
  }

  /** A strip with a restart value in its middle. */
  const RestartExample: seq<U16> := [0, 1, 2, 65535, 3, 4, 5]

  /** After the restart the face (3, 4, 5) is pushed alone, wound (0, 1, 2). */
  lemma RestartExampleTail()
    ensures Strip(Walk(0, 5, 1, 5), RestartExample, Some(6), 1, 1) == [Some(3), Some(4), Some(5)]
  {
    var w, ib, vc := Walk(0, 5, 1, 5), RestartExample, Some(6);
    StripFace(w, ib, vc, 4, 0);
    assert Face(ib, 4, false, vc) == FaceResult([Some(3), Some(4), Some(5)], false);
    StripDone(w, ib, vc, 5, 1);
    StripRestart(w, ib, vc, 3, 0);
    StripRestart(w, ib, vc, 2, 0);
    StripRestart(w, ib, vc, 1, 1);
  }

  /** A restart resets the winding: in 0 1 2 65535 3 4 5 the face (3, 4, 5)
      after the restart is wound (0, 1, 2) although one face came before. */
  lemma RestartResetsWinding()
    ensures Triangles(Part(0, 7, 5), RestartExample, Some(6))
      == [Some(0), Some(1), Some(2), Some(3), Some(4), Some(5)]
  {
    var w, ib, vc := Walk(0, 5, 1, 5), RestartExample, Some(6);
    assert WalkOf(Part(0, 7, 5)) == w;
    RestartExampleTail();
    StripFace(w, ib, vc, 0, 0);
    assert Face(ib, 0, false, vc) == FaceResult([Some(0), Some(1), Some(2)], false);
  }

  lemma Associative(a: seq<Option<nat>>, b: seq<Option<nat>>, c: seq<Option<nat>>)
    ensures (a + b) + c == a + (b + c)
  {
  }

  /** The loop has run out. */
  lemma StripDone(w: Walk, ib: seq<U16>, vertexCount: Option<nat>, i: int, odd: nat)
    requires w.step > 0 && i >= w.count
    ensures Strip(w, ib, vertexCount, i, odd) == []
  {
  }

  /** The part's index list, as the builder's loops compute it. */
  method PartIndices(p: Part, ib: seq<U16>, vertexCount: Option<nat>) returns (indices: seq<U16>)
    ensures indices == ToUint16(Triangles(p, ib, vertexCount))
  {
    var count := p.indexCount;
    var increment := 3;
    if p.primitiveType == 5 {
      increment := 1;
      count := count - 2;
    }
    var walk := Walk(p.startIndex, count, increment, p.primitiveType);
    ghost var total := Triangles(p, ib, vertexCount);
    assert walk == WalkOf(p);
    var indexBufferPerPart: seq<Option<nat>> := [];
    var oddEvenControl: nat := 0;
    var i := 0;
    while i < count
      invariant indexBufferPerPart + Strip(walk, ib, vertexCount, i, oddEvenControl) == total
      decreases if i < count then count - i else 0
    {
      var pushed;
      ghost var before := indexBufferPerPart;
      pushed, i, oddEvenControl := FaceStep(walk, ib, vertexCount, i, oddEvenControl);
      indexBufferPerPart := indexBufferPerPart + pushed;
      Associative(before, pushed, Strip(walk, ib, vertexCount, i, oddEvenControl));
    }
    StripDone(walk, ib, vertexCount, i, oddEvenControl);
    indices := ToUint16(indexBufferPerPart);
  }
}
