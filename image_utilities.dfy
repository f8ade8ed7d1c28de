/** `imageUtilities`: raw RGBA images (four bytes per pixel, row after row),
    the blit that copies one image into another row by row, and the format
    dispatch in front of the PNG and JPEG decoders. */
module ImageUtilities {
  import opened Wrappers
  import opened Bytes
  import opened HelperFunctions

  /** `{ width, height, data }` with `data` a `Uint8Array` of RGBA components. */
  datatype RawImage = RawImage(width: int, height: int, data: array<Byte>)

  /** `createEmptyImage(width, height)`: a fully black, transparent image of
      `width * height * 4` zero bytes; a negative length is an invalid
      typed-array length. */
  method CreateEmptyImage(width: int, height: int) returns (r: Result<RawImage>)
    ensures r.Failure? <==> width * height * 4 < 0
    ensures r.Failure? ==> r.error == RangeError
    ensures r.Success? ==> fresh(r.value.data) && r.value.width == width && r.value.height == height
    ensures r.Success? ==> r.value.data[..] == Blank(width * height * 4)
  {
    var length := width * height * 4;
    if length < 0 {
      return Failure(RangeError);
    }
    var data := new Byte[length](_ => 0);
    assert data[..] == Blank(length);
    return Success(RawImage(width, height, data));
  }

  /** `length` zero bytes. */
  function Blank(length: nat): (s: seq<Byte>)
    ensures |s| == length && forall k | 0 <= k < length :: s[k] == 0
  {
    seq(length, _ => 0)
  }

  // ----- TypedArray subarray and set -----

  /** A `subarray` bound: a negative bound counts from the end, and both
      ends are clamped to the array. */
  function Clamp(x: int, length: nat): (c: nat)
    ensures c <= length
    ensures 0 <= x <= length ==> c == x
  {
    if x < 0 then (if length + x < 0 then 0 else length + x) else if x > length then length else x
  }

  /** `data.subarray(begin, end)`, read as the bytes it views. */
  function Subarray(data: seq<Byte>, begin: int, end: int): (r: seq<Byte>)
    ensures |r| <= |data|
    ensures 0 <= begin <= end <= |data| ==> r == data[begin..end]
    ensures |r| == SubLength(|data|, begin, end)
  {
    var b := Clamp(begin, |data|);
    seq(SubLength(|data|, begin, end), k requires 0 <= k < SubLength(|data|, begin, end) => data[b + k])
  }

  /** The length of `subarray(begin, end)` of an array of `length` bytes. */
  function SubLength(length: nat, begin: int, end: int): nat {
    var b, e := Clamp(begin, length), Clamp(end, length);
    if e <= b then 0 else e - b
  }

  /** `target.set(source, offset)` as a value: a negative offset, or an
      offset that leaves too little room for the source, is a RangeError
      and writes nothing. */
  function Set(target: seq<Byte>, source: seq<Byte>, offset: int): (r: Result<seq<Byte>>)
    ensures r.Failure? <==> offset < 0 || offset + |source| > |target|
    ensures r.Failure? ==> r.error == RangeError
    ensures r.Success? ==> |r.value| == |target|
  {
    if offset < 0 || offset + |source| > |target| then Failure(RangeError)
    else Success(seq(|target|, j requires 0 <= j < |target| =>
                   if offset <= j < offset + |source| then source[j - offset] else target[j]))
  }

  /** A successful `set` puts the source at the offset and keeps every other byte. */
  lemma SetMeaning(target: seq<Byte>, source: seq<Byte>, offset: int)
    requires Set(target, source, offset).Success?
    ensures forall k | 0 <= k < |source| :: Set(target, source, offset).value[offset + k] == source[k]
    ensures forall j | 0 <= j < |target| && !(offset <= j < offset + |source|) ::
              Set(target, source, offset).value[j] == target[j]
  {
    var r := Set(target, source, offset).value;
    assert forall k | 0 <= k < |source| :: r[offset + k] == source[k];
  }

  /** `target.set(source, offset)` on the receiving buffer. */
  method SetBytes(target: array<Byte>, source: seq<Byte>, offset: int) returns (err: Option<Error>)
    modifies target
    ensures Outcome(Set(old(target[..]), source, offset), err, target[..])
    ensures err.Some? ==> target[..] == old(target[..])
  {
    if offset < 0 || offset + |source| > target.Length {
      return Some(RangeError);
    }
    ghost var before := target[..];
    for k := 0 to |source|
      invariant forall j | 0 <= j < k :: target[offset + j] == source[j]
      invariant forall j | 0 <= j < target.Length && !(offset <= j < offset + k) :: target[j] == before[j]
    {
      target[offset + k] := source[k];
    }
    var written := Set(before, source, offset).value;
    SetMeaning(before, source, offset);
    assert forall j | 0 <= j < target.Length :: target[j] == written[j];
    assert target[..] == written;
    return None;
  }

  // ----- insertImage -----

  /** The four numbers the blit reads, in pixels. */
  datatype Placement = Placement(inputWidth: int, inputHeight: int, receiverWidth: int, xOffset: int, yOffset: int)

  /** `a * w`, written as repeated addition so that the offsets below stay
      linear for the verifier; `ScaledProduct` proves it is the product. */
  function Scaled(a: int, w: int): int
    decreases if a < 0 then -a else a
  {
    if a == 0 then 0 else if a > 0 then Scaled(a - 1, w) + w else Scaled(a + 1, w) - w
  }

  lemma {:induction false} ScaledProduct(a: int, w: int)
    ensures Scaled(a, w) == a * w
    decreases if a < 0 then -a else a
  {
    if a > 0 {
      ScaledProduct(a - 1, w);
    } else if a < 0 {
      ScaledProduct(a + 1, w);
    }
  }

  /** `inputStart` of row `i`. */
  function SourceStart(g: Placement, i: int): int {
    Scaled(i, g.inputWidth * 4)
  }

  function SourceEnd(g: Placement, i: int): int {
    SourceStart(g, i) + g.inputWidth * 4
  }

  /** `receiverStart` of row `i`. */
  function TargetStart(g: Placement, i: int): int {
    Scaled(g.yOffset + i, g.receiverWidth * 4) + g.xOffset * 4
  }

  /** How many rows the loop runs. */
  function Rows(g: Placement): nat {
    if g.inputHeight < 0 then 0 else g.inputHeight
  }

  /** The receiver's bytes after the rows copied so far, and the exception
      that ended the loop, if one did. */
  datatype Progress = Progress(data: seq<Byte>, error: Option<Error>)

  /** Row `i` copied from `source` into `data`. */
  function CopyRow(data: seq<Byte>, source: seq<Byte>, g: Placement, i: nat): (p: Progress)
    ensures |p.data| == |data|
  {
    match Set(data, Subarray(source, SourceStart(g, i), SourceEnd(g, i)), TargetStart(g, i))
    case Success(d) => Progress(d, None)
    case Failure(e) => Progress(data, Some(e))
  }

  /** The first `n` rows of the blit. */
  function RowsCopied(receiver: seq<Byte>, input: seq<Byte>, aliased: bool, g: Placement, n: nat): (p: Progress)
    ensures |p.data| == |receiver|
    decreases n, 0
  {
    if n == 0 then Progress(receiver, None) else RowCopied(receiver, input, aliased, g, n - 1)
  }

  /** Row `i` copied after the rows before it, unless one of those raised.
      When the receiver and the input share their buffer (`aliased`), the
      row is read from the bytes as the earlier rows left them. */
  function RowCopied(receiver: seq<Byte>, input: seq<Byte>, aliased: bool, g: Placement, i: nat): (p: Progress)
    ensures |p.data| == |receiver|
    decreases i, 1
  {
    var prev := RowsCopied(receiver, input, aliased, g, i);
    if prev.error.Some? then prev
    else CopyRow(prev.data, if aliased then prev.data else input, g, i)
  }

  /** `insertImage` as a value. */
  function Inserted(receiver: seq<Byte>, input: seq<Byte>, aliased: bool, g: Placement): Progress {
    RowsCopied(receiver, input, aliased, g, Rows(g))
  }

  function PlacementOf(receiver: RawImage, input: RawImage, xOffset: int, yOffset: int): Placement {
    Placement(input.width, input.height, receiver.width, xOffset, yOffset)
  }

  /** `insertImage(receiverPng, inputPng, xOffset, yOffset)`: the rows written
      before an out-of-range row stay written. */
  method InsertImage(receiver: RawImage, input: RawImage, xOffset: int, yOffset: int) returns (err: Option<Error>)
    modifies receiver.data
    ensures Progress(receiver.data[..], err)
            == Inserted(old(receiver.data[..]), old(input.data[..]), receiver.data == input.data,
                        PlacementOf(receiver, input, xOffset, yOffset))
    ensures receiver.data != input.data ==> input.data[..] == old(input.data[..])
  {
    var inputWidth := input.width * 4;
    var receiverWidth := receiver.width * 4;
    var x := xOffset * 4;
    ghost var g := PlacementOf(receiver, input, xOffset, yOffset);
    ghost var aliased := receiver.data == input.data;
    ghost var receiver0, input0 := receiver.data[..], input.data[..];
    var i := 0;
    while i < input.height
      invariant 0 <= i <= Rows(g)
      invariant RowsCopied(receiver0, input0, aliased, g, i) == Progress(receiver.data[..], None)
      invariant !aliased ==> input.data[..] == input0
    {
      ghost var before, source := receiver.data[..], input.data[..];
      err := CopyRowInto(receiver.data, input.data, g, i, inputWidth, receiverWidth, x, yOffset);
      assert RowsCopied(receiver0, input0, aliased, g, i + 1) == Progress(receiver.data[..], err) by {
        NextRow(receiver0, input0, aliased, g, i, before, source, Progress(receiver.data[..], err));
      }
      if err.Some? {
        assert Inserted(receiver0, input0, aliased, g) == Progress(receiver.data[..], err) by {
          ErrorPersists(receiver0, input0, aliased, g, i + 1, Rows(g));
        }
        return;
      }
      i := i + 1;
    }
    assert Inserted(receiver0, input0, aliased, g) == Progress(receiver.data[..], None);
    return None;
  }

  /** One pass of the loop: `receiverData.set(inputData.subarray(inputStart,
      inputStart + inputWidth), receiverStart)`. The subarray is a view of
      the input, which `set` reads in full before it writes. */
  method CopyRowInto(target: array<Byte>, source: array<Byte>, ghost g: Placement, i: nat,
                     inputWidth: int, receiverWidth: int, x: int, yOffset: int) returns (err: Option<Error>)
    requires inputWidth == g.inputWidth * 4 && receiverWidth == g.receiverWidth * 4
    requires x == g.xOffset * 4 && yOffset == g.yOffset
    modifies target
    ensures Progress(target[..], err) == CopyRow(old(target[..]), old(source[..]), g, i)
  {
    var inputStart := i * inputWidth;
    var receiverStart := (yOffset + i) * receiverWidth + x;
    var row := Subarray(source[..], inputStart, inputStart + inputWidth);
    assert row == Subarray(source[..], SourceStart(g, i), SourceEnd(g, i)) && receiverStart == TargetStart(g, i) by {
      ScaledProduct(i, inputWidth);
      ScaledProduct(yOffset + i, receiverWidth);
    }
    err := SetBytes(target, row, receiverStart);
  }

  /** The step from `i` rows to `i + 1` when none has raised. */
  lemma NextRow(receiver: seq<Byte>, input: seq<Byte>, aliased: bool, g: Placement, i: nat,
                data: seq<Byte>, source: seq<Byte>, next: Progress)
    requires RowsCopied(receiver, input, aliased, g, i) == Progress(data, None)
    requires source == if aliased then data else input
    requires next == CopyRow(data, source, g, i)
    ensures RowsCopied(receiver, input, aliased, g, i + 1) == next
  {
    assert RowsCopied(receiver, input, aliased, g, i + 1) == RowCopied(receiver, input, aliased, g, i);
  }

  /** Once a row has raised, later rows change nothing. */
  lemma {:induction false} ErrorPersists(receiver: seq<Byte>, input: seq<Byte>, aliased: bool, g: Placement, m: nat, n: nat)
    requires m <= n && RowsCopied(receiver, input, aliased, g, m).error.Some?
    ensures RowsCopied(receiver, input, aliased, g, n) == RowsCopied(receiver, input, aliased, g, m)
    decreases n
  {
    if n > m {
      ErrorPersists(receiver, input, aliased, g, m, n - 1);
    }
  }

  /** Row `i` fits the receiver: `set` raises no RangeError. */
  predicate Fits(g: Placement, sourceLength: nat, targetLength: nat, i: nat) {
    var len := SubLength(sourceLength, SourceStart(g, i), SourceEnd(g, i));
    0 <= TargetStart(g, i) && TargetStart(g, i) + len <= targetLength
  }

  /** The span row `i` writes covers position `j`. */
  predicate Covers(g: Placement, sourceLength: nat, i: nat, j: int) {
    var len := SubLength(sourceLength, SourceStart(g, i), SourceEnd(g, i));
    TargetStart(g, i) <= j < TargetStart(g, i) + len
  }

  /** Rows `0` to `n - 1` all fit. */
  predicate AllFit(g: Placement, sourceLength: nat, targetLength: nat, n: nat) {
    forall i | 0 <= i < n :: Fits(g, sourceLength, targetLength, i)
  }

  lemma AllFitStep(g: Placement, sourceLength: nat, targetLength: nat, n: nat)
    requires n > 0
    ensures AllFit(g, sourceLength, targetLength, n)
            <==> AllFit(g, sourceLength, targetLength, n - 1) && Fits(g, sourceLength, targetLength, n - 1)
  {
  }

  /** What copying one row does, in terms of its span. */
  lemma CopyRowFacts(data: seq<Byte>, source: seq<Byte>, g: Placement, i: nat)
    ensures CopyRow(data, source, g, i).error.None? <==> Fits(g, |source|, |data|, i)
    ensures CopyRow(data, source, g, i).error.Some? ==>
              CopyRow(data, source, g, i) == Progress(data, Some(RangeError))
    ensures forall j | 0 <= j < |data| && !Covers(g, |source|, i, j) :: CopyRow(data, source, g, i).data[j] == data[j]
  {
    var row := Subarray(source, SourceStart(g, i), SourceEnd(g, i));
    if Set(data, row, TargetStart(g, i)).Success? {
      SetMeaning(data, row, TargetStart(g, i));
    }
  }

  lemma CopyRowKeeps(data: seq<Byte>, source: seq<Byte>, g: Placement, i: nat, j: int)
    requires 0 <= j < |data| && !Covers(g, |source|, i, j)
    ensures CopyRow(data, source, g, i).data[j] == data[j]
  {
    var row := Subarray(source, SourceStart(g, i), SourceEnd(g, i));
    if Set(data, row, TargetStart(g, i)).Success? {
      SetMeaning(data, row, TargetStart(g, i));
    }
  }

  lemma CopyRowLands(data: seq<Byte>, source: seq<Byte>, g: Placement, i: nat, k: nat)
    requires 0 <= SourceStart(g, i) && SourceEnd(g, i) <= |source| && k < g.inputWidth * 4
    requires Fits(g, |source|, |data|, i)
    ensures 0 <= TargetStart(g, i) + k < |data|
    ensures CopyRow(data, source, g, i).data[TargetStart(g, i) + k] == source[SourceStart(g, i) + k]
  {
    var row := Subarray(source, SourceStart(g, i), SourceEnd(g, i));
    assert row == source[SourceStart(g, i)..SourceEnd(g, i)];
    SetMeaning(data, row, TargetStart(g, i));
  }

  /** The blit ends in an error exactly when one of its rows does not fit,
      and the error is a RangeError; which rows fit depends only on the lengths. */
  lemma {:induction false} RowsCopiedError(receiver: seq<Byte>, input: seq<Byte>, aliased: bool, g: Placement, n: nat, sourceLength: nat)
    requires sourceLength == if aliased then |receiver| else |input|
    ensures RowsCopied(receiver, input, aliased, g, n).error.None? <==> AllFit(g, sourceLength, |receiver|, n)
    ensures RowsCopied(receiver, input, aliased, g, n).error.Some? ==>
              RowsCopied(receiver, input, aliased, g, n).error == Some(RangeError)
    decreases n
  {
    if n > 0 {
      RowsCopiedError(receiver, input, aliased, g, n - 1, sourceLength);
      var prev := RowsCopied(receiver, input, aliased, g, n - 1);
      AllFitStep(g, sourceLength, |receiver|, n);
      if prev.error.None? {
        CopyRowFacts(prev.data, if aliased then prev.data else input, g, n - 1);
      }
    }
  }

  /** A position that rows `m` to `n - 1` do not cover keeps the value row `m` found. */
  lemma {:induction false} Untouched(receiver: seq<Byte>, input: seq<Byte>, aliased: bool, g: Placement, m: nat, n: nat, j: int, sourceLength: nat)
    requires sourceLength == if aliased then |receiver| else |input|
    requires m <= n && 0 <= j < |receiver|
    requires forall i | m <= i < n :: !Covers(g, sourceLength, i, j)
    ensures RowsCopied(receiver, input, aliased, g, n).data[j] == RowsCopied(receiver, input, aliased, g, m).data[j]
    decreases n
  {
    if n > m {
      var prev := RowsCopied(receiver, input, aliased, g, n - 1);
      assert prev.data[j] == RowsCopied(receiver, input, aliased, g, m).data[j] by {
        Untouched(receiver, input, aliased, g, m, n - 1, j, sourceLength);
      }
      assert RowsCopied(receiver, input, aliased, g, n).data[j] == prev.data[j] by {
        if prev.error.None? {
          var source := if aliased then prev.data else input;
          assert !Covers(g, |source|, n - 1, j);
          CopyRowKeeps(prev.data, source, g, n - 1, j);
        }
      }
    }
  }

  /** The receiver's bytes outside every written span are unchanged. */
  lemma OutsideUnchanged(receiver: seq<Byte>, input: seq<Byte>, aliased: bool, g: Placement, j: int, sourceLength: nat)
    requires sourceLength == if aliased then |receiver| else |input|
    requires 0 <= j < |receiver|
    requires forall i | 0 <= i < Rows(g) :: !Covers(g, sourceLength, i, j)
    ensures Inserted(receiver, input, aliased, g).data[j] == receiver[j]
  {
    Untouched(receiver, input, aliased, g, 0, Rows(g), j, sourceLength);
  }

  /** Byte `k` of row `i` of a separate input lands at `receiverStart + k`, and
      stays there unless a later row writes over it. */
  lemma RowLands(receiver: seq<Byte>, input: seq<Byte>, g: Placement, i: nat, k: nat, j: int)
    requires i < Rows(g)
    requires 0 <= SourceStart(g, i) && SourceEnd(g, i) <= |input| && k < g.inputWidth * 4
    requires Inserted(receiver, input, false, g).error.None?
    requires j == TargetStart(g, i) + k
    requires forall i' | i < i' < Rows(g) :: !Covers(g, |input|, i', j)
    ensures 0 <= j < |receiver|
    ensures Inserted(receiver, input, false, g).data[j] == input[SourceStart(g, i) + k]
  {
    var prev := RowsCopied(receiver, input, false, g, i);
    assert prev.error.None? && Fits(g, |input|, |receiver|, i) by {
      RowsCopiedError(receiver, input, false, g, Rows(g), |input|);
      RowsCopiedError(receiver, input, false, g, i, |input|);
    }
    assert 0 <= j < |receiver| && RowsCopied(receiver, input, false, g, i + 1).data[j] == input[SourceStart(g, i) + k] by {
      CopyRowLands(prev.data, input, g, i, k);
    }
    Untouched(receiver, input, false, g, i + 1, Rows(g), j, |input|);
  }

  lemma {:induction false} ScaledMonotone(n: nat, h: nat, w: nat)
    requires n <= h
    ensures 0 <= Scaled(n, w) <= Scaled(h, w)
    decreases h
  {
    if h > n {
      ScaledMonotone(n, h - 1, w);
    } else if n > 0 {
      ScaledMonotone(n - 1, n - 1, w);
    }
  }

  /** `d` holds the input's bytes below `cut` and the receiver's from there on. */
  predicate CopiedBelow(d: seq<Byte>, input: seq<Byte>, receiver: seq<Byte>, cut: int)
    requires |input| == |receiver|
  {
    |d| == |receiver| && forall j | 0 <= j < |d| :: d[j] == if j < cut then input[j] else receiver[j]
  }

  /** Blitting an image of the receiver's own size at the origin copies it
      row by row: after `n` rows the first `n` rows are the input's. */
  lemma {:induction false} SameSizeRows(receiver: seq<Byte>, input: seq<Byte>, w: nat, h: nat, n: nat)
    requires |receiver| == |input| == Scaled(h, w * 4) && n <= h
    ensures RowsCopied(receiver, input, false, Placement(w, h, w, 0, 0), n).error.None?
    ensures CopiedBelow(RowsCopied(receiver, input, false, Placement(w, h, w, 0, 0), n).data, input, receiver, Scaled(n, w * 4))
    decreases n
  {
    if n > 0 {
      var g := Placement(w, h, w, 0, 0);
      var prev := RowsCopied(receiver, input, false, g, n - 1);
      SameSizeRows(receiver, input, w, h, n - 1);
      SameSizeRow(receiver, input, w, h, n - 1, prev.data);
      assert RowsCopied(receiver, input, false, g, n) == CopyRow(prev.data, input, g, n - 1);
    }
  }

  /** One step of `SameSizeRows`: row `i` lands on the same bytes of the receiver. */
  lemma SameSizeRow(receiver: seq<Byte>, input: seq<Byte>, w: nat, h: nat, i: nat, d: seq<Byte>)
    requires |receiver| == |input| == Scaled(h, w * 4) && i < h
    requires CopiedBelow(d, input, receiver, Scaled(i, w * 4))
    ensures CopyRow(d, input, Placement(w, h, w, 0, 0), i).error.None?
    ensures CopiedBelow(CopyRow(d, input, Placement(w, h, w, 0, 0), i).data, input, receiver, Scaled(i + 1, w * 4))
  {
    var g := Placement(w, h, w, 0, 0);
    var width := w * 4;
    var start := Scaled(i, width);
    var next := CopyRow(d, input, g, i).data;
    assert 0 <= start && start + width <= |input| by {
      ScaledMonotone(i, i, width);
      ScaledMonotone(i + 1, h, width);
    }
    assert SourceStart(g, i) == start == TargetStart(g, i);
    assert Fits(g, |input|, |d|, i);
    assert CopyRow(d, input, g, i).error.None? by {
      CopyRowFacts(d, input, g, i);
    }
    forall j | 0 <= j < |next|
      ensures next[j] == if j < Scaled(i + 1, width) then input[j] else receiver[j]
    {
      if start <= j < start + width {
        CopyRowLands(d, input, g, i, j - start);
      } else {
        CopyRowKeeps(d, input, g, i, j);
      }
    }
  }

  /** ... and so the whole image becomes the input's. */
  lemma SameSizeCopy(receiver: seq<Byte>, input: seq<Byte>, w: nat, h: nat)
    requires |receiver| == |input| == h * (w * 4)
    ensures Inserted(receiver, input, false, Placement(w, h, w, 0, 0)) == Progress(input, None)
  {
    ScaledProduct(h, w * 4);
    SameSizeRows(receiver, input, w, h, h);
    var p := Inserted(receiver, input, false, Placement(w, h, w, 0, 0));
    assert p.data == input;
  }

  /** There is no horizontal clipping: a two-pixel row placed at x = 1 in a
      two-pixel-wide receiver puts its second pixel at the start of the next row. */
  lemma RowSpills()
    ensures var receiver := Blank(16);
            var input := [1, 1, 1, 1, 2, 2, 2, 2];
            Inserted(receiver, input, false, Placement(2, 1, 2, 1, 0))
            == Progress([0, 0, 0, 0, 1, 1, 1, 1, 2, 2, 2, 2, 0, 0, 0, 0], None)
  {
    var receiver := Blank(16);
    var input: seq<Byte> := [1, 1, 1, 1, 2, 2, 2, 2];
    var g := Placement(2, 1, 2, 1, 0);
    assert Subarray(input, SourceStart(g, 0), SourceEnd(g, 0)) == input;
    var r := Set(receiver, input, 4).value;
    assert r == [0, 0, 0, 0, 1, 1, 1, 1, 2, 2, 2, 2, 0, 0, 0, 0];
  }

  /** A row that would run past the receiver's end raises a RangeError, and
      the rows before it stay written: a one-pixel image blitted one row
      below the last row of a one-pixel receiver writes nothing. */
  lemma PastTheEnd()
    ensures Inserted(Blank(4), [9, 9, 9, 9], false, Placement(1, 1, 1, 0, 1))
            == Progress(Blank(4), Some(RangeError))
  {
    var g := Placement(1, 1, 1, 0, 1);
    assert TargetStart(g, 0) == 4;
  }

  // ----- imageBytesToPNG -----

  /** Decoded pixels: `{ width, height, data }`. */
  datatype Pixels = Pixels(width: nat, height: nat, data: seq<Byte>)

  /** The decoders `imageBytesToPNG` calls, which the model does not look
      into: `UPNG.decode`, the first frame of `UPNG.toRGBA8`, and `jpeg.decode`.
      Each may raise its own exception. */
  datatype Decoders = Decoders(
    decodePng: seq<Byte> -> Result<Pixels>,
    firstRgbaFrame: Pixels -> seq<Byte>,
    decodeJpeg: seq<Byte> -> Result<Pixels>)

  /** The signature test on the first bytes; a byte past the end is undefined. */
  predicate IsPng(bytes: seq<Byte>) {
    |bytes| >= 4 && bytes[0] == 0x89 && bytes[1] == 0x50 && bytes[2] == 0x4E && bytes[3] == 0x47
  }

  predicate IsJpeg(bytes: seq<Byte>) {
    |bytes| >= 2 && bytes[0] == 0xFF && bytes[1] == 0xD8
  }

  /** `data.length / height / width < 4`: fewer than four components a pixel.
      With a zero dimension the quotient is NaN or Infinity and the test fails. */
  predicate FewerThanFour(p: Pixels) {
    p.height > 0 && p.width > 0 && |p.data| < 4 * p.height * p.width
  }

  /** `imageBytesToPNG(imageBytes)`. */
  function ImageBytesToPng(bytes: seq<Byte>, d: Decoders): (r: Result<Pixels>)
    ensures IsPng(bytes) && d.decodePng(bytes).Failure? ==> r == d.decodePng(bytes)
    ensures IsPng(bytes) && d.decodePng(bytes).Success? ==>
              var p := d.decodePng(bytes).value;
              r == Success(Pixels(p.width, p.height, if FewerThanFour(p) then d.firstRgbaFrame(p) else p.data))
    ensures !IsPng(bytes) && IsJpeg(bytes) ==> r == d.decodeJpeg(bytes)
    ensures !IsPng(bytes) && !IsJpeg(bytes) ==> r == Failure(Thrown("Unsupported image format"))
  {
    if IsPng(bytes) then
      match d.decodePng(bytes)
      case Failure(e) => Failure(e)
      case Success(p) =>
        var data := if FewerThanFour(p) then d.firstRgbaFrame(p) else p.data;
        Success(Pixels(p.width, p.height, data))
    else if IsJpeg(bytes) then
      d.decodeJpeg(bytes)
    else
      Failure(Thrown("Unsupported image format"))
  }

  /** The dispatch agrees with `detectImageMimeType` on PNG, and accepts every
      JPEG the helper recognises; it also takes FF D8 followed by any third
      byte, which the helper reports as octet-stream. */
  lemma DispatchAgreesWithMimeType(bytes: seq<Byte>)
    ensures IsPng(bytes) <==> DetectImageMimeType(bytes) == "image/png"
    ensures DetectImageMimeType(bytes) == "image/jpeg" ==> !IsPng(bytes) && IsJpeg(bytes)
    ensures !IsPng(bytes) && IsJpeg(bytes) && DetectImageMimeType(bytes) != "image/jpeg" ==>
              |bytes| == 2 || bytes[2] != 0xFF
  {
    if |bytes| >= 4 {
      assert bytes[..4] == [bytes[0], bytes[1], bytes[2], bytes[3]];
    }
    if |bytes| >= 3 {
      assert bytes[..3] == [bytes[0], bytes[1], bytes[2]];
    }
  }

  lemma JpegWithoutThirdMarker()
    ensures IsJpeg([0xFF, 0xD8, 0x00]) && !IsPng([0xFF, 0xD8, 0x00])
    ensures DetectImageMimeType([0xFF, 0xD8, 0x00]) == "application/octet-stream"
  {
    DispatchAgreesWithMimeType([0xFF, 0xD8, 0x00]);
  }
}
