/** `parseTCHCHeader`: a TCHC container starts with the four characters
    "TCHC", the little-endian u32 version and region count, and a 64-byte
    container name, followed by one 88-byte record per region (a 64-byte name
    and six u32 values). The header is read through a DataView with a running
    offset; a read past the end of the buffer is a RangeError. Names are
    decoded by the platform's UTF-8 TextDecoder, which the model takes as a
    parameter. */
module ParseTchc {
  import opened Wrappers
  import opened Bytes

  const HeaderSize := 76
  const RegionNameSize := 64
  const RegionSize := 88

  /** The characters the regular expression `.` does not match. */
  predicate LineTerminator(c: char) {
    c == '\n' || c == '\r' || c == '\U{2028}' || c == '\U{2029}'
  }

  /** `s[i..]` holds no line terminator. */
  predicate NoLineTerminatorFrom(s: string, i: nat)
    requires i <= |s|
  {
    forall j | i <= j < |s| :: !LineTerminator(s[j])
  }

  /** Where `/\0.*$/` matches first: the first NUL from `i` after which the
      string has no line terminator. */
  function MatchFrom(s: string, i: nat): (m: Option<nat>)
    requires i <= |s|
    ensures m.Some? ==> i <= m.value < |s| && s[m.value] == '\0' && NoLineTerminatorFrom(s, m.value)
    ensures forall j | i <= j < |s| && (m.None? || j < m.value) :: !(s[j] == '\0' && NoLineTerminatorFrom(s, j))
    decreases |s| - i
  {
    if i == |s| then None
    else if s[i] == '\0' && NoLineTerminatorFrom(s, i) then Some(i)
    else MatchFrom(s, i + 1)
  }

  /** `s.replace(/\0.*$/, '')`. */
  function CutAtNul(s: string): (r: string)
    ensures |r| <= |s| && r == s[..|r|]
  {
    match MatchFrom(s, 0)
    case None => s
    case Some(p) => s[..p]
  }

  /** In a name without line terminators, everything from the first NUL on is removed. */
  lemma CutAtFirstNul(s: string, p: nat)
    requires forall j | 0 <= j < |s| :: !LineTerminator(s[j])
    requires p <= |s| && '\0' !in s[..p] && (p < |s| ==> s[p] == '\0')
    ensures CutAtNul(s) == s[..p]
  {
    if p < |s| {
      assert NoLineTerminatorFrom(s, p);
      forall j | 0 <= j < p
        ensures s[j] != '\0'
      {
        assert s[..p][j] == s[j];
      }
    } else {
      assert s[..p] == s;
      forall j | 0 <= j < |s|
        ensures s[j] != '\0'
      {
        assert s[..p][j] == s[j];
      }
    }
  }

  /** A line terminator after a NUL stops the match there: "a\0\nb" is kept
      whole, and "a\0\nb\0c" loses only its last NUL and what follows. */
  lemma LineTerminatorStopsCut()
    ensures CutAtNul("a\0\nb") == "a\0\nb"
    ensures CutAtNul("a\0\nb\0c") == "a\0\nb"
  {
    var s := "a\0\nb";
    assert LineTerminator(s[2]) && !NoLineTerminatorFrom(s, 1);
    var t := "a\0\nb\0c";
    assert LineTerminator(t[2]) && !NoLineTerminatorFrom(t, 1);
    assert NoLineTerminatorFrom(t, 4);
  }

  datatype Region = Region(name: string, vertexOffset: nat, vertexSize: nat, indexOffset: nat,
                           indexSize: nat, vertexCount: nat, indexCount: nat)

  /** The object `parseTCHCHeader` returns: `{}` for a buffer that is not a
      TCHC container, else the header and the buffer itself. */
  datatype Header =
    | NotTchc
    | Header(version: nat, containerName: string, regions: map<string, Region>, buffer: seq<Byte>)

  /** Record `i` starts here. */
  function RecordAt(i: nat): nat {
    HeaderSize + i * RegionSize
  }

  /** A region record at `at`: the name cut at its NUL, then six u32 values. */
  function ReadRegion(b: seq<Byte>, decode: seq<Byte> -> string, at: nat): (r: Result<Region>)
    ensures r.Success? <==> at + RegionSize <= |b|
    ensures r.Failure? ==> r.error == RangeError
  {
    if at + RegionSize > |b| then Failure(RangeError)
    else Success(Region(CutAtNul(decode(b[at..at + RegionNameSize])),
      U32(b, at + 64), U32(b, at + 68), U32(b, at + 72), U32(b, at + 76), U32(b, at + 80), U32(b, at + 84)))
  }

  /** The regions dictionary after the first `n` records. */
  function Regions(b: seq<Byte>, decode: seq<Byte> -> string, n: nat): Result<map<string, Region>> {
    if n == 0 then Success(map[])
    else match Regions(b, decode, n - 1)
      case Failure(e) => Failure(e)
      case Success(m) =>
        match ReadRegion(b, decode, RecordAt(n - 1))
        case Failure(e) => Failure(e)
        case Success(r) => Success(m[r.name := r])
  }

  /** `parseTCHCHeader(buffer)` as a value. */
  function Parsed(b: seq<Byte>, decode: seq<Byte> -> string): Result<Header> {
    if |b| < 4 then Failure(RangeError)
    else if Latin1(b[..4]) != "TCHC" then Success(NotTchc)
    else if |b| < HeaderSize then Failure(RangeError)
    else match Regions(b, decode, U32(b, 8))
      case Failure(e) => Failure(e)
      case Success(m) => Success(Header(U32(b, 4), CutAtNul(decode(b[12..HeaderSize])), m, b))
  }

  lemma {:induction false} RegionsNoRecovery(b: seq<Byte>, decode: seq<Byte> -> string, i: nat, n: nat, e: Error)
    requires i <= n && Regions(b, decode, i) == Failure(e)
    ensures Regions(b, decode, n) == Failure(e)
    decreases n
  {
    if i < n {
      RegionsNoRecovery(b, decode, i, n - 1, e);
    }
  }

  /** `parseTCHCHeader`, with its running offset. */
  method ParseTchcHeader(b: seq<Byte>, decode: seq<Byte> -> string) returns (r: Result<Header>)
    ensures r == Parsed(b, decode)
  {
    var offset := 0;
    if |b| < 4 {
      return Failure(RangeError);
    }
    var magic := Latin1(b[offset..offset + 4]);
    offset := offset + 4;
    assert b[..4] == b[0..4];
    if magic != "TCHC" {
      return Success(NotTchc);
    }
    if |b| < offset + 4 {
      return Failure(RangeError);
    }
    var version := U32(b, offset);
    offset := offset + 4;
    if |b| < offset + 4 {
      return Failure(RangeError);
    }
    var regionCount := U32(b, offset);
    offset := offset + 4;
    if |b| < offset + 64 {
      return Failure(RangeError);
    }
    var containerName := CutAtNul(decode(b[offset..offset + 64]));
    offset := offset + 64;
    var regions := ReadRegions(b, decode, regionCount);
    if regions.Failure? {
      return Failure(regions.error);
    }
    r := Success(Header(version, containerName, regions.value, b));
  }

  /** The region loop, its offset starting after the container name. */
  method ReadRegions(b: seq<Byte>, decode: seq<Byte> -> string, regionCount: nat) returns (r: Result<map<string, Region>>)
    ensures r == Regions(b, decode, regionCount)
  {
    var offset := HeaderSize;
    var regions: map<string, Region> := map[];
    var i := 0;
    while i < regionCount
      invariant 0 <= i <= regionCount
      invariant offset == RecordAt(i)
      invariant Regions(b, decode, i) == Success(regions)
    {
      var region, next := AddRegion(b, decode, offset);
      if region.Failure? {
        RegionsNoRecovery(b, decode, i + 1, regionCount, region.error);
        return Failure(region.error);
      }
      regions := regions[region.value.name := region.value];
      offset := next;
      i := i + 1;
    }
    r := Success(regions);
  }

  /** The body of the region loop: the record at `offset` and the offset after it. */
  method AddRegion(b: seq<Byte>, decode: seq<Byte> -> string, offset0: nat) returns (r: Result<Region>, offset: nat)
    ensures r == ReadRegion(b, decode, offset0)
    ensures offset == offset0 + RegionSize
  {
    offset := offset0;
    if |b| < offset + RegionNameSize {
      return Failure(RangeError), offset0 + RegionSize;
    }
    var regionName := CutAtNul(decode(b[offset..offset + RegionNameSize]));
    offset := offset + RegionNameSize;
    var values: seq<nat> := [];
    for k := 0 to 6
      invariant offset == offset0 + RegionNameSize + 4 * k
      invariant |values| == k
      invariant forall j | 0 <= j < k :: offset0 + RegionNameSize + 4 * j + 4 <= |b| && values[j] == U32(b, offset0 + RegionNameSize + 4 * j)
    {
      if |b| < offset + 4 {
        return Failure(RangeError), offset0 + RegionSize;
      }
      values := values + [U32(b, offset)];
      offset := offset + 4;
    }
    r := Success(Region(regionName, values[0], values[1], values[2], values[3], values[4], values[5]));
  }

  /** The first four bytes decide: anything but "TCHC" gives the empty object. */
  lemma NotTchcEmpty(b: seq<Byte>, decode: seq<Byte> -> string)
    requires |b| >= 4 && Latin1(b[..4]) != "TCHC"
    ensures Parsed(b, decode) == Success(NotTchc)
  {
  }

  /** A TCHC header: version and region count at bytes 4 and 8, the
      container name from the 64 bytes at 12, and the buffer returned
      unchanged beside the regions of the `regionCount` records. */
  lemma HeaderMeaning(b: seq<Byte>, decode: seq<Byte> -> string)
    requires |b| >= HeaderSize && Latin1(b[..4]) == "TCHC"
    ensures Parsed(b, decode).Success? <==> Regions(b, decode, U32(b, 8)).Success?
    ensures Parsed(b, decode).Success? ==>
      Parsed(b, decode) == Success(Header(U32(b, 4), CutAtNul(decode(b[12..76])), Regions(b, decode, U32(b, 8)).value, b))
  {
  }

  /** Record `k` reads a region of this name. */
  predicate NamedAt(b: seq<Byte>, decode: seq<Byte> -> string, k: nat, name: string) {
    ReadRegion(b, decode, RecordAt(k)).Success? && ReadRegion(b, decode, RecordAt(k)).value.name == name
  }

  /** All `n` records lie in the buffer. */
  lemma {:induction false} RegionsInBuffer(b: seq<Byte>, decode: seq<Byte> -> string, n: nat)
    requires Regions(b, decode, n).Success?
    ensures forall k | 0 <= k < n :: RecordAt(k) + RegionSize <= |b|
  {
    if n > 0 {
      RegionsInBuffer(b, decode, n - 1);
    }
  }

  /** The dictionary has a key for each name read and no other. */
  lemma {:induction false} RegionsKeys(b: seq<Byte>, decode: seq<Byte> -> string, n: nat)
    requires Regions(b, decode, n).Success?
    ensures forall name :: name in Regions(b, decode, n).value <==> exists k :: 0 <= k < n && NamedAt(b, decode, k, name)
  {
    if n > 0 {
      RegionsKeys(b, decode, n - 1);
      var m := Regions(b, decode, n - 1).value;
      var r := ReadRegion(b, decode, RecordAt(n - 1)).value;
      var m' := Regions(b, decode, n).value;
      assert m' == m[r.name := r];
      assert NamedAt(b, decode, n - 1, r.name);
      forall name | name in m'
        ensures exists k :: 0 <= k < n && NamedAt(b, decode, k, name)
      {
        if name != r.name {
          var k :| 0 <= k < n - 1 && NamedAt(b, decode, k, name);
        }
      }
      forall name, k | 0 <= k < n && NamedAt(b, decode, k, name)
        ensures name in m'
      {
        if k < n - 1 {
          assert name in m;
        }
      }
    }
  }

  /** There are no more keys than records. */
  lemma {:induction false} RegionsCount(b: seq<Byte>, decode: seq<Byte> -> string, n: nat)
    requires Regions(b, decode, n).Success?
    ensures |Regions(b, decode, n).value.Keys| <= n
  {
    if n > 0 {
      RegionsCount(b, decode, n - 1);
      var m := Regions(b, decode, n - 1).value;
      var r := ReadRegion(b, decode, RecordAt(n - 1)).value;
      assert Regions(b, decode, n).value.Keys == m.Keys + {r.name};
    }
  }

  /** A region is the last record of its name: later duplicates overwrite earlier ones. */
  lemma {:induction false} LastRecordWins(b: seq<Byte>, decode: seq<Byte> -> string, n: nat, k: nat, region: Region)
    requires Regions(b, decode, n).Success? && k < n
    requires ReadRegion(b, decode, RecordAt(k)) == Success(region)
    requires forall j | k < j < n :: !NamedAt(b, decode, j, region.name)
    ensures region.name in Regions(b, decode, n).value && Regions(b, decode, n).value[region.name] == region
    decreases n
  {
    if k < n - 1 {
      assert !NamedAt(b, decode, n - 1, region.name);
      LastRecordWins(b, decode, n - 1, k, region);
    }
  }
}
