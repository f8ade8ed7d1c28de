/** `parseTGX`: a TGX container is a 272-byte prologue (a 4-byte magic, the
    little-endian u32 version, directory offset and entry count, and a
    256-byte identifier) followed by a directory of 272-byte records (a
    256-byte name and the u32 offset, type and size of the entry's data) and
    the data. The magic is returned but not checked. */
module TgxContainer {
  import opened Wrappers
  import opened Bytes

  const PrologueSize := 272
  const RecordSize := 272
  const NameSize := 256

  /** `s.replace(/\0/g, '')`: every NUL character removed, wherever it is. */
  function WithoutNul(s: string): (r: string)
    ensures |r| <= |s| && '\0' !in r
  {
    if s == [] then [] else (if s[0] == '\0' then [] else [s[0]]) + WithoutNul(s[1..])
  }

  /** Removing NULs works piece by piece: the NULs inside a name go exactly like the trailing ones. */
  lemma {:induction false} WithoutNulConcat(a: string, b: string)
    ensures WithoutNul(a + b) == WithoutNul(a) + WithoutNul(b)
  {
    if a == [] {
      assert a + b == b;
    } else {
      assert (a + b)[0] == a[0] && (a + b)[1..] == a[1..] + b;
      WithoutNulConcat(a[1..], b);
    }
  }

  /** A string without NULs is kept whole. */
  lemma {:induction false} WithoutNulKeeps(s: string)
    requires '\0' !in s
    ensures WithoutNul(s) == s
  {
    if s != [] {
      WithoutNulKeeps(s[1..]);
    }
  }

  /** A NUL between two characters is removed too: "a\0b" becomes "ab". */
  lemma InnerNulRemoved()
    ensures WithoutNul("a\0b") == "ab"
  {
    WithoutNulConcat("a\0", "b");
    WithoutNulConcat("a", "\0");
  }

  datatype Prologue = Prologue(magic: string, version: nat, fileHeaderOffset: nat, fileCount: nat, fileIdentifier: string)

  /** A directory record: its name without NULs and its data's offset, type and size. */
  datatype Entry = Entry(name: string, offset: nat, kind: nat, size: nat)

  /** The object `parseTGX` returns. */
  datatype Tgx = Tgx(prologue: Prologue, entries: seq<Entry>, files: map<string, seq<Byte>>)

  /** `BufferPack.unpack("< 4s 3I 256s", array, 0)`: undefined for a buffer
      shorter than the prologue, which the destructuring then rejects. */
  function ReadPrologue(b: seq<Byte>): (r: Result<Prologue>)
    ensures r.Success? <==> |b| >= PrologueSize
    ensures r.Success? ==> (r.value.version == U32(b, 4) && r.value.fileHeaderOffset == U32(b, 8)
      && r.value.fileCount == U32(b, 12) && r.value.magic == Latin1(b[..4]))
  {
    if |b| < PrologueSize then Failure(TypeError)
    else Success(Prologue(Latin1(b[..4]), U32(b, 4), U32(b, 8), U32(b, 12), WithoutNul(Latin1(b[16..PrologueSize]))))
  }

  /** `BufferPack.unpack("< 256s 3I", array, at)`: the last 4 bytes of a
      record are padding and are not read. */
  function ReadEntry(b: seq<Byte>, at: nat): (r: Result<Entry>)
    ensures r.Success? <==> at + NameSize + 12 <= |b|
    ensures r.Success? ==> (r.value.offset == U32(b, at + 256) && r.value.kind == U32(b, at + 260)
      && r.value.size == U32(b, at + 264) && r.value.name == WithoutNul(Latin1(b[at..at + NameSize])))
  {
    if at + NameSize + 12 > |b| then Failure(TypeError)
    else Success(Entry(WithoutNul(Latin1(b[at..at + NameSize])), U32(b, at + 256), U32(b, at + 260), U32(b, at + 264)))
  }

  /** `BufferPack.unpack("< {size}A", array, offset)[0]`: the entry's bytes. */
  function EntryData(b: seq<Byte>, e: Entry): (r: Result<seq<Byte>>)
    ensures r.Success? <==> e.offset + e.size <= |b|
    ensures r.Success? ==> r.value == b[e.offset..e.offset + e.size]
  {
    if e.offset + e.size > |b| then Failure(TypeError) else Success(b[e.offset..e.offset + e.size])
  }

  /** The directory so far, with record `i` added: its entry is appended,
      and its data is filed under its name. */
  function DirectoryStep(b: seq<Byte>, at: nat, i: nat, d: (seq<Entry>, map<string, seq<Byte>>))
    : Result<(seq<Entry>, map<string, seq<Byte>>)>
  {
    match ReadEntry(b, at + i * RecordSize)
    case Failure(e) => Failure(e)
    case Success(entry) =>
      match EntryData(b, entry)
      case Failure(e) => Failure(e)
      case Success(data) => Success((d.0 + [entry], d.1[entry.name := data]))
  }

  /** The entries and files after the first `i` records of the directory at `at`. */
  function Directory(b: seq<Byte>, at: nat, i: nat): Result<(seq<Entry>, map<string, seq<Byte>>)> {
    if i == 0 then Success(([], map[]))
    else match Directory(b, at, i - 1)
      case Failure(e) => Failure(e)
      case Success(d) => DirectoryStep(b, at, i - 1, d)
  }

  /** `parseTGX(tgx)` as a value. */
  function Parsed(b: seq<Byte>): Result<Tgx> {
    match ReadPrologue(b)
    case Failure(e) => Failure(e)
    case Success(p) =>
      match Directory(b, p.fileHeaderOffset, p.fileCount)
      case Failure(e) => Failure(e)
      case Success(d) => Success(Tgx(p, d.0, d.1))
  }

  lemma {:induction false} DirectoryNoRecovery(b: seq<Byte>, at: nat, i: nat, n: nat, e: Error)
    requires i <= n && Directory(b, at, i) == Failure(e)
    ensures Directory(b, at, n) == Failure(e)
    decreases n
  {
    if i < n {
      DirectoryNoRecovery(b, at, i, n - 1, e);
    }
  }

  /** `parseTGX`: the prologue, then one directory record per loop iteration. */
  method ParseTgx(b: seq<Byte>) returns (r: Result<Tgx>)
    ensures r == Parsed(b)
  {
    var prologue := ReadPrologue(b);
    if prologue.Failure? {
      return Failure(prologue.error);
    }
    var p := prologue.value;
    var entries: seq<Entry> := [];
    var files: map<string, seq<Byte>> := map[];
    var i := 0;
    while i < p.fileCount
      invariant 0 <= i <= p.fileCount
      invariant Directory(b, p.fileHeaderOffset, i) == Success((entries, files))
    {
      var step := AddRecord(b, p.fileHeaderOffset, i, entries, files);
      if step.Failure? {
        DirectoryNoRecovery(b, p.fileHeaderOffset, i + 1, p.fileCount, step.error);
        return Failure(step.error);
      }
      entries, files := step.value.0, step.value.1;
      i := i + 1;
    }
    r := Success(Tgx(p, entries, files));
  }

  /** The body of the directory loop. */
  method AddRecord(b: seq<Byte>, fileHeaderOffset: nat, i: nat, entries: seq<Entry>, files: map<string, seq<Byte>>)
    returns (r: Result<(seq<Entry>, map<string, seq<Byte>>)>)
    ensures r == DirectoryStep(b, fileHeaderOffset, i, (entries, files))
  {
    var entryOffset := fileHeaderOffset + i * RecordSize;
    var entry := ReadEntry(b, entryOffset);
    if entry.Failure? {
      return Failure(entry.error);
    }
    var data := EntryData(b, entry.value);
    if data.Failure? {
      return Failure(data.error);
    }
    r := Success((entries + [entry.value], files[entry.value.name := data.value]));
  }

  /** The names of the entries. */
  function Names(entries: seq<Entry>): set<string> {
    set k | 0 <= k < |entries| :: entries[k].name
  }

  lemma NamesAppend(entries: seq<Entry>, e: Entry)
    ensures Names(entries + [e]) == Names(entries) + {e.name}
  {
    var es := entries + [e];
    forall x | x in Names(es)
      ensures x in Names(entries) + {e.name}
    {
      var k :| 0 <= k < |es| && es[k].name == x;
      if k < |entries| {
        assert entries[k].name == x;
      }
    }
    forall x | x in Names(entries)
      ensures x in Names(es)
    {
      var k :| 0 <= k < |entries| && entries[k].name == x;
      assert es[k].name == x;
    }
    assert es[|entries|].name == e.name;
  }

  /** Record `k` has no namesake after it. */
  predicate LastOfName(entries: seq<Entry>, k: nat)
    requires k < |entries|
  {
    forall j :: k < j < |entries| ==> entries[j].name != entries[k].name
  }

  lemma LastOfNamePrefix(entries: seq<Entry>, e: Entry, k: nat)
    requires k < |entries| && LastOfName(entries + [e], k)
    ensures LastOfName(entries, k) && e.name != entries[k].name
  {
    var es := entries + [e];
    assert es[|entries|] == e;
    forall j | k < j < |entries|
      ensures entries[j].name != entries[k].name
    {
      assert es[j] == entries[j] && es[k] == entries[k];
    }
  }

  /** The directory holds one entry per record, in record order, each read
      at `at + k * 272`, and its data lies inside the buffer. */
  lemma {:induction false} DirectoryEntries(b: seq<Byte>, at: nat, n: nat)
    requires Directory(b, at, n).Success?
    ensures var es := Directory(b, at, n).value.0;
      |es| == n && forall k :: 0 <= k < n ==> ReadEntry(b, at + k * RecordSize) == Success(es[k]) && EntryData(b, es[k]).Success?
  {
    if n > 0 {
      DirectoryEntries(b, at, n - 1);
    }
  }

  /** There is one file per distinct entry name. */
  lemma {:induction false} DirectoryKeys(b: seq<Byte>, at: nat, n: nat)
    requires Directory(b, at, n).Success?
    ensures Directory(b, at, n).value.1.Keys == Names(Directory(b, at, n).value.0)
  {
    if n > 0 {
      DirectoryKeys(b, at, n - 1);
      var d := Directory(b, at, n - 1).value;
      var e := ReadEntry(b, at + (n - 1) * RecordSize).value;
      NamesAppend(d.0, e);
    }
  }

  /** A name's file holds the data of the last entry of that name, so a
      later duplicate overwrites an earlier one (both stay among the entries). */
  lemma {:induction false} LaterDuplicateWins(b: seq<Byte>, at: nat, n: nat)
    requires Directory(b, at, n).Success?
    ensures var (es, fs) := Directory(b, at, n).value;
      forall k :: 0 <= k < |es| && LastOfName(es, k) ==> es[k].name in fs && EntryData(b, es[k]) == Success(fs[es[k].name])
  {
    if n > 0 {
      LaterDuplicateWins(b, at, n - 1);
      var (es, fs) := Directory(b, at, n).value;
      var (ds, gs) := Directory(b, at, n - 1).value;
      var e := ReadEntry(b, at + (n - 1) * RecordSize).value;
      assert es == ds + [e] && fs == gs[e.name := EntryData(b, e).value];
      forall k | 0 <= k < |es| && LastOfName(es, k)
        ensures es[k].name in fs && EntryData(b, es[k]) == Success(fs[es[k].name])
      {
        if k < |ds| {
          LastOfNamePrefix(ds, e, k);
        }
      }
    }
  }

  /** The parse result: the prologue's fields read at bytes 4, 8 and 12, the
      identifier without NULs, one entry per record and the files keyed by name. */
  lemma ParsedMeaning(b: seq<Byte>)
    ensures Parsed(b).Success? <==> |b| >= PrologueSize && Directory(b, U32(b, 8), U32(b, 12)).Success?
    ensures Parsed(b).Success? ==> var t := Parsed(b).value;
      t.prologue == Prologue(Latin1(b[..4]), U32(b, 4), U32(b, 8), U32(b, 12), WithoutNul(Latin1(b[16..PrologueSize])))
      && (t.entries, t.files) == Directory(b, U32(b, 8), U32(b, 12)).value
  {
  }

  /** Any magic is accepted: a container with no records parses whatever its first four bytes. */
  lemma MagicNotChecked(b: seq<Byte>)
    requires |b| >= PrologueSize && U32(b, 12) == 0
    ensures Parsed(b).Success? && Parsed(b).value.prologue.magic == Latin1(b[..4])
    ensures Parsed(b).value.entries == [] && Parsed(b).value.files == map[]
  {
  }
}
