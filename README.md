# tgxm-loader geometry core in Dafny

This project models the binary geometry pipeline of tgxm-loader, a JavaScript
loader for Destiny and Destiny 2 item models. A TGX package holds the item's
render meshes. The loader reads the package and the mesh descriptors, decodes
every vertex stream into typed output buffers, resolves skinning, and builds
one triangle list per renderable part. Beside that pipeline it has a few
tabular and book-keeping layers, and those are modelled too: the TCHC
container header, the level-of-detail and render-stage filters, the
art-region diff, option validation, the item-type and dye-channel tables,
the item cache, the model container and the RGBA image blit.

JavaScript numbers in typed arrays are `Num = Fin(real) | NaN`, computed with
exact arithmetic. Bytes are integers in `0..255`. Little-endian reads are
written out byte by byte. A JavaScript exception is a `Failure` of a
`Result`, carrying the kind of error the engine would raise.

Modules, one per source file (the larger ones split):

- `Wrappers`, `Numbers`, `Bytes`, `JsStrings`: shared helpers. These are
  `Option`/`Result`, JavaScript number operations, byte reads, and the string
  operations the code uses (`startsWith`, `includes`, `replace`, `parseInt`,
  decimal rendering).
- `BufferUtilities`: the vertex-format tables, `getDataTypeAndCount`,
  `normalize`, `shortToHalf` and the component reads.
- `VertexBuffers`: the output buffers as a class, plus the `parse*` attribute
  writers, `addDataDrivenBufferData`, the fallback weights and the texcoord2
  post-pass.
- `SkinBuffer`: `parseSkinBuffer`, `assignSkinWeights` and
  `addSkinBufferData`.
- `IndexBuffer`: `parseIndexBuffer`.
- `TgxContainer`: `parseTGX`.
- `GeometryDecode`: the per-vertex decode loop of `#parseGeometryBuffers`.
- `RenderMesh`: the `RenderMesh` constructor and `parseStagePart`.
- `Triangles`: the triangle builder of `#makeGeometries`.
- `GeometryLoader`: `#skipRegion`, pattern selection, `#resolveGearDyes`,
  `dispose` and `reset`.
- `ParseTchc`: `parseTCHCHeader`.
- `StagePartFilter`: the level-of-detail tables and the two filters.
- `ArtRegionPatterns`: `compareKeys` and `compareArtRegionPatterns`.
- `LoaderConfig`: option validation and `createModelConfig`.
- `ItemCache`: the `TGXCache` class.
- `ModelContainer`: the `TGXModelContainer` class.
- `MaterialUtilities`: `ChannelHashToData`, `getInventoryItemType`,
  `normalizeTransform` and `getDyeChannelHash`.
- `HelperFunctions`: `isSubstrInArray`, `detectImageMimeType`,
  `findFirstSubstrInArray`, `decompose` and `arraysEqual`.
- `ImageUtilities`: `createEmptyImage`, `insertImage` and the format dispatch
  of `imageBytesToPNG`.

Code that loops or updates state is written as methods with loop invariants.
Each such method is proved equal to a specification function, and the
properties are proved about that function as lemmas. Pure code is written as
functions and lemmas.

The model keeps the behaviour as written, including its quirks:

- `parseSkinBuffer` never reports a UV anomaly, so `firstBoneStride` is
  always 0.
- The UV-scale stride index is truncated to a byte.
- An out-of-range triangle index keeps the indices already pushed for its
  face.
- `parseTGX` checks no magic and removes every NUL from names.
- The Destiny 1 stage filter ignores the requested LOD.
- The skip loop in `assignSkinWeights` is unchecked, so running past the
  blend table is a failure rather than a precondition.
- `case _:` raises a ReferenceError.
- `dispose` calls a cache method that does not exist.
- `parseIndexBuffer` always reads 16-bit indices.
- `shortToHalf` departs from IEEE 754-2008 binary16 (section 3.6) for
  subnormals and for exponent 31.
- `normalize` follows section 2.3.5.1 of the OpenGL 4.6 core specification:
  signed values are clamped at -1.

## Model

| member | source | states |
|---|---|---|
| BufferUtilities.VertexFormatLength | src/TGXBufferUtilities.js:4-9 | the length stored in `vertexFormats` for each type is the length of its name |
| BufferUtilities.ByteSize | src/TGXBufferUtilities.js:12-17 | `dataTypeByteSize` gives 1, 2 or 4 bytes |
| BufferUtilities.MaxValueOfWidth | src/TGXBufferUtilities.js:28-32 | the maxima table holds 2^(bits-1)-1 for the signed types and 2^bits-1 for the unsigned ones; float has no entry |
| BufferUtilities.FirstFormat | src/TGXBufferUtilities.js:74-76 | the type the scan stops at has a stored length no longer than the string |
| BufferUtilities.FirstFormatMeaning | src/TGXBufferUtilities.js:74-83 | the scan finds a listed type whose name starts the string, and finds none exactly when no listed name starts it |
| BufferUtilities.GetDataTypeAndCountMeaning | src/TGXBufferUtilities.js:72-84 | the result is undefined exactly when no type name starts the string; otherwise the string starts with the returned name and the count is `parseInt` of the rest |
| BufferUtilities.OnlyOwnName | src/TGXBufferUtilities.js:4-9 | a name followed by anything starts with no other type's name |
| BufferUtilities.PrefixFree | src/TGXBufferUtilities.js:4-9 | no type name is a prefix of another |
| BufferUtilities.GetDataTypeAndCountOfName | src/TGXBufferUtilities.js:72-84 | a type name followed by a suffix `d` gives that type and `parseInt(d)` |
| BufferUtilities.GetDataTypeAndCountOfCount | src/TGXBufferUtilities.js:72-84 | the round trip: a type name followed by the decimal string of `n` gives that type and `n` |
| BufferUtilities.Normalized | src/TGXBufferUtilities.js:51-70 | `normalize` keeps the length, and element `i` is the conversion of input element `i` |
| BufferUtilities.Normalize | src/TGXBufferUtilities.js:51-70 | the loop pushes exactly the converted elements, in order |
| BufferUtilities.NormalizedMeaning | src/TGXBufferUtilities.js:54-66 | a signed element becomes `max(-1, v/MAX)`, so it is at least -1; an unsigned one becomes `v/MAX` |
| BufferUtilities.NormalizedRange | src/TGXBufferUtilities.js:51-70 | a value of the integer type lands in [-1, 1] when signed and in [0, 1] when unsigned, and MAX maps to 1 |
| BufferUtilities.Fields | src/TGXBufferUtilities.js:37-39 | the sign, exponent and mantissa fields are below 2, 32 and 1024 |
| BufferUtilities.Scaled | src/TGXBufferUtilities.js:46 | `2^e * (1 + m/1024)` is positive |
| BufferUtilities.HalfOfFields | src/TGXBufferUtilities.js:35-47 | `shortToHalf` is never zero, and is negative exactly when bit 15 is set |
| BufferUtilities.ShortToHalfNormal | src/TGXBufferUtilities.js:35-47 | for exponent fields 1 to 30 `shortToHalf` is the binary16 value of section 3.4 of IEEE 754-2008 |
| BufferUtilities.ShortToHalfSubnormal | src/TGXBufferUtilities.js:41-46 | for exponent field 0 (subnormals and zeros) the result is 2^-14 further from zero than the binary16 value, because of the implicit 1 |
| BufferUtilities.ShortToHalfExponent31 | src/TGXBufferUtilities.js:38-46 | exponent field 31 is not special: 0x7C00 decodes to 65536 where the format has infinity |
| BufferUtilities.ReadComponents | src/TGXMLoader.js:1100 | the unpack yields values exactly when all `count` scalars lie in the buffer, and scalar `k` is read little-endian at `at + k * size` |
| BufferUtilities.ReadScalarRange | src/TGXBufferUtilities.js:19-32 | an integer read back is a whole number in the range of its type |
| VertexBuffers.Zeros | src/TGXMLoader.js:1062-1071 | a fresh Float32Array of `len` slots holds `len` zeros |
| VertexBuffers.ByteZeros | src/TGXMLoader.js:1072-1076 | a fresh Uint8Array of `len` slots holds `len` zeros |
| VertexBuffers.Uint8Of | src/TGXMLoader.js:1072 | a store into a Uint8Array keeps a value below 256 as it is (and reduces others modulo 256) |
| VertexBuffers.ValueOfNormalized | src/TGXBufferUtilities.js:114-115 | component `i` of the normalized element is the normalized component `i`, also past the end of the element |
| VertexBuffers.SliceValue | src/TGXBufferUtilities.js:164-169 | a component below `m` of the slice, normalized or not, is that component of the element |
| VertexBuffers.Components | src/TGXBufferUtilities.js:112-213 | the writers' components: exactly `m` values, value `i` being element component `i`, normalized when the element says so |
| VertexBuffers.DyeSlot | src/TGXBufferUtilities.js:140 | the dye slot `w & 0x7` is below 8 |
| VertexBuffers.StrideIndex | src/TGXBufferUtilities.js:151-154 | the stride index `((w & 0xFFFF) >>> 3) & 4095` is below 4096 |
| VertexBuffers.StrideIndexSignedUnsigned | src/TGXBufferUtilities.js:143-154 | a signed short and the unsigned short with the same 16 bits give the same stride index and dye slot |
| VertexBuffers.StrideIndexBits | src/TGXBufferUtilities.js:140-154 | for a 16-bit value the stride index is bits 3 to 14 and the dye slot bits 0 to 2 |
| VertexBuffers.PositionWrittenSlots | src/TGXBufferUtilities.js:86-98 | `parsePosition` stores the scaled and offset (y, z, x) at slots 3v..3v+2 and the raw w in positionW; every other slot and buffer is unchanged |
| VertexBuffers.NormalWrittenSlots | src/TGXBufferUtilities.js:124-156 | `parseNormal` stores (y, z, x), the dye slot, and the stride index modulo 256; every other buffer is unchanged |
| VertexBuffers.StrideIndexTruncated | src/TGXBufferUtilities.js:154-156 | a stride index of 256 is stored in the Uint8Array as 0 |
| VertexBuffers.StrideIndexRange.constructor | src/TGXMLoader.js:1079-1082 | the range starts at min 100000000000 and max 0 |
| VertexBuffers.StrideIndexRange.Include | src/TGXBufferUtilities.js:158-159 | min and max become `Math.min`/`Math.max` of the old bound and the index |
| VertexBuffers.MinInt | src/TGXBufferUtilities.js:158 | the result is one of the two arguments and no larger than either |
| VertexBuffers.MaxInt | src/TGXBufferUtilities.js:159 | the result is one of the two arguments and no smaller than either |
| VertexBuffers.Buffers.constructor | src/TGXMLoader.js:1061-1077 | the fourteen buffers get `vertexCount * elementLen` zero slots each |
| VertexBuffers.Buffers.ParsePosition | src/TGXBufferUtilities.js:86-98 | the buffers become `PositionWritten` of the old ones, sizes kept |
| VertexBuffers.Buffers.ParseTangent | src/TGXBufferUtilities.js:110-122 | tangent slots 4v..4v+3 become (y, z, x, w), normalized when the element says so; nothing else changes |
| VertexBuffers.Buffers.ParseNormal | src/TGXBufferUtilities.js:124-160 | the buffers become `NormalWritten` of the old ones, and the range takes in the untruncated stride index |
| VertexBuffers.Buffers.ParseTexcoord0 | src/TGXBufferUtilities.js:162-174 | texcoord0 slots 2v, 2v+1 become the components scaled and offset by the texture transform; nothing else changes |
| VertexBuffers.Buffers.ParseTexcoord2 | src/TGXBufferUtilities.js:176-190 | texcoord2 slots 2v, 2v+1 take the first two components and hasTexcoord2[v] becomes 1; nothing else changes |
| VertexBuffers.Buffers.ParseBlendindices | src/TGXBufferUtilities.js:192-204 | the four raw components go to slots 4v..4v+3 and hasBlendindices[v] becomes 1; nothing else changes |
| VertexBuffers.Buffers.ParseBlendweights | src/TGXBufferUtilities.js:206-223 | four (possibly normalized) components go to slots 4v..4v+3 and hasBlendweight[v] becomes 1; nothing else changes |
| VertexBuffers.Buffers.AddDataDrivenBufferData | src/TGXBufferUtilities.js:232-256 | without a file name nothing changes; otherwise only the colour buffer changes, to the colour pass over `floor(byte_size / stride)` iterations, and a read past the file (or of a missing file) is a TypeError |
| VertexBuffers.Buffers.AssignFallbackWeights | src/TGXBufferUtilities.js:291-309 | the loop leaves exactly `FallbackWeights` of the old buffers |
| VertexBuffers.Buffers.Texcoord2PostPass | src/TGXMLoader.js:1145-1173 | only texcoord2 changes, slot by slot as `Texcoord2At` says; the hasTexcoord2 flags stay as they were |
| VertexBuffers.ColorPass | src/TGXBufferUtilities.js:244-254 | a successful pass keeps the colour buffer's length |
| VertexBuffers.Put4Slots | src/TGXBufferUtilities.js:250-253 | four stores change exactly slots `at`..`at+3` that lie in the array |
| VertexBuffers.ColorPassSucceeds | src/TGXBufferUtilities.js:244-248 | the pass succeeds exactly when every iteration's four bytes lie in the buffer |
| VertexBuffers.ColorPassValues | src/TGXBufferUtilities.js:244-254 | after `n` iterations colour slot `k < 4n` holds byte `k` normalized as ubyte, and later slots keep their value |
| VertexBuffers.NoRecovery | src/TGXBufferUtilities.js:244-248 | once an iteration throws, every larger bound throws too |
| VertexBuffers.FallbackWeightsMeaning | src/TGXBufferUtilities.js:295-309 | a vertex with neither flag gets blendindices[4v] = positionW[v] and weight 1; one with indices only gets weights idx[2]/255 and idx[3]/255; every other slot and buffer is unchanged |
| VertexBuffers.Texcoord2Final | src/TGXMLoader.js:1145-1173 | Destiny 2 sets an unset texcoord2 to texcoord0 * 4; Destiny 1 copies texcoord0 into an unset one and multiplies a set one element-wise |
| SkinBuffer.Record | src/TGXBufferUtilities.js:339-375 | a record reads successfully exactly when the file exists and the four bytes at `4 * i` lie in it |
| SkinBuffer.WeightValue | src/TGXBufferUtilities.js:361-376 | a normalized byte weight is the byte divided by 255, between 0 and 1 |
| SkinBuffer.UvScales | src/TGXBufferUtilities.js:337-353 | `n` UV records give `n` scale pairs |
| SkinBuffer.UvNoRecovery | src/TGXBufferUtilities.js:337-353 | once a UV record fails to read, the whole UV block fails with that error |
| SkinBuffer.SkinStep | src/TGXBufferUtilities.js:358-401 | an iteration that does not break moves the cursor forward and stays inside the buffer |
| SkinBuffer.EmptyEntriesStep | src/TGXBufferUtilities.js:351-352 | `n + 1` empty entries are `n` empty entries followed by one more |
| SkinBuffer.SkinStride | src/TGXBufferUtilities.js:360-400 | one iteration of the skinning loop, as written, is `SkinStep` |
| SkinBuffer.UvBlock | src/TGXBufferUtilities.js:330-353 | the UV block yields one scale pair and one empty entry per record from min to max, and on success `UVstrideBroken` is false and `firstBoneStride` is 0 |
| SkinBuffer.ParseSkinBuffer | src/TGXBufferUtilities.js:328-404 | `parseSkinBuffer` is `ParsedSkin`, and `firstBoneStride` is always 0 |
| SkinBuffer.SkinStepExtends | src/TGXBufferUtilities.js:358-401 | one iteration appends the same number of entries to both tables and keeps the earlier ones |
| SkinBuffer.SkinFromExtends | src/TGXBufferUtilities.js:356-401 | the skinning loop only appends to the two tables, equally many entries to each |
| SkinBuffer.ParsedSkinShape | src/TGXBufferUtilities.js:328-404 | the result has `firstBoneStride` 0, blend tables of equal length, one UV pair per UV record, and an empty entry at each UV record's position |
| SkinBuffer.EmptyRecordFirst | src/TGXBufferUtilities.js:363-369 | an all-zero record is an empty entry although its weights also sum below 255: the next record is not read |
| SkinBuffer.FourBoneStep | src/TGXBufferUtilities.js:369-387 | a pair below 255 with a nonzero byte: past the buffer the loop breaks with the tables unchanged; otherwise it pushes the combined 4-bone entry then an empty entry, and reports a sum other than 255 |
| SkinBuffer.TwoBoneStep | src/TGXBufferUtilities.js:388-398 | a record summing to 255 or more pushes its two indices and two weights, which add up to at least 1, padded with zeros |
| SkinBuffer.SkinStepWarned | src/TGXBufferUtilities.js:383-397 | the 255-sum report does not change what an iteration does |
| SkinBuffer.SkinFromWarned | src/TGXBufferUtilities.js:383-397 | the 255-sum reports do not change the tables the loop builds, nor whether it fails |
| SkinBuffer.Group | src/TGXBufferUtilities.js:431-446 | 0 ≤ w ≤ 255 is a single bone; w < 0 gives group abs(w) - 0x800; w > 255 (and NaN) gives group w - 0x800 |
| SkinBuffer.Count | src/TGXBufferUtilities.js:461 | the count of nonzero indices is at most 4 and is 0 exactly for the empty entry |
| SkinBuffer.EntryBase | src/TGXBufferUtilities.js:460 | `blendIndex * 8` indexes an entry exactly when it is a whole number |
| SkinBuffer.NextNonEmpty | src/TGXBufferUtilities.js:458-469 | a successful skip lands at or after the starting offset, inside the entries |
| SkinBuffer.NextNonEmptyMeaning | src/TGXBufferUtilities.js:458-469 | the skip loop finds the first entry with a nonzero index from the cursor on, and fails (a TypeError on undefined) exactly when it starts before the entries or only empty entries follow |
| SkinBuffer.AllEmptyExtend | src/TGXBufferUtilities.js:463-467 | an empty entry joins the empty run that follows it |
| SkinBuffer.UvBackfill | src/TGXBufferUtilities.js:414-423 | the back-fill keeps the buffer sizes |
| SkinBuffer.Located | src/TGXBufferUtilities.js:450-472 | the located entry exists in both blend tables |
| SkinBuffer.Bones | src/TGXBufferUtilities.js:426-490 | the bone assignment keeps the buffer sizes |
| SkinBuffer.SkinVertex | src/TGXBufferUtilities.js:411-491 | one vertex iteration keeps the buffer sizes |
| SkinBuffer.SkinnedUpTo | src/TGXBufferUtilities.js:408-491 | the vertex loop keeps the buffer sizes |
| SkinBuffer.SingleBone | src/TGXBufferUtilities.js:431-436 | 0 ≤ w ≤ 255 writes index w with weight 1, leaves the cursor alone and changes no other slot |
| SkinBuffer.LocatedMeaning | src/TGXBufferUtilities.js:450-472 | the cursor restarts at 0 only when the group changes; the entry is the first nonempty one from group·8 + offset; a group that is not whole, or a search that runs off, fails |
| SkinBuffer.GroupBones | src/TGXBufferUtilities.js:472-489 | a group vertex receives the four indices and weights of its entry, and the cursor advances by 2 when more than two indices are nonzero, else by 1; only its four slots change |
| SkinBuffer.BackfillIsDead | src/TGXBufferUtilities.js:416 | with `firstBoneStride` 0 the texcoord2 back-fill never fires: texcoord2 and hasTexcoord2 are untouched |
| SkinBuffer.SkinnedNoRecovery | src/TGXBufferUtilities.js:411-491 | once a vertex throws, the rest of the loop does not run |
| SkinBuffer.SkinnedStep | src/TGXBufferUtilities.js:411 | the loop after `v + 1` vertices is one more iteration after `v` |
| SkinBuffer.FindNonEmpty | src/TGXBufferUtilities.js:456-469 | the do-while is `NextNonEmpty` |
| SkinBuffer.ApplyUvBackfill | src/TGXBufferUtilities.js:414-423 | the method's effect or error is `UvBackfill` |
| SkinBuffer.Locate | src/TGXBufferUtilities.js:450-472 | the cursor update and skip loop are `Located` |
| SkinBuffer.AssignBones | src/TGXBufferUtilities.js:426-490 | the buffers and cursor after the bone assignment are `Bones` |
| SkinBuffer.SkinOneVertex | src/TGXBufferUtilities.js:411-491 | one vertex iteration is `SkinVertex` |
| SkinBuffer.AssignSkinWeights | src/TGXBufferUtilities.js:406-492 | the buffers after `assignSkinWeights`, or its error, are `Skinned` of the old buffers |
| SkinBuffer.AddSkinBufferData | src/TGXBufferUtilities.js:289-326 | without a skin file name, the fallback assignment; otherwise the file parsed with `floor(byte_size / stride_byte_size)` records and assigned |
| IndexBuffer.UnpackShorts | src/TGXBufferUtilities.js:500 | the unpack yields values exactly when `count` shorts fit in the buffer, and then exactly `count` of them |
| IndexBuffer.ParseIndexBuffer | src/TGXBufferUtilities.js:494-501 | a missing file or a zero value size is an error; otherwise the result, when defined, holds `floor(byteSize / valueByteSize)` values |
| IndexBuffer.Encode | src/TGXBufferUtilities.js:500 | the little-endian layout of 16-bit indices takes two bytes per index |
| IndexBuffer.EncodeAt | src/TGXBufferUtilities.js:500 | index `k` is stored low byte first at bytes 2k and 2k+1 |
| IndexBuffer.RoundTrip | src/TGXBufferUtilities.js:494-501 | reading an encoded index buffer with value size 2 gives back its indices |
| IndexBuffer.DecodeEncode | src/TGXBufferUtilities.js:500 | unpacking the encoding of `s` gives `s` |
| IndexBuffer.WidthIgnored | src/TGXBufferUtilities.js:499-500 | whatever `valueByteSize` says, the values are the 16-bit halves of the first `2 * count` bytes |
| IndexBuffer.WideIndicesMisread | src/TGXBufferUtilities.js:499-500 | two 32-bit indices 1 and 2 are read as the 16-bit values 1 and 0 |
| TgxContainer.WithoutNul | src/parseTGX.js:41-58 | removing NULs leaves no NUL and no more characters than before |
| TgxContainer.WithoutNulConcat | src/parseTGX.js:41-58 | NULs are removed piece by piece, wherever they are in the name |
| TgxContainer.WithoutNulKeeps | src/parseTGX.js:41-58 | a string without NULs is kept whole |
| TgxContainer.InnerNulRemoved | src/parseTGX.js:58 | a NUL inside a name goes too: "a\0b" becomes "ab" |
| TgxContainer.ReadPrologue | src/parseTGX.js:40-41 | the prologue reads exactly when the buffer holds 272 bytes; version, fileHeaderOffset and fileCount are the LE u32 values at 4, 8 and 12, magic the first four bytes |
| TgxContainer.ReadEntry | src/parseTGX.js:48-58 | a record reads exactly when its name and three u32 fit; offset, type and size are the LE u32 values at +256, +260 and +264, the name its first 256 bytes without NULs |
| TgxContainer.EntryData | src/parseTGX.js:60 | an entry's file is `bytes[offset .. offset+size)`, and reads exactly when that lies in the buffer |
| TgxContainer.DirectoryNoRecovery | src/parseTGX.js:46-63 | once a record fails to read, the whole parse fails with that error |
| TgxContainer.ParseTgx | src/parseTGX.js:36-74 | the loop computes `Parsed` |
| TgxContainer.AddRecord | src/parseTGX.js:48-62 | one loop iteration appends the entry and files its data under its name |
| TgxContainer.NamesAppend | src/parseTGX.js:62 | appending an entry adds its name to the set of names |
| TgxContainer.LastOfNamePrefix | src/parseTGX.js:60-62 | an entry that is the last of its name stays so without the final entry, whose name differs |
| TgxContainer.DirectoryEntries | src/parseTGX.js:46-63 | `entries` has exactly fileCount elements in directory order, entry `k` read at `fileHeaderOffset + 272 * k` |
| TgxContainer.DirectoryKeys | src/parseTGX.js:60 | the keys of `files` are exactly the entry names |
| TgxContainer.LaterDuplicateWins | src/parseTGX.js:60-62 | a name's file holds the data of the last entry with that name, while both entries stay in `entries` |
| TgxContainer.ParsedMeaning | src/parseTGX.js:36-74 | the parse succeeds iff the prologue and every record read; the result holds the prologue fields read at 4, 8, 12, the identifier without NULs, and the directory |
| TgxContainer.MagicNotChecked | src/parseTGX.js:40-73 | the magic is returned but not checked: a container with no records parses whatever its first four bytes |
| GeometryDecode.VertexCount | src/TGXMLoader.js:1057-1077 | vertexCount is `floor(byteSize / strideByteSize)` of the first vertex buffer; no vertex buffer throws a TypeError, a zero stride with data a RangeError (Infinity length), a zero stride without data NaN |
| GeometryDecode.WriterOfIgnored | src/TGXMLoader.js:1102-1129 | the `if` chain selects no writer exactly for an unknown semantic or a texcoord set other than 0 and 2 |
| GeometryDecode.ElementsNoRecovery | src/TGXMLoader.js:1093-1130 | once an element throws, the rest of the stream's elements do not run |
| GeometryDecode.StreamsNoRecovery | src/TGXMLoader.js:1086-1131 | once a stream throws, the later streams do not run |
| GeometryDecode.VerticesNoRecovery | src/TGXMLoader.js:1084-1132 | once a vertex throws, the later vertices do not run |
| GeometryDecode.ElementStepMeaning | src/TGXMLoader.js:1090-1129 | a missing buffer file throws; an ignored element writes nothing; any other element is read at `v * stride + byteOffset`, fails exactly when the read runs past the file, and otherwise goes through its writer |
| GeometryDecode.IgnoredStreamUnchanged | src/TGXMLoader.js:1102-1129 | a stream whose elements are all ignored writes nothing |
| GeometryDecode.ZeroedShaped | src/TGXMLoader.js:1061-1077 | the fresh buffers have their allocated sizes and 0/1 flags |
| GeometryDecode.FlagSet | src/TGXBufferUtilities.js:189-222 | setting a flag to 1 keeps every flag 0 or 1 |
| GeometryDecode.WrittenShaped | src/TGXMLoader.js:1102-1129 | every writer keeps the sizes and 0/1 flags, and the stride-index range only widens |
| GeometryDecode.ElementsShaped | src/TGXMLoader.js:1093-1130 | the element loop keeps the sizes and flags, and the range only widens |
| GeometryDecode.StreamsShaped | src/TGXMLoader.js:1086-1131 | the stream loop keeps the sizes and flags, and the range only widens |
| GeometryDecode.VerticesShaped | src/TGXMLoader.js:1084-1132 | the whole decode keeps the sizes and flags, and the range only widens |
| GeometryDecode.DecodeElement | src/TGXMLoader.js:1095-1129 | the body of the element loop is `ElementStep` |
| GeometryDecode.DecodeStream | src/TGXMLoader.js:1088-1130 | the element loop of stream `b` is `ElementsDecoded` |
| GeometryDecode.DecodeVertex | src/TGXMLoader.js:1086-1131 | the stream loop of vertex `v` is `StreamsDecoded` |
| GeometryDecode.DecodeVertices | src/TGXMLoader.js:1084-1132 | the vertex loop is `VerticesDecoded` |
| Triangles.WalkOf | src/TGXMLoader.js:1235-1243 | the face loop always has a positive step: 1 for strips, 3 otherwise |
| Triangles.StripRestart | src/TGXMLoader.js:1252-1256 | a face touching 65535 pushes nothing and resets the winding counter to 0 |
| Triangles.StripFace | src/TGXMLoader.js:1258-1272 | any other face pushes its corners in winding order; the part goes on, with the counter one higher, unless a corner was out of range |
| Triangles.ToUint16 | src/TGXMLoader.js:1276 | `new Uint16Array(list)` keeps the length, takes each index modulo 2^16 and turns undefined into 0 |
| Triangles.FaceCorners | src/TGXMLoader.js:1260-1270 | the corner loop pushes the corners before the first one not below the vertex count, and reports whether it met one |
| Triangles.FaceStep | src/TGXMLoader.js:1250-1272 | one pass of the face loop moves forward and pushes exactly what `Strip` says comes first |
| Triangles.FaceBelow | src/TGXMLoader.js:1262-1269 | every index a face pushes is below the vertex count |
| Triangles.BelowConcat | src/TGXMLoader.js:1269 | two lists below the vertex count concatenate to one |
| Triangles.StripBelow | src/TGXMLoader.js:1248-1273 | every index pushed from any loop position on is below the vertex count |
| Triangles.TrianglesBelow | src/TGXMLoader.js:1245-1273 | every emitted index is below the vertex count |
| Triangles.CleanWithin | src/TGXMLoader.js:1252-1263 | a clean stretch of the index buffer is clean in every part of it |
| Triangles.Wound | src/TGXMLoader.js:1258 | a wound face is three corners |
| Triangles.CleanFace | src/TGXMLoader.js:1258-1270 | on indices in range and without 65535 a face pushes its three corners in winding order |
| Triangles.DefinedSplit | src/TGXMLoader.js:1248 | a slice is its first face followed by the rest |
| Triangles.ListClean | src/TGXMLoader.js:1258 | for primitive type 3 a clean face pushes its corners in the (0, 1, 2) order whatever the counter |
| Triangles.ListFrom | src/TGXMLoader.js:1248-1273 | from face `f` to the end, a clean list is emitted as it stands |
| Triangles.ListIsSlice | src/TGXMLoader.js:1235-1273 | primitive type 3 with step 3: a clean slice of whole faces is emitted unchanged, always in the (0, 1, 2) winding |
| Triangles.StripReference | src/TGXMLoader.js:1248-1272 | a reference strip of `n` faces has `3n` indices |
| Triangles.StripReferenceStep | src/TGXMLoader.js:1272 | a reference strip is its first face followed by the rest with the winding flipped |
| Triangles.AlternateParity | src/TGXMLoader.js:1258 | after `k` faces the winding is swapped exactly when `k` is odd (starting unswapped) |
| Triangles.StripReferenceFaces | src/TGXMLoader.js:1248-1272 | face `k` of the reference strip is corners `k`, `k+1` and `k+2`, wound `k` alternations on |
| Triangles.StripClean | src/TGXMLoader.js:1258-1272 | a clean strip face pushes its corners wound by the counter's parity, and the counter goes up |
| Triangles.StripToReference | src/TGXMLoader.js:1248-1272 | one clean face extends the agreement between the strip and the reference strip |
| Triangles.StripFrom | src/TGXMLoader.js:1248-1273 | from face `f` on, a clean strip is the reference strip |
| Triangles.StripWinding | src/TGXMLoader.js:1239-1273 | a clean strip (type 5) emits `indexCount - 2` faces one index apart; face `k` is corners `k`, `k+1`, `k+2`, with the first two swapped when `k` is odd |
| Triangles.MissingVertexKeepsPartialFace | src/TGXMLoader.js:1262-1269 | an out-of-range index ends the part but keeps the corners already pushed, so the list need not be whole faces |
| Triangles.RestartExampleTail | src/TGXMLoader.js:1252-1256 | after a restart the next face is pushed in the (0, 1, 2) winding |
| Triangles.RestartResetsWinding | src/TGXMLoader.js:1252-1258 | in 0 1 2 65535 3 4 5 the face after the restart is wound (0, 1, 2) although a face came before it |
| Triangles.StripDone | src/TGXMLoader.js:1248 | once the loop position reaches the count nothing more is pushed |
| Triangles.PartIndices | src/TGXMLoader.js:1235-1276 | the builder's loops produce `Triangles` of the part, as a Uint16Array |
| GeometryLoader.LoadedRegions | src/TGXMLoader.js:225-228 | with the loader's (empty) blacklist a region is loaded exactly when its index is in -1..26 |
| GeometryLoader.SkipRegionMeaning | src/TGXMLoader.js:225-228 | a blacklisted index is skipped; an in-range index is skipped only if blacklisted; `parseInt` of the index's string gives the index back |
| GeometryLoader.PatternIndex | src/TGXMLoader.js:648 | the selected pattern index is the option itself when it is truthy and below the list length, and 0 otherwise |
| GeometryLoader.SelectPattern | src/TGXMLoader.js:646-657 | an empty pattern list selects nothing; any pattern selected belongs to the list |
| GeometryLoader.SelectPatternMeaning | src/TGXMLoader.js:647-648 | no option, 0 or NaN selects the first pattern; an option inside the list selects its pattern; one at or past the end selects the first |
| GeometryLoader.NegativeOptionSelectsUndefined | src/TGXMLoader.js:648-653 | a negative option is truthy and below the length, so `region[index]` is undefined |
| GeometryLoader.Overlay | src/TGXMLoader.js:1505-1512 | every slot of the result was already there or holds one of the visited dyes |
| GeometryLoader.OverlayUnwritten | src/TGXMLoader.js:1508-1511 | a slot that no dye of the target type names keeps its previous value, or stays absent |
| GeometryLoader.LastWriter | src/TGXMLoader.js:1505-1512 | among the dyes that write a slot there is a last one |
| GeometryLoader.OverlayLastWriter | src/TGXMLoader.js:1505-1512 | a slot ends up holding the last dye that writes it |
| GeometryLoader.OverlayKeepsTarget | src/TGXMLoader.js:1508-1511 | every kept dye has the target item type and sits under its own slot index |
| GeometryLoader.OverlayConcat | src/TGXMLoader.js:1490-1513 | visiting two dye lists in turn is visiting their concatenation |
| GeometryLoader.GearDyesResolved | src/TGXMLoader.js:1454-1515 | every failure of dye resolution is a TypeError |
| GeometryLoader.GearDyesMeaning | src/TGXMLoader.js:1454-1515 | the resolved dyes are those of the item's type, each under its own slot; a slot is present exactly when some default, custom or locked dye writes it, and holds the last one (locked over custom over default) |
| GeometryLoader.OverlayFromEmpty | src/TGXMLoader.js:1487-1513 | the same three facts for any dye list visited from an empty dictionary |
| GeometryLoader.OverlayDyes | src/TGXMLoader.js:1505-1512 | the inner loop over one dye list computes `Overlay` of it |
| GeometryLoader.ResolveGearDyes | src/TGXMLoader.js:1454-1515 | the method, loops included, returns exactly `GearDyesResolved` of the cache's dictionary |
| GeometryLoader.Dispose | src/TGXMLoader.js:208-218 | without an id the whole cache is emptied; with an id the call fails with a TypeError and the cache is unchanged |
| GeometryLoader.Reset | src/TGXMLoader.js:220-223 | `reset()` keeps just the global entries of the cache |
| RenderMesh.DyeMapping | src/renderMesh.js:59-105 | a dye change-colour index has a slot, primary-colour and investment-decal mapping exactly when it is 0 to 7 |
| RenderMesh.PartIdInjective | src/renderMesh.js:40 | two stage parts of one render mesh never get the same id |
| RenderMesh.ParseStagePart | src/renderMesh.js:37-108 | `parseStagePart` fails exactly for a dye index outside 0 to 7, with a ReferenceError; otherwise it returns the descriptor with the id, copied fields, side (double for primitive type 3), the index's dye mapping and empty stage lists |
| RenderMesh.ParseStageParts | src/renderMesh.js:127-136 | the constructor's first loop fails exactly when some entry has an unknown dye index; otherwise descriptor `i` is `parseStagePart` of entry `i` at index `i` |
| RenderMesh.StagesBelow | src/renderMesh.js:141-152 | the stages assigned to a part are all below the stage reached |
| RenderMesh.StagesBelowMembers | src/renderMesh.js:141-152 | a stage is assigned to part `i` exactly when `stagePartOffsets[s] <= i < stagePartOffsets[s + 1]` |
| RenderMesh.StagesBelowAscending | src/renderMesh.js:141-152 | a part's stage indices come in strictly ascending order |
| RenderMesh.EntriesParallel | src/renderMesh.js:149-150 | stage entry `k` of a part is the pair of its stage index `k` and that stage's name |
| RenderMesh.AssignStage | src/renderMesh.js:143-151 | one stage's loop fails, with a TypeError, exactly when its offset range reaches a part that does not exist; otherwise that stage is appended to exactly the parts it covers |
| RenderMesh.AssignRenderStages | src/renderMesh.js:140-152 | the stage loop fails exactly when some stage's range is bad; otherwise every part carries exactly the stages covering it, in order |
| RenderMesh.Fold | src/renderMesh.js:193-259 | a stream's attribute list, when built, has one attribute per element |
| RenderMesh.FoldPrefix | src/renderMesh.js:194-259 | the attributes built for the first `j` elements do not change as the loop goes on |
| RenderMesh.FoldNoRecovery | src/renderMesh.js:208 | once an element throws, the whole stream throws |
| RenderMesh.FoldEntry | src/renderMesh.js:193-258 | attribute `j` is computed from element `j` at the offset the attributes before it reach |
| RenderMesh.AttributeAtMeaning | src/renderMesh.js:200-254 | an element gives no attribute exactly when its type is unknown; otherwise the attribute describes the element at the offset given |
| RenderMesh.StreamAttributes | src/renderMesh.js:186-259 | the inner loop returns the layout of the stream, and fails with a TypeError exactly when the layout does |
| RenderMesh.FoldFails | src/renderMesh.js:194-259 | when a step fails for an element whatever the offset, a stream fails exactly when one of its elements is such an element |
| RenderMesh.LayoutFails | src/renderMesh.js:206-208 | a stream's layout fails exactly when one of its elements has a type `getDataTypeAndCount` does not know |
| RenderMesh.LayoutEntry | src/renderMesh.js:200-256 | attribute `j` has the element's stripped semantic, semantic index, scalar type, count, normalized flag, byte count and shader names; the first is at offset 0 and each later one starts where the previous one ends |
| RenderMesh.AttributesDisjoint | src/renderMesh.js:193-256 | with every byte count known and not negative, an earlier element of a stream ends at or before a later one starts |
| RenderMesh.OffsetsDefined | src/renderMesh.js:193-256 | with every byte count known and not negative, every offset is known and not negative |
| RenderMesh.LayoutAttributes | src/renderMesh.js:177-264 | the layout fails, with a TypeError, exactly when there is no layout definition or some stream has no format or an unknown element type; otherwise stream `b` gets the layout of format `b` |
| RenderMesh.BuildMesh | src/renderMesh.js:113-265 | the constructor fails exactly when a step above fails; otherwise it has the built stage parts, the texture scale and offset split at 2, the metadata copies, one layout per vertex buffer, and identity position scale and offset exactly when some element is a float position |
| RenderMesh.PositionOverride | src/renderMesh.js:229-233 | the position scale and offset become (1, 1, 1) and (0, 0, 0) exactly when some element is a float position, and are kept otherwise |
| ParseTchc.MatchFrom | src/parseTCHC.js:25-33 | the match of `/\0.*$/` is the first NUL after which no line terminator follows, and no earlier position matches |
| ParseTchc.CutAtNul | src/parseTCHC.js:25-33 | the cut name is a prefix of the decoded name |
| ParseTchc.CutAtFirstNul | src/parseTCHC.js:25-33 | in a name without line terminators everything from the first NUL on is removed |
| ParseTchc.LineTerminatorStopsCut | src/parseTCHC.js:25-33 | `.` does not cross a line terminator, so a NUL followed by a newline is not cut there |
| ParseTchc.ReadRegion | src/parseTCHC.js:32-52 | a region record can be read exactly when its 88 bytes lie in the buffer, and otherwise the read is a RangeError |
| ParseTchc.RegionsNoRecovery | src/parseTCHC.js:30-63 | once a record cannot be read, the whole header fails with that error |
| ParseTchc.ParseTchcHeader | src/parseTCHC.js:3-71 | the parser, with its running offset, returns exactly the header `Parsed` describes |
| ParseTchc.ReadRegions | src/parseTCHC.js:28-63 | the region loop builds exactly the dictionary of the first `regionCount` records |
| ParseTchc.AddRegion | src/parseTCHC.js:32-62 | one pass of the loop reads the record at the offset and moves the offset on by 88 |
| ParseTchc.NotTchcEmpty | src/parseTCHC.js:8-16 | a buffer whose first four bytes are not "TCHC" gives the empty object |
| ParseTchc.HeaderMeaning | src/parseTCHC.js:18-70 | a TCHC header has the version and region count at bytes 4 and 8, the container name from the 64 bytes at 12, and the input buffer unchanged; it fails exactly when a record cannot be read |
| ParseTchc.RegionsInBuffer | src/parseTCHC.js:30-52 | when the header parses, every record `k` lies in the buffer at `76 + 88k` |
| ParseTchc.RegionsKeys | src/parseTCHC.js:54 | the regions are keyed by name: exactly the names of the records read |
| ParseTchc.RegionsCount | src/parseTCHC.js:54-62 | there are no more keys than the region count |
| ParseTchc.LastRecordWins | src/parseTCHC.js:54-62 | a region holds the last record of its name: later duplicates overwrite earlier ones |
| StagePartFilter.LODToValues | src/stagePartFilter.js:43-52 | only the LODs 0 to 3 have a category list |
| StagePartFilter.LODFilter | src/stagePartFilter.js:50-58 | the LOD test fails with a TypeError exactly for an LOD other than 0 to 3, and otherwise passes exactly when the part's LOD category is in that LOD's list |
| StagePartFilter.LODCategories | src/stagePartFilter.js:26-48 | category 10 (unused) is drawn at no LOD, and category 3 (all LODs) at every one |
| StagePartFilter.Keep | src/stagePartFilter.js:66-126 | a part is kept exactly when it passes the LOD test, has non-zero flags where the flags test applies, and has an allowed render stage |
| StagePartFilter.FilterDestiny2StagePartsToRender | src/stagePartFilter.js:60-93 | the Destiny 2 loop returns exactly the parts `Filtered` keeps with the flags test |
| StagePartFilter.FilterDestinyStagePartsToRender | src/stagePartFilter.js:97-130 | the Destiny 1 loop returns exactly the parts `Filtered` keeps at LOD 0 without the flags test |
| StagePartFilter.FilteredNoRecovery | src/stagePartFilter.js:66-73 | once a part throws in the LOD test, the whole filter throws |
| StagePartFilter.FilteredMeaning | src/stagePartFilter.js:60-93 | a filter fails exactly when there is a part and the LOD is not 0 to 3; otherwise it keeps, in their order, exactly the parts that pass |
| StagePartFilter.SubsequenceExtend | src/stagePartFilter.js:83 | keeping a subsequence by skipping a part |
| StagePartFilter.DestinyIgnoresLOD | src/stagePartFilter.js:97-107 | the Destiny 1 filter always succeeds and uses LOD 0 whatever LOD it is given |
| StagePartFilter.FlaglessPart | src/stagePartFilter.js:75-116 | a part with flags 0 is kept by the Destiny 1 filter and dropped by the Destiny 2 one |
| ArtRegionPatterns.KeysWhere | src/compareArtRegionPatterns.js:47-59 | a key is listed exactly when it is a key of the first object and is (or is not) an own key of the second |
| ArtRegionPatterns.KeysWhereDistinct | src/compareArtRegionPatterns.js:47-59 | the key lists list no key twice |
| ArtRegionPatterns.KeysWhereSnoc | src/compareArtRegionPatterns.js:47-53 | one more key visited adds that key or nothing |
| ArtRegionPatterns.CompareKeys | src/compareArtRegionPatterns.js:41-62 | `compareKeys` returns the keys of the first object the second has, those it lacks, and the keys of the second the first lacks, each in key order |
| ArtRegionPatterns.CompareKeysPartition | src/compareArtRegionPatterns.js:41-62 | the three lists are pairwise disjoint, list no key twice, and together hold the keys of both objects |
| ArtRegionPatterns.EntryFor | src/compareArtRegionPatterns.js:78-85 | a region without an entry starts from empty add, remove and stay lists |
| ArtRegionPatterns.AmongStep | src/compareArtRegionPatterns.js:74-128 | handling one new region adds its change and leaves the other entries alone |
| ArtRegionPatterns.ElementsSnoc | src/compareArtRegionPatterns.js:74 | the region at `i` has not been handled before; after it, the handled set has grown by it |
| ArtRegionPatterns.Compared | src/compareArtRegionPatterns.js:64-132 | the result has one entry per region of either selection |
| ArtRegionPatterns.CompareArtRegionPatterns | src/compareArtRegionPatterns.js:64-132 | the three loops return exactly `Compared` of the two selections |
| ArtRegionPatterns.KeySets | src/compareArtRegionPatterns.js:41-62 | the key lists are, as sets, old minus new, old and new, and new minus old, and together make every key |
| ArtRegionPatterns.RemoveRegions | src/compareArtRegionPatterns.js:74-88 | the first loop gives each region only in the old selection its old geometry to remove |
| ArtRegionPatterns.CommonRegions | src/compareArtRegionPatterns.js:90-113 | the second loop swaps the geometry of a common region whose hash changed, and keeps it otherwise |
| ArtRegionPatterns.AddRegions | src/compareArtRegionPatterns.js:115-129 | the third loop gives each region only in the new selection its new geometry to add |
| ArtRegionPatterns.ComparedMeaning | src/compareArtRegionPatterns.js:64-132 | a region only in the old selection is removed, one only in the new is added, and one in both is swapped when its hash changed and stays otherwise |
| ArtRegionPatterns.SelfComparison | src/compareArtRegionPatterns.js:104-112 | comparing a selection with itself adds and removes nothing: every region stays |
| LoaderConfig.Find | src/TGXLoaderConfig.js:152-157 | a property read that is not undefined returns the value of an own entry of that name |
| LoaderConfig.Get | src/TGXLoaderConfig.js:10-69 | reading a property fails, with a TypeError, exactly on undefined and null |
| LoaderConfig.OrNone | src/TGXLoaderConfig.js:32-69 | `?? "none"` replaces exactly undefined and null with "none" and keeps every other value |
| LoaderConfig.VerifyLOD | src/TGXLoaderConfig.js:8-12 | `Number(options.lod)` is kept when it lies strictly between -1 and 4, fractions included, and the default is used otherwise, NaN included |
| LoaderConfig.FractionalLODBreaksFilter | src/TGXLoaderConfig.js:8-12 | a LOD of 1.5 passes `verifyLOD`, and the Destiny 2 stage-part filter then throws on any part |
| LoaderConfig.VerifyAllowedRenderStageIndices | src/TGXLoaderConfig.js:14-28 | the loop keeps, in order, the numbers of the candidates strictly between -1 and 24, the candidates being the option when it is an array and the default otherwise |
| LoaderConfig.KeptConcat | src/TGXLoaderConfig.js:20-25 | entries are kept in their order: filtering distributes over concatenation |
| LoaderConfig.KeptMeaning | src/TGXLoaderConfig.js:20-25 | exactly the entries whose number lies strictly between -1 and 24 are kept, and no more entries than given |
| LoaderConfig.DefaultStagesKept | src/TGXLoaderConfig.js:5-25 | the default stage list 0, 1, 2, 6, 7 passes unchanged |
| LoaderConfig.ValidateSource | src/TGXLoaderConfig.js:30-44 | undefined or null options raise a TypeError; an accepted source carries the given source tag (none when missing) and the handler function it names |
| LoaderConfig.ValidateSourceMeaning | src/TGXLoaderConfig.js:30-44 | a missing source means none; the call throws `Invalid <name>.source: <source>` exactly for a source other than none and api that is not a handler source with its function |
| LoaderConfig.ValidateShaders | src/TGXLoaderConfig.js:46-51 | undefined shaders default to `{}` and so to source none; null raises a TypeError |
| LoaderConfig.ValidateShadersMeaning | src/TGXLoaderConfig.js:46-65 | a custom source is accepted exactly when both URL prefixes are strings, and carries them, else throws the missing-URL error; only none, api and custom are accepted, any other source throws naming it |
| LoaderConfig.ValidateHands | src/TGXLoaderConfig.js:67-72 | undefined hands default to `{}` and so to source none; null raises a TypeError |
| LoaderConfig.ValidateHandsMeaning | src/TGXLoaderConfig.js:67-83 | hands take no api source; a sync or async source is accepted exactly when both its texture and geometry handlers are functions |
| LoaderConfig.Parsed | src/TGXLoaderConfig.js:167 | each region-option entry becomes the `parseInt` of its name and of its value |
| LoaderConfig.AssignedKeys | src/TGXLoaderConfig.js:165-168 | after the assignments a key is present exactly when some assignment wrote it |
| LoaderConfig.AssignedLastWins | src/TGXLoaderConfig.js:165-168 | a key holds the value of the last assignment to it |
| LoaderConfig.ParseRegionIndexOptions | src/TGXLoaderConfig.js:163-169 | the assignment loop builds exactly `RegionOptions` of the entries |
| LoaderConfig.RegionOptionsKeys | src/TGXLoaderConfig.js:165-168 | a region key is present exactly when some entry's name parses to it |
| LoaderConfig.RegionOptionsLastWins | src/TGXLoaderConfig.js:165-168 | the option under a key is the parsed value of the last entry whose name parses to it |
| LoaderConfig.ClassHash | src/TGXLoaderConfig.js:156 | the class hash is the own `classHash` entry when there is one, and 0 otherwise |
| LoaderConfig.CreateModelConfig | src/TGXLoaderConfig.js:143-172 | the model configuration fails exactly for null options (a TypeError); otherwise the skeleton is kept exactly when it is a `THREE.Skeleton` and is null otherwise, and every other field is the option's value, its `Boolean`, the verified LOD and stages against the global ones, or the parsed region options, with non-objects read as `{}` |
| LoaderConfig.ClassHashDefault | src/TGXLoaderConfig.js:156 | options without `classHash` get 0, and an explicit undefined class hash is kept |
| ItemCache.CreateId | src/TGXItemCache.js:62-65 | an id is the prefix, a colon and the item hash |
| ItemCache.CreateIdInjective | src/TGXItemCache.js:62-70 | for prefixes without a colon, one id names one (prefix, hash) pair |
| ItemCache.AllUnloaded | src/TGXItemCache.js:45-46 | `new Array(n).fill(false)` has exactly the positions 0 to n-1, all false |
| ItemCache.MobileContent | src/TGXItemCache.js:25 | `find` returns a content entry of the mobile platform, and none exactly when no entry is one |
| ItemCache.InitExisting | src/TGXItemCache.js:12-15 | `initEntry` on an id that has an entry returns the id and changes nothing |
| ItemCache.InitMeaning | src/TGXItemCache.js:10-60 | a new item needing definitions gets null and no entry when a definition is null or there is no mobile content; otherwise, as a global or hands entry always does, it gets exactly one new entry under its id and the other entries stay |
| ItemCache.FreshFlags | src/TGXItemCache.js:17-57 | a new entry has its own id, an empty gear file name and null dyes, and one false flag per geometry and texture file of its mobile content (none for global and hands) |
| ItemCache.EntryOf | src/TGXItemCache.js:77-240 | every accessor finds the entry of its id, and raises a TypeError when there is none |
| ItemCache.CheckLoaded | src/TGXItemCache.js:97-110 | a loaded-flag read fails exactly for an absent id, and is undefined exactly past the list |
| ItemCache.Lookup | src/TGXItemCache.js:140-204 | a store lookup fails exactly for an absent id |
| ItemCache.HasMeaning | src/TGXItemCache.js:145-209 | `has…` fails exactly when `get…` does, and is true exactly when `get…` finds a value |
| ItemCache.GetGearFile | src/TGXItemCache.js:127-133 | `getGearFile` fails exactly for an absent id; it gives a file exactly when the gear file name is set and has a file, and then that file |
| ItemCache.Updated | src/TGXItemCache.js:102-232 | a setter fails exactly for an absent id, and otherwise keeps the set of ids and every other entry |
| ItemCache.MarkThenCheck | src/TGXItemCache.js:97-115 | after marking a file loaded its flag reads true, and every other flag reads as before |
| ItemCache.AddThenLookup | src/TGXItemCache.js:135-209 | after adding a value under a key its lookup gives that value, and every other lookup is unchanged |
| ItemCache.GearFileStored | src/TGXItemCache.js:117-133 | once a gear file is added and its (non-empty) name set, `getGearFile` returns it |
| ItemCache.Disposed | src/TGXItemCache.js:242-259 | disposing an id fails for an absent id, and otherwise removes exactly that entry |
| ItemCache.PendingStep | src/TGXItemCache.js:263-268 | visiting one more key of the dictionary removes it exactly when `reset` disposes its entry |
| ItemCache.AfterReset | src/TGXItemCache.js:261-271 | `reset` only removes entries and changes none it keeps |
| ItemCache.ResetMeaning | src/TGXItemCache.js:261-271 | `reset()` keeps exactly the global entries, and `reset(true)` none |
| ItemCache.InitKeeps | src/TGXItemCache.js:37-41 | `initEntry` stores each entry under its own `uniqueId` |
| ItemCache.UpdatedKeeps | src/TGXItemCache.js:102-232 | the setters keep every entry under its own `uniqueId` |
| ItemCache.AppliedKeepsId | src/TGXItemCache.js:102-232 | no setter changes an entry's `uniqueId` |
| ItemCache.TGXCache.constructor | src/TGXItemCache.js:3-8 | a new cache is empty |
| ItemCache.TGXCache.InitEntry | src/TGXItemCache.js:10-60 | `initEntry` returns the id (or null) and the dictionary `Initialized` describes, and keeps every entry under its own id |
| ItemCache.TGXCache.Update | src/TGXItemCache.js:102-232 | a setter changes the dictionary as `Updated` says, and nothing on a TypeError |
| ItemCache.TGXCache.DisposeSingleEntry | src/TGXItemCache.js:242-259 | the entry of the id is deleted, and a TypeError leaves the dictionary alone |
| ItemCache.TGXCache.Reset | src/TGXItemCache.js:261-271 | the loop over the keys leaves exactly `AfterReset` of the old dictionary |
| ModelContainer.IdToString | src/TGXModelContainer.js:38-41 | a truthy id turned into a string is not empty |
| ModelContainer.GameOf | src/TGXModelContainer.js:5-51 | the game kept is one of destiny, destiny2 and global: the given one when allowed, destiny2 otherwise |
| ModelContainer.Without | src/TGXModelContainer.js:137 | removing a mesh from the group keeps exactly the other children |
| ModelContainer.Added | src/TGXModelContainer.js:111 | adding a mesh to the group puts it last and keeps the other children; a missing mesh adds nothing |
| ModelContainer.RemoveKey | src/TGXModelContainer.js:103 | deleting a key from a `Map` keeps exactly its other keys |
| ModelContainer.RemoveKeyDistinct | src/TGXModelContainer.js:103 | the keys of a `Map` stay free of repeats after a delete |
| ModelContainer.RemoveFirstKey | src/TGXModelContainer.js:155-160 | deleting the first key of a `Map` leaves the rest of its keys in order |
| ModelContainer.RemoveAbsentKey | src/TGXModelContainer.js:103 | deleting an absent key changes no key |
| ModelContainer.TGXModelContainer.constructor | src/TGXModelContainer.js:31-52 | a new container has the id as a string, the allowed game, the instance, no textures, no parts, an empty group, no patterns, and is not disposed |
| ModelContainer.TGXModelContainer.AddTexture | src/TGXModelContainer.js:65-68 | the texture record is stored under its key, a new key goes last in key order, and nothing else changes |
| ModelContainer.TGXModelContainer.GetTexture | src/TGXModelContainer.js:75-83 | `getTexture` returns the stored record, or `{}` exactly when the key is absent |
| ModelContainer.TGXModelContainer.GetTextureKeys | src/TGXModelContainer.js:85-88 | the texture keys list each stored key once and no other |
| ModelContainer.TGXModelContainer.RemoveTexture | src/TGXModelContainer.js:90-105 | `removeTexture` is true exactly for a stored key, which it deletes from the map and from key order; nothing else changes |
| ModelContainer.TGXModelContainer.AddPart | src/TGXModelContainer.js:108-112 | the part is stored under its key and its mesh goes last in the group; nothing else changes |
| ModelContainer.TGXModelContainer.GetPart | src/TGXModelContainer.js:114-117 | `getPart` gives the stored part, and undefined exactly for an absent key |
| ModelContainer.TGXModelContainer.RemovePart | src/TGXModelContainer.js:124-146 | `removePart` is true exactly for a stored key, which it deletes, taking the part's mesh out of the group; nothing else changes |
| ModelContainer.TGXModelContainer.Dispose | src/TGXModelContainer.js:148-171 | `dispose` removes every texture and part, empties the group and marks the container disposed; a disposed container is left as it is |
| ModelContainer.TGXModelContainer.CompareArtRegionPatterns | src/TGXModelContainer.js:185-188 | the comparison is `compareArtRegionPatterns` of the patterns last applied and the new ones |
| ModelContainer.TGXModelContainer.UpdateArtRegionPatterns | src/TGXModelContainer.js:190-193 | the new patterns replace the old ones and nothing else changes |
| ModelContainer.NewModelContainer | src/TGXModelContainer.js:31-52 | the constructor throws its message exactly for a falsy id, and otherwise builds a fresh, not disposed container |
| ModelContainer.UpdateThenCompare | src/TGXModelContainer.js:185-193 | applying a selection of patterns and comparing with it again asks for no change: every region stays |
| ModelContainer.TextureRoundTrip | src/TGXModelContainer.js:65-105 | after adding and then removing a texture, `hasTexture` is false and `getTexture` gives `{}` |
| MaterialUtilities.ChannelSlots | src/TGXMaterialUtilities.js:46-117 | every dye channel colours slot 0, 1 or 2 except the ship decals channel 840921382 (slot 3), and no channel is a shader or default kind |
| MaterialUtilities.Destiny2ItemType | src/TGXMaterialUtilities.js:126-168 | the Destiny 2 switch can fail only for a mod (19) |
| MaterialUtilities.Destiny1ItemType | src/TGXMaterialUtilities.js:172-216 | in Destiny 1 any item type other than 2 and 0 is a weapon |
| MaterialUtilities.ChannelsOf | src/TGXMaterialUtilities.js:221-233 | collecting channels fails, with a TypeError, exactly when a dye group is missing, and otherwise gives exactly the channels of the groups |
| MaterialUtilities.GetInventoryItemType | src/TGXMaterialUtilities.js:120-258 | the switches and the fallback's nested loops return exactly `InventoryItemType` of the definition |
| MaterialUtilities.Destiny2Kinds | src/TGXMaterialUtilities.js:128-167 | in Destiny 2 item type 2 is armor, 21 a ship, 22 a sparrow, 24 a ghost, and every other type except the mod 19 a weapon |
| MaterialUtilities.Destiny2ModOrder | src/TGXMaterialUtilities.js:145-163 | a mod is a shader by subtype 20 first; without category hashes it raises; then weapon ornament by category or trait, then armor ornament, else weapon |
| MaterialUtilities.Destiny1Undefined | src/TGXMaterialUtilities.js:177-211 | in Destiny 1 an armor or misc item with an unlisted type name gets no kind (undefined) |
| MaterialUtilities.ChannelsItemTypeMeaning | src/TGXMaterialUtilities.js:235-254 | the fallback finds a shader exactly when all five primary channels are present, and otherwise the kind of the first primary channel present in armor, weapon, ship, sparrow, ghost order, else weapon |
| MaterialUtilities.FirstPresent | src/TGXMaterialUtilities.js:240-254 | the first primary channel present from a position on, with none before it |
| MaterialUtilities.NormalizeTransform | src/TGXMaterialUtilities.js:261-270 | an all-zero transform, the empty one included, becomes (1.5, 1.5, 0, 0); any other is kept |
| MaterialUtilities.NormalizeIdempotent | src/TGXMaterialUtilities.js:261-270 | normalising twice is normalising once |
| MaterialUtilities.GetDyeChannelHash | src/TGXMaterialUtilities.js:315-325 | a hash that is a channel is returned unchanged; any other gives the translation map's entry, undefined when it has none |
| MaterialUtilities.DyeChannel | src/TGXMLoader.js:1575-1580 | building a dye can only raise a TypeError, and a dye that gets a channel gets an entry of `ChannelHashToData` |
| MaterialUtilities.DyeChannelHashIsChannel | src/TGXMLoader.js:1575-1580 | when every translation entry names a channel of the table, every hash `getDyeChannelHash` returns is a channel, building the dye never throws, and the dye has a channel exactly when its hash is a channel or is translated |
| MaterialUtilities.UnknownChannelThrows | src/TGXMLoader.js:1575-1580 | a translation entry naming a hash outside the table is returned as it is, and building the dye then raises a TypeError |
| HelperFunctions.IsSubstrInArray | src/helperFunctions.js:1-10 | false for a value that is not an array; otherwise true exactly when some element contains the substring |
| HelperFunctions.SomeIncludes | src/helperFunctions.js:5 | `some` is true exactly when some element contains the substring |
| HelperFunctions.DetectImageMimeType | src/helperFunctions.js:12-38 | PNG exactly for the signature 89 50 4E 47, JPEG exactly for FF D8 FF, the octet stream otherwise; a short buffer matches nothing |
| HelperFunctions.FindFirstSubstrInArray | src/helperFunctions.js:76-86 | undefined unless both arguments are arrays; otherwise the first match |
| HelperFunctions.FirstMatch | src/helperFunctions.js:81-85 | the result is the first string element containing one of the substrings, and undefined exactly when there is none |
| HelperFunctions.BinaryOfNat | src/helperFunctions.js:91 | the binary rendering of a number has at least one digit |
| HelperFunctions.Reverse | src/helperFunctions.js:91 | reversing keeps the length |
| HelperFunctions.ReverseBinary | src/helperFunctions.js:91 | the reversed binary rendering starts with the lowest bit |
| HelperFunctions.ReverseSnoc | src/helperFunctions.js:91 | reversing moves the last character to the front |
| HelperFunctions.FlagValuesOfBinary | src/helperFunctions.js:91-93 | mapping the reversed digits to `2 ** i` and dropping the zeros gives the set bits of the number |
| HelperFunctions.SetBitsSum | src/helperFunctions.js:89-94 | the set bits from place `i` sum to `n * 2^i` |
| HelperFunctions.Pow2NatIsPow2 | src/helperFunctions.js:92 | `2 ** i` is a power of two |
| HelperFunctions.SetBitsAscending | src/helperFunctions.js:89-94 | the set bits from place `i` are strictly ascending powers of two, each at least `2^i` |
| HelperFunctions.SumConcat | src/helperFunctions.js:89-94 | the sum of a concatenation is the sum of the sums |
| HelperFunctions.DecomposeMeaning | src/helperFunctions.js:89-94 | `decompose(n)` for `n >= 0` lists the powers of two of the set bits of `n` in strictly ascending order, they sum to `n`, and `decompose(0)` is empty |
| HelperFunctions.DecomposeIsSetBits | src/helperFunctions.js:89-94 | `decompose(n)` is the list of set bits of `n` |
| HelperFunctions.NegativeDecompose | src/helperFunctions.js:91-93 | a negative number decomposes as its magnitude: the minus sign moves to the end and contributes nothing |
| HelperFunctions.FlagValuesTail | src/helperFunctions.js:92-93 | a trailing minus sign contributes no flag |
| HelperFunctions.ArraysEqual | src/helperFunctions.js:97-102 | `arraysEqual` is true exactly when the lengths agree and every pair of entries is `===` |
| HelperFunctions.AllStrictEqual | src/helperFunctions.js:99-101 | `every` is true exactly when every pair of entries is `===` |
| HelperFunctions.ArraysEqualProperties | src/helperFunctions.js:97-102 | `arraysEqual` is symmetric, and reflexive exactly on arrays without NaN |
| ImageUtilities.CreateEmptyImage | src/imageUtilities.js:15-22 | a RangeError exactly when `width * height * 4` is negative; otherwise a fresh buffer of that many zero bytes with the given width and height |
| ImageUtilities.Blank | src/imageUtilities.js:20 | a new `Uint8Array(n)` has length n and every byte zero |
| ImageUtilities.Clamp | src/imageUtilities.js:96 | a `subarray` bound lies within the array and an in-range bound is kept |
| ImageUtilities.Subarray | src/imageUtilities.js:96 | `subarray(begin, end)` with both bounds in range views exactly `data[begin..end]`; in general it is no longer than the array |
| ImageUtilities.Set | src/imageUtilities.js:96 | `set` raises a RangeError exactly when the offset is negative or the source runs past the target's end; otherwise the length is kept |
| ImageUtilities.SetMeaning | src/imageUtilities.js:96 | after a successful `set` the source sits at the offset and every other byte of the target is unchanged |
| ImageUtilities.SetBytes | src/imageUtilities.js:96 | the array's new contents are the value `Set` computes, and a RangeError leaves it untouched |
| ImageUtilities.ScaledProduct | src/imageUtilities.js:93-94 | the row offsets computed by repeated addition equal the products `i * inputWidth` and `(yOffset + i) * receiverWidth` |
| ImageUtilities.CopyRow | src/imageUtilities.js:93-96 | one row copy keeps the receiver's length |
| ImageUtilities.RowsCopied | src/imageUtilities.js:91-97 | the first n rows keep the receiver's length |
| ImageUtilities.RowCopied | src/imageUtilities.js:91-97 | a row after a raised row changes nothing; the receiver's length is kept |
| ImageUtilities.CopyRowInto | src/imageUtilities.js:93-96 | one loop pass leaves the receiver as `CopyRow` of its old bytes and the input's old bytes |
| ImageUtilities.InsertImage | src/imageUtilities.js:79-98 | the receiver's new bytes and the exception are those of `Inserted` of the old contents, including when the two images share one buffer; a separate input is unchanged |
| ImageUtilities.NextRow | src/imageUtilities.js:91-97 | a loop pass with no exception so far extends the copied rows by one |
| ImageUtilities.ErrorPersists | src/imageUtilities.js:91-97 | once a row has raised, the rows after it change nothing |
| ImageUtilities.AllFitStep | src/imageUtilities.js:93-96 | the first n rows fit exactly when the first n-1 fit and row n-1 fits |
| ImageUtilities.CopyRowFacts | src/imageUtilities.js:93-96 | a row copy raises exactly when the row does not fit, the exception is a RangeError, and bytes outside its span are unchanged |
| ImageUtilities.CopyRowKeeps | src/imageUtilities.js:93-96 | a byte outside a row's span keeps its value |
| ImageUtilities.CopyRowLands | src/imageUtilities.js:93-96 | byte k of a fitting row lands at `receiverStart + k` |
| ImageUtilities.RowsCopiedError | src/imageUtilities.js:91-97 | the blit raises exactly when some row does not fit, and then it is a RangeError |
| ImageUtilities.Untouched | src/imageUtilities.js:91-97 | a byte no later row covers keeps the value it had |
| ImageUtilities.OutsideUnchanged | src/imageUtilities.js:79-98 | every receiver byte outside the spans of all rows is unchanged, whether or not a row raised |
| ImageUtilities.RowLands | src/imageUtilities.js:79-98 | with a separate input and no exception, byte k of row i lands at `(yOffset + i) * receiverWidth + xOffset + k` when no later row covers that position |
| ImageUtilities.ScaledMonotone | src/imageUtilities.js:93 | row offsets grow with the row index |
| ImageUtilities.SameSizeRows | src/imageUtilities.js:91-97 | blitting a same-size image at the origin copies the input's first n rows and leaves the rest of the receiver alone |
| ImageUtilities.SameSizeRow | src/imageUtilities.js:93-96 | one step of the same-size blit copies row i onto the same bytes of the receiver |
| ImageUtilities.SameSizeCopy | src/imageUtilities.js:79-98 | a same-size image blitted at the origin replaces the receiver's bytes with the input's, without exception |
| ImageUtilities.RowSpills | src/imageUtilities.js:94-96 | there is no horizontal clipping: a row placed past the right edge wraps into the receiver's next row |
| ImageUtilities.PastTheEnd | src/imageUtilities.js:94-96 | a row below the receiver's last row raises a RangeError and writes nothing |
| ImageUtilities.ImageBytesToPng | src/imageUtilities.js:37-76 | the PNG signature selects the PNG decoder, whose result is expanded to RGBA when it has fewer than four components a pixel; otherwise FF D8 selects the JPEG decoder; anything else throws "Unsupported image format" |
| ImageUtilities.DispatchAgreesWithMimeType | src/imageUtilities.js:40-61 | the PNG test agrees with `detectImageMimeType`; every buffer that function calls JPEG is decoded as JPEG, and some buffers decoded as JPEG are not called JPEG by it |
| ImageUtilities.JpegWithoutThirdMarker | src/imageUtilities.js:61 | FF D8 00 is decoded as JPEG though `detectImageMimeType` calls it an octet stream |

## Left out

- Float32 and float64 rounding, and the infinities. Typed-array storage is exact real arithmetic over `Num`, and a NaN is kept as NaN.
- Decoding a float32 component from its bytes: the decode loop takes this as a function parameter, because only its bit-to-real mapping is foreign.
- The typed arrays of the output buffers are `seq` fields of the `VertexBuffers.Buffers` class, which its methods reassign. Aliasing between distinct typed-array views is not modelled.
- A BufferPack read past the end of a buffer returns undefined, and the next access to it raises a TypeError. The model goes straight to that failure instead of carrying an undefined value.
- A zero stride in the first vertex buffer: with data, the vertex count is Infinity and the typed-array constructors raise a RangeError, which the model returns. Without data, the count is NaN, the arrays are allocated empty and the vertex loop does not run; the model returns `Success(None)` for that case.
- Fractional, negative or NaN counts and offsets read from the mesh descriptors are not modelled. Every count and offset is a natural number from the bytes.
- IndexBuffer.ParseIndexBuffer: a buffer with fewer bytes than it announces gives `Success(None)`, BufferPack's undefined. The TypeError that `#makeGeometries` then raises at its first index read (`indexBuffer[faceIndex]`) is not modelled, because the triangle builder takes a sequence of indices that is always defined.
- Console logging: the 255-sum diagnostics in `parseSkinBuffer` become a `warned` flag. `console.warn`/`console.log` elsewhere, including the warning for a dye index above 5, are dropped.
- The order of the `case` labels in `parseStagePart` is not modelled. Only the mapping from value to outcome is.
- `case _:` is taken to raise a ReferenceError, that is, no global `_` is assumed.
- GeometryLoader.Dispose: `disposeSingleItem` is missing, so the call raises a TypeError, and the model stops there.
- TGX names and the TGX identifier are read with BufferPack's string format, one Latin-1 character per byte, and the model does the same. TCHC names are decoded by TextDecoder; the model takes that decoder as a parameter of `ParseTchc` and fixes nothing about UTF-8.
- The image decoders (UPNG, jpeg-js) are parameters of `ImageUtilities.ImageBytesToPng`. Only the dispatch around them is modelled.
- `rawPixelsToBase64` (pngjs), `arrayBufferToBase64Url` (btoa), `consoleLogRGB` and `consoleLogImage`: foreign encoders and console output.
- ImageUtilities.CreateEmptyImage: fractional or very large sizes, for which the typed-array constructor rounds or throws differently, are not modelled. Sizes are integers, and a negative length is the RangeError.
- HelperFunctions.Decompose models integer inputs only. `toString(2)` of a fractional number or NaN is not modelled.
- HelperFunctions.IsSubstrInArray takes a list of strings. What `includes` does on a non-string element is not modelled.
- GeometryLoader.SkipRegionMeaning takes the region as an integer index rather than the string key of `Object.entries`.
- StagePartFilter.LODFilter reads a part's `lodCategory` as its `.value`, the only field the test uses.
- MaterialUtilities.GetDyeChannelHash takes dye and channel hashes as integers. The rest of `#buildGearDye` (material properties, cloth flag) is not modelled.
- MaterialUtilities.GetInventoryItemType reads `traitIds` truthiness as the field being present.
- LoaderConfig.CreateModelConfig: a `THREE.Skeleton` value is a tag of its own. Its own properties are not modelled, so reading options from it gives undefined and `Object.entries` of it is empty.
- `createGlobalConfig` and `createHandsConfig` are not modelled. They check THREE.js objects with `instanceof` and log warnings.
- `buildGeometryFromTCHC`, all THREE.js materials, shaders, textures and meshes, the skeleton and animation parsers, and `ghostEyeBackgoundDetection`: GPU object construction and floating-point image analysis.
- Network and file I/O (`BungieAPI`, `loadHelpers`, `fetch` in `load`, the item-file, shader, skeleton, animation and hands loaders, and the `loadDestinyInventoryItemDefinition` lookup): asynchronous I/O.
- The constant texture-name tables and the common textures: constants with no logic.
