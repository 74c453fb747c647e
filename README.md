# Sen atlas packing and SenBuffer, modelled in Dafny

This project models two independent pieces of the Sen toolkit.

**The atlas pack pipeline** (`pack.ts`). It turns a sprite directory into a
PvZ2 resource subgroup. `PackForOfficialSubgroupStructure` and
`PackForUnofficialSubgroupStructure` have the same body, so one model
(`AtlasPack.Pack`) covers both. The pipeline runs these steps in order:

1. Validate the header of `atlas.json`: subgroup, method, trim, groups, and
   expand_path when present.
2. Name the member images. In "path" mode a member's image is the last
   element of its `path`; otherwise it is the group key.
3. Check that every member image exists.
4. Validate every group and convert it to a packable record.
5. Measure the images.
6. Hand the records to the bin packer.
7. Reject a bin rectangle that the packer flagged as oversized.
8. Build the subgroup manifest. For each bin it holds one atlas image
   descriptor, followed by one sprite descriptor per packed rectangle.
   Each bin's image is requested with its canvas: the tight box when `trim`
   is set, and otherwise each side rounded up to a power of two.

The model includes a small JavaScript value model (`JsonValue`), because the
checks in `pack.ts` behave like JavaScript at run time. Three examples:
`"x" in v` throws a TypeError unless `v` is an object. `Object.keys` of a
string lists its indices. The error message for a null `cols` calls
`toString()` on null, which throws. The model returns the first exception
the pipeline would throw, or everything it writes.

Three parts of the outside world are parameters of the model, in an
`Environment`: file existence, the image dimension probe, and the MaxRects
bin packer.

**SenBuffer** (`Buffer.cs`). SenBuffer is a byte stream with separate read
and write cursors. `Buffers.SenBuffer` is a class with these fields:

- `data`, the stream contents;
- `readOffset`;
- `writeOffset`;
- `expandable`. `new MemoryStream()` grows. A `MemoryStream` over a given
  array keeps its size.

Its methods cover:

- the cursor fixes;
- raw byte reads and writes;
- the fixed-width little- and big-endian integers;
- int24 with sign extension;
- booleans;
- LEB128-style varints and ZigZag;
- NUL-terminated strings.

Integer widths are written out explicitly as `% 2^k` and two's complement
conversions. The codec lives in `SenCodec` as pure functions. The properties
proved there are the round trips:

- decode of encode;
- varint groups of a varint;
- ZigZag both ways.

`Buffers` lifts those round trips to "write, then read at the same offset".

In `Buffer.cs`, `readVarInt32`/`readVarInt64` advance the read cursor twice
per byte. See "Findings". The model keeps that reader as written, in
`ReadVarIntAsWritten`. Every other varint reader in the model uses the
corrected reader, which advances one byte per group: `ReadVarInt`,
`ReadVarUInt32` and `ReadZigZag`. In the source these call the faulty
reader.

## Model

| member | source | states |
|---|---|---|
| Text.NatText | Script/modules/support/popcap/pvz2/atlas/pack.ts:557 | the decimal text of a bin index is non-empty |
| Text.NatTextDigits | Script/modules/support/popcap/pvz2/atlas/pack.ts:557 | the decimal text consists of digits and starts with '0' exactly for 0 |
| Text.DecimalValueOfNatText | Script/modules/support/popcap/pvz2/atlas/pack.ts:557 | reading the decimal text of n back gives n, so the text is injective |
| Text.DecimalValueLeadingZero | Script/modules/support/popcap/pvz2/atlas/pack.ts:557 | the leading "0" that pads indices below 10 does not change the value |
| Text.ToUpper | Script/modules/support/popcap/pvz2/atlas/pack.ts:557 | ASCII upper-casing keeps the length |
| Text.ToUpperAt | Script/modules/support/popcap/pvz2/atlas/pack.ts:557 | each character is upper-cased in place, and no lower-case ASCII letter remains |
| Text.IndexOfFrom | Script/modules/support/popcap/pvz2/atlas/pack.ts:542 | the result is the first occurrence at or after `from`, or None when there is none |
| Text.RemoveFirst | Script/modules/support/popcap/pvz2/atlas/pack.ts:542 | `replace` with a string pattern removes only the first occurrence, and leaves the text unchanged when the pattern is absent |
| JsonValue.LookupFindsFirst | Script/modules/support/popcap/pvz2/atlas/pack.ts:104-258 | a property read finds the first member with the key, and gives nothing exactly when no member has it |
| JsonValue.Entries | Script/modules/support/popcap/pvz2/atlas/pack.ts:505 | `Object.keys` throws only for null; it lists an object's members in order, pairs an array's or a string's index i (as decimal text) with element or character i, and lists nothing for numbers and booleans |
| JsonValue.ElementTexts | Script/modules/support/popcap/pvz2/atlas/pack.ts:574 | `join` takes one text per array element: "" for null, the element's `String` text otherwise |
| AtlasValidation.CheckAtlasJsonStructure | Script/modules/support/popcap/pvz2/atlas/pack.ts:102-258 | passes iff the header is valid; on failure, names the first header field in checking order that is wrong, MissingProperty iff the key is absent, and the TypeError for a non-object |
| AtlasValidation.CheckGroup | Script/modules/support/popcap/pvz2/atlas/pack.ts:318-414 | passes iff path is an array, x and y are integers, and cols is absent or an integer; otherwise names the first bad field in the order path, x, y, cols, with the right error kind |
| AtlasValidation.CheckEach | Script/modules/support/popcap/pvz2/atlas/pack.ts:317-417 | passes iff every group is valid; otherwise returns the error of the first invalid group |
| AtlasValidation.CheckGroups | Script/modules/support/popcap/pvz2/atlas/pack.ts:313-417 | passes iff the groups can be listed and all are valid; an unlistable `groups` is a TypeError |
| AtlasValidation.CheckWholeAtlasJson | Script/modules/support/popcap/pvz2/atlas/pack.ts:313-417 | the loop over the group keys returns exactly the outcome of CheckGroups |
| AtlasValidation.CheckMembers | Script/modules/support/popcap/pvz2/atlas/pack.ts:290-304 | passes iff every `<media>\<name>.png` exists; otherwise reports the first missing file |
| AtlasValidation.CheckWholeMemberIfExists | Script/modules/support/popcap/pvz2/atlas/pack.ts:290-304 | the loop over the names returns exactly the outcome of CheckMembers |
| AtlasTrim.ReducerTrim | Script/modules/support/popcap/pvz2/atlas/pack.ts:46-58 | the reduced width and height are never negative |
| AtlasTrim.ReducerTrimIsTight | Script/modules/support/popcap/pvz2/atlas/pack.ts:46-58 | the box encloses every rectangle; each side is 0 or some rectangle's edge; an empty bin gives 0 x 0 |
| AtlasTrim.ReducerTrimIsLeast | Script/modules/support/popcap/pvz2/atlas/pack.ts:46-58 | every non-negative box that encloses the rectangles is at least as large |
| AtlasTrim.Create2nSquare | Script/modules/support/popcap/pvz2/atlas/pack.ts:66-69 | for n >= 1, the result is a power of two with n <= r < 2n; 0 maps to 0 |
| AtlasTrim.PowersOfTwoApart | Script/modules/support/popcap/pvz2/atlas/pack.ts:66-69 | distinct powers of two are at least a factor of two apart |
| AtlasTrim.Create2nSquareIsLeast | Script/modules/support/popcap/pvz2/atlas/pack.ts:66-69 | the result is the least power of two that is >= n |
| AtlasTrim.SquareTrimRoundsUp | Script/modules/support/popcap/pvz2/atlas/pack.ts:77-89 | each side is the tight side rounded up to a power of two on its own, and the box still encloses every rectangle |
| AtlasTrim.SquareTrimNeedNotBeSquare | Script/modules/support/popcap/pvz2/atlas/pack.ts:77-89 | a 3 x 10 rectangle gets a 4 x 16 canvas, which is not square |
| AtlasItems.LastOf | Script/modules/support/popcap/pvz2/atlas/pack.ts:507 | `at(-1)` works on arrays and strings only: the last element or character, and undefined when empty |
| AtlasItems.ImageName | Script/modules/support/popcap/pvz2/atlas/pack.ts:507 | the image name is the text of the last path element; a path that is neither an array nor a string is a TypeError |
| AtlasItems.ImageNames | Script/modules/support/popcap/pvz2/atlas/pack.ts:504-508 | the names are the group keys in "id" mode and the last path elements in "path" mode, one per group |
| AtlasItems.ToPackable | Script/modules/support/popcap/pvz2/atlas/pack.ts:434-452 | the record has the key as id, the path, the default x and y, and cols exactly when the group has it |
| AtlasItems.ToPackables | Script/modules/support/popcap/pvz2/atlas/pack.ts:431-453 | one record per group, in key order |
| AtlasItems.PackableDatas | Script/modules/support/popcap/pvz2/atlas/pack.ts:426-455 | fails iff CheckGroups fails, with its error; otherwise gives the records of all groups |
| AtlasItems.AutoConversionToPackableData | Script/modules/support/popcap/pvz2/atlas/pack.ts:426-455 | the push loop returns exactly PackableDatas |
| AtlasItems.MeasureAll | Script/modules/support/popcap/pvz2/atlas/pack.ts:511-527 | the loop measures every record in order |
| AtlasItems.CheckBin | Script/modules/support/popcap/pvz2/atlas/pack.ts:472-483 | passes iff no rectangle is flagged; otherwise reports the first flagged one on the axis it overflows |
| AtlasItems.FirstFlaggedShift | Script/modules/support/popcap/pvz2/atlas/pack.ts:471-484 | after an unflagged bin, the first flagged rectangle of the rest is the first flagged one overall |
| AtlasItems.CheckBins | Script/modules/support/popcap/pvz2/atlas/pack.ts:463-487 | passes iff no bin holds a flagged rectangle; otherwise reports the first one in bin order |
| AtlasItems.CheckOversizedImages | Script/modules/support/popcap/pvz2/atlas/pack.ts:463-487 | the loop returns exactly CheckBins |
| AtlasManifest.BinLabel | Script/modules/support/popcap/pvz2/atlas/pack.ts:557 | the bin label has at least two characters |
| AtlasManifest.BinLabelValue | Script/modules/support/popcap/pvz2/atlas/pack.ts:557 | the label reads back as the bin index, zero padding included |
| AtlasManifest.AtlasIdsDistinct | Script/modules/support/popcap/pvz2/atlas/pack.ts:557-560 | different bins of one subgroup get different `ATLASIMAGE_ATLAS_` ids |
| AtlasManifest.Sprites | Script/modules/support/popcap/pvz2/atlas/pack.ts:568-601 | one sprite descriptor per rectangle of the bin |
| AtlasManifest.SpritesAt | Script/modules/support/popcap/pvz2/atlas/pack.ts:568-601 | sprite j describes rectangle j: its id, path, parent, ax/ay/aw/ah, x/y and cols |
| AtlasManifest.BinResources | Script/modules/support/popcap/pvz2/atlas/pack.ts:558-601 | a bin contributes one atlas descriptor plus one sprite per rectangle |
| AtlasManifest.BinResourcesAt | Script/modules/support/popcap/pvz2/atlas/pack.ts:568-601 | entry 1+j of a bin's block is the sprite of rectangle j |
| AtlasManifest.BinResourcesWellFormed | Script/modules/support/popcap/pvz2/atlas/pack.ts:558-601 | a block starts with an atlas image, and every later entry is a sprite whose parent is that atlas's id |
| AtlasManifest.Blocks | Script/modules/support/popcap/pvz2/atlas/pack.ts:553-609 | one block per bin |
| AtlasManifest.BlocksAt | Script/modules/support/popcap/pvz2/atlas/pack.ts:553-609 | block i holds the resources of bin i with index i |
| AtlasManifest.ResourcesCount | Script/modules/support/popcap/pvz2/atlas/pack.ts:553-602 | the resource list has one entry per bin plus one per packed rectangle |
| AtlasManifest.StartIsOffset | Script/modules/support/popcap/pvz2/atlas/pack.ts:553-602 | bin i's entries begin after the i atlas entries and the rectangles of the earlier bins |
| AtlasManifest.AtlasInResources | Script/modules/support/popcap/pvz2/atlas/pack.ts:558-567 | the entry at bin i's start is its atlas descriptor, sized by the trim rule |
| AtlasManifest.SpriteInResources | Script/modules/support/popcap/pvz2/atlas/pack.ts:568-601 | the entry right after bin i's start plus j is the sprite of rectangle j of bin i |
| AtlasManifest.ResourcesLayout | Script/modules/support/popcap/pvz2/atlas/pack.ts:553-602 | the whole layout of bin i in the resource list: atlas first, then its sprites in order |
| AtlasManifest.SpriteSource | Script/modules/support/popcap/pvz2/atlas/pack.ts:568-601 | every sprite in the resource list describes some packed rectangle of some bin |
| AtlasManifest.SpriteAfterParent | Script/modules/support/popcap/pvz2/atlas/pack.ts:553-602 | in a list of well-formed blocks, a sprite's parent atlas precedes it, with only sprites between them |
| AtlasManifest.SpritesFollowTheirAtlas | Script/modules/support/popcap/pvz2/atlas/pack.ts:553-602 | in the resource list, every sprite's parent atlas comes before it, with only sprites between them |
| AtlasManifest.BuildManifest | Script/modules/support/popcap/pvz2/atlas/pack.ts:540-548 | id = subgroup, type "simple", res passed through, parent = subgroup without the first `_<res>`, and one resource per bin plus one per rectangle |
| AtlasManifest.CompositesEnclose | Script/modules/support/popcap/pvz2/atlas/pack.ts:554-556 | the canvas requested for a bin holds every rectangle placed in it, under either trim rule |
| AtlasManifest.CompositeNamesDistinct | Script/modules/support/popcap/pvz2/atlas/pack.ts:557-612 | different bins are composited into differently named image files |
| AtlasManifest.CompositesSnoc | Script/modules/support/popcap/pvz2/atlas/pack.ts:606-612 | each pass of the outer loop appends the request of its bin |
| AtlasManifest.SpritesSnoc | Script/modules/support/popcap/pvz2/atlas/pack.ts:568-601 | each pass of the inner loop appends the sprite of its rectangle |
| AtlasManifest.PushSprites | Script/modules/support/popcap/pvz2/atlas/pack.ts:568-601 | the inner loop appends exactly the bin's sprites |
| AtlasManifest.AssembleBins | Script/modules/support/popcap/pvz2/atlas/pack.ts:553-613 | the outer loop builds exactly the resource list and the image requests |
| AtlasPack.MeasuredFileIsCheckedFile | Script/modules/support/popcap/pvz2/atlas/pack.ts:504-527 | the file a group's image is measured from is the `<media>\<name>.png` whose existence was checked, in both modes |
| AtlasPack.PackMeasuresExistingFiles | Script/modules/support/popcap/pvz2/atlas/pack.ts:495-619 | in a successful run, every file handed to the image probe exists |
| AtlasPack.ValidGroupsNamed | Script/modules/support/popcap/pvz2/atlas/pack.ts:504-508 | validated groups always have an image name: their key, or their last path element |
| AtlasPack.PackSucceedsIff | Script/modules/support/popcap/pvz2/atlas/pack.ts:495-619 | the pipeline succeeds iff the header and every group are valid, every member image exists, and no packed rectangle is flagged |
| AtlasPack.MissingImageBeforeGroupErrors | Script/modules/support/popcap/pvz2/atlas/pack.ts:504-510 | in "id" mode, a missing member image is reported even when a group is also malformed |
| AtlasPack.PackSuccessOutput | Script/modules/support/popcap/pvz2/atlas/pack.ts:495-619 | a successful run writes the output of the bins that the packer returned for the measured groups |
| AtlasPack.PackOutputShape | Script/modules/support/popcap/pvz2/atlas/pack.ts:540-616 | a successful run writes `<subgroup>.json` with the manifest header, one resource per bin plus one per rectangle, and one image per bin |
| AtlasPack.SpriteOfItem | Script/modules/support/popcap/pvz2/atlas/pack.ts:568-601 | when the bins hold only given items, every sprite carries the id, x, y and cols of one of them |
| AtlasPack.SpritesDescribeGroups | Script/modules/support/popcap/pvz2/atlas/pack.ts:426-601 | when the packer returns only the measured items, every sprite carries a group's key, default x and y, and cols exactly when the group has it |
| SenCodec.FromLE | Shell/Modules/Standards/Buffer.cs:161-215 | the little-endian value of n bytes is below 256^n |
| SenCodec.FromBE | Shell/Modules/Standards/Buffer.cs:161-215 | the big-endian value of n bytes is below 256^n |
| SenCodec.LE | Shell/Modules/Standards/Buffer.cs:452-540 | the little-endian writer emits exactly n bytes |
| SenCodec.BE | Shell/Modules/Standards/Buffer.cs:452-540 | the big-endian writer emits exactly n bytes |
| SenCodec.FromLEOfLE | Shell/Modules/Standards/Buffer.cs:161-215 | reading back the little-endian bytes of v < 256^n gives v |
| SenCodec.LEOfFromLE | Shell/Modules/Standards/Buffer.cs:452-540 | writing the little-endian value of some bytes gives the bytes back |
| SenCodec.FromBEOfBE | Shell/Modules/Standards/Buffer.cs:161-215 | reading back the big-endian bytes of v < 256^n gives v |
| SenCodec.BEOfFromBE | Shell/Modules/Standards/Buffer.cs:452-540 | writing the big-endian value of some bytes gives the bytes back |
| SenCodec.DecodeEncode | Shell/Modules/Standards/Buffer.cs:154-215 | decode of encode is the identity on values that fit, in either byte order |
| SenCodec.EncodeDecode | Shell/Modules/Standards/Buffer.cs:452-540 | encode of decode is the identity on byte strings, in either byte order |
| SenCodec.BEIsReversedLE | Shell/Modules/Standards/Buffer.cs:461-540 | the big-endian bytes are the little-endian bytes reversed |
| SenCodec.BEMostSignificantFirst | Shell/Modules/Standards/Buffer.cs:461-540 | the first big-endian byte carries the highest weight |
| SenCodec.LEFirstIsLeastSignificant | Shell/Modules/Standards/Buffer.cs:452-540 | the first little-endian byte is v mod 256, and the rest encodes v / 256 |
| SenCodec.ToSignedRange | Shell/Modules/Standards/Buffer.cs:229-285 | the signed cast of an n-byte pattern lies in the two's complement range and is negative iff the top bit is set |
| SenCodec.ToSignedBack | Shell/Modules/Standards/Buffer.cs:229-285 | the signed value is congruent to the pattern, so the pattern can be recovered |
| SenCodec.SignExtend24Meaning | Shell/Modules/Standards/Buffer.cs:243-257 | int24 is negative iff bit 23 is set, is the pattern minus 2^24 in that case, and lies in [-2^23, 2^23) |
| SenCodec.VarInt | Shell/Modules/Standards/Buffer.cs:573-627 | a varint has at least one byte |
| SenCodec.VarIntShape | Shell/Modules/Standards/Buffer.cs:573-627 | every byte but the last has bit 7 set, and the last has it clear |
| SenCodec.GroupsOfVarInt | Shell/Modules/Standards/Buffer.cs:573-627 | the 7-bit groups of the varint of n sum back to n |
| SenCodec.VarIntLength | Shell/Modules/Standards/Buffer.cs:573-627 | a number below 128^k takes at most k bytes |
| SenCodec.VarIntLengthBounds | Shell/Modules/Standards/Buffer.cs:287-327 | a uint takes at most 5 bytes and a ulong at most 10, so the group limits of the readers are never hit on written data |
| SenCodec.Xor | Shell/Modules/Standards/Buffer.cs:637-647 | xor of width-bit patterns stays within the width |
| SenCodec.XorZero | Shell/Modules/Standards/Buffer.cs:637-647 | xor with the zero mask keeps the pattern |
| SenCodec.Ones | Shell/Modules/Standards/Buffer.cs:637-647 | the all-ones mask of a width is 2^width - 1 |
| SenCodec.XorOnes | Shell/Modules/Standards/Buffer.cs:637-647 | xor with the all-ones mask is the complement |
| SenCodec.ZigZagValueInverse | Shell/Modules/Standards/Buffer.cs:329-341 | the ZigZag numbering is a bijection between the integers and the naturals |
| SenCodec.ZigZagEncodeValue | Shell/Modules/Standards/Buffer.cs:637-647 | the shift-and-xor formula yields the ZigZag number of every in-range value |
| SenCodec.ZigZagDecodeValue | Shell/Modules/Standards/Buffer.cs:329-341 | the mask-and-xor formula yields the integer of every pattern in range |
| SenCodec.ZigZagRoundTrip | Shell/Modules/Standards/Buffer.cs:329-341 | decoding the ZigZag encoding of an in-range integer gives it back, and the encoding fits the width |
| SenCodec.ZigZagRoundTripPattern | Shell/Modules/Standards/Buffer.cs:637-647 | encoding the decoding of a pattern gives the pattern back, and the decoded value is in range |
| Buffers.Overwrite | Shell/Modules/Standards/Buffer.cs:414-420 | after a write the stream covers it, the written range holds the bytes, a gap past the old end is zero, and all else is unchanged |
| Buffers.Read | Shell/Modules/Standards/Buffer.cs:126-134 | a read succeeds iff the offset fix does not throw, count >= 0 and the bytes are there; it returns that slice and advances the cursor by count |
| Buffers.Write | Shell/Modules/Standards/Buffer.cs:414-420 | a write passes iff the offset is >= -1 and the stream can hold it; it overwrites at the fixed cursor and advances it by the length |
| Buffers.GroupsSnoc | Shell/Modules/Standards/Buffer.cs:287-306 | one more group adds its 7 bits at weight 128^k |
| Buffers.ScanVarIntMeaning | Shell/Modules/Standards/Buffer.cs:287-327 | a successful one-byte-per-group scan returns a well-shaped varint within the group limit, read from the data right at the cursor, and ends right after it |
| Buffers.ScanVarIntOf | Shell/Modules/Standards/Buffer.cs:287-327 | a varint present at the cursor is scanned back exactly |
| Buffers.ScanStringMeaning | Shell/Modules/Standards/Buffer.cs:380-395 | a successful string scan returns the non-zero bytes up to the first NUL and ends past the NUL |
| Buffers.ScanStringOf | Shell/Modules/Standards/Buffer.cs:380-395 | a NUL-free string followed by NUL is scanned back exactly |
| Buffers.ReadAfterWrite | Shell/Modules/Standards/Buffer.cs:126-134 | reading at the offset just written returns the written bytes |
| Buffers.WriteThenReadFixed | Shell/Modules/Standards/Buffer.cs:154-215 | a fixed-width integer written at an offset reads back as the same value |
| Buffers.WriteThenReadVarInt | Shell/Modules/Standards/Buffer.cs:573-627 | a varint written at an offset scans back as the same bytes, whose groups are the value |
| Buffers.WriteThenReadZigZag | Shell/Modules/Standards/Buffer.cs:637-647 | a ZigZag value written at an offset reads back as the same integer |
| Buffers.WriteThenReadString | Shell/Modules/Standards/Buffer.cs:380-395 | a NUL-terminated string written at an offset reads back as the same bytes |
| Buffers.SignedBitsBack | Shell/Modules/Standards/Buffer.cs:287-327 | the signed reading of a bit pattern is congruent to the pattern |
| Buffers.VarIntReaderSkipsBytes | Shell/Modules/Standards/Buffer.cs:287-327 | 300 is written as [172, 2]; the 32- and 64-bit readers as written run off the end, while the corrected one returns 300; on [172, 2, 1] the reader as written assembles 172 and leaves the cursor past the end |
| Buffers.EncodeVarInt | Shell/Modules/Standards/Buffer.cs:573-584 | the emit loop produces exactly the varint of the number |
| Buffers.SenBuffer.constructor | Shell/Modules/Standards/Buffer.cs:42-44 | a fixed-size stream over the given bytes, with both cursors at 0 |
| Buffers.SenBuffer.Empty | Shell/Modules/Standards/Buffer.cs:34-36 | an empty, growable stream, with both cursors at 0 |
| Buffers.SenBuffer.OfSize | Shell/Modules/Standards/Buffer.cs:46-50 | a fixed-size stream of `size` zeros, with both cursors at 0 |
| Buffers.SenBuffer.FixReadOffset | Shell/Modules/Standards/Buffer.cs:89-106 | an offset above -1 replaces the read cursor, -1 keeps it, a lower one throws, and a negative cursor cannot become the position |
| Buffers.SenBuffer.FixWriteOffset | Shell/Modules/Standards/Buffer.cs:108-124 | an offset above -1 replaces the write cursor, -1 keeps it, and a lower one throws |
| Buffers.SenBuffer.ReadBytes | Shell/Modules/Standards/Buffer.cs:126-134 | returns the bytes at the fixed cursor and moves the cursor past them, or fails as Read says |
| Buffers.SenBuffer.GetBytes | Shell/Modules/Standards/Buffer.cs:144-152 | succeeds iff the offset and count are in range and the read cursor is not negative; returns the slice; changes nothing; classifies each failure |
| Buffers.SenBuffer.WriteBytes | Shell/Modules/Standards/Buffer.cs:414-420 | writes at the fixed write cursor and advances it, leaving the read cursor alone |
| Buffers.SenBuffer.SetBytes | Shell/Modules/Standards/Buffer.cs:429-442 | with overwriteOffset, writes at the fixed cursor and keeps the cursor there; without it, writes at the offset and leaves the cursor unchanged |
| Buffers.SenBuffer.ReadUnsigned | Shell/Modules/Standards/Buffer.cs:154-215 | reads width bytes in the given order and returns their value below 256^width |
| Buffers.SenBuffer.ReadSigned | Shell/Modules/Standards/Buffer.cs:229-285 | reads width bytes and returns their two's complement value |
| Buffers.SenBuffer.ReadInt24 | Shell/Modules/Standards/Buffer.cs:243-257 | reads 3 bytes and sign-extends bit 23 |
| Buffers.SenBuffer.ReadBool | Shell/Modules/Standards/Buffer.cs:373-378 | reads one byte; the result is true iff the byte is non-zero |
| Buffers.SenBuffer.WriteUnsigned | Shell/Modules/Standards/Buffer.cs:452-540 | writes the width-byte encoding in the given order |
| Buffers.SenBuffer.WriteUInt8 | Shell/Modules/Standards/Buffer.cs:444-450 | writes the sbyte as its byte pattern, n mod 256 |
| Buffers.SenBuffer.WriteBool | Shell/Modules/Standards/Buffer.cs:629-635 | writes 1 for true and 0 for false |
| Buffers.SenBuffer.WriteSenBuffer | Shell/Modules/Standards/Buffer.cs:661-666 | writes the other buffer's whole contents |
| Buffers.SenBuffer.WriteVarInt | Shell/Modules/Standards/Buffer.cs:573-627 | writes the varint of the number's unsigned pattern |
| Buffers.SenBuffer.WriteZigZag | Shell/Modules/Standards/Buffer.cs:637-647 | writes the varint of the ZigZag pattern |
| Buffers.SenBuffer.ReadGroups | Shell/Modules/Standards/Buffer.cs:287-327 | the group loop returns the scanned bytes, leaves the cursor where the scan ends, and accumulates their group value |
| Buffers.SenBuffer.ReadVarInt | Shell/Modules/Standards/Buffer.cs:287-327 | the corrected reader returns the groups read back as a signed 32- or 64-bit value |
| Buffers.SenBuffer.ReadVarIntAsWritten | Shell/Modules/Standards/Buffer.cs:287-327 | the 32- and 64-bit readers as written, advancing two bytes per group |
| Buffers.SenBuffer.ReadVarUInt32 | Shell/Modules/Standards/Buffer.cs:217-221 | the signed reading cast back to uint: the groups mod 2^32 |
| Buffers.SenBuffer.ReadZigZag | Shell/Modules/Standards/Buffer.cs:329-341 | the ZigZag decoding of the varint pattern |
| Buffers.SenBuffer.ReadStringByEmpty | Shell/Modules/Standards/Buffer.cs:380-395 | collects bytes up to the first NUL and leaves the cursor past it |
| Buffers.SenBuffer.GetStringByEmpty | Shell/Modules/Standards/Buffer.cs:397-404 | reads the string at the offset and restores the read cursor after a successful read; a negative offset throws and leaves the cursor there |

## Left out

- The MaxRects bin packer is a parameter of `Pack`. Its output is taken as given, and so is each rectangle's `oversized` flag.
- `CheckWholeDirectory` is not modelled: reading `atlas.json`, the media directory and path resolution are file-system I/O. The model starts from the parsed document and the media path.
- Image probing and compositing are left out. `DotNetBitmap.GetDimension` is a parameter. `CompositeImages` appears only as the request it receives.
- Writing the manifest JSON is left out. The output records the file name; the target directory is not modelled.
- Localized message texts are not modelled. An error keeps its kind and the field or file it names.
- Text.ToUpper: case mapping covers ASCII letters only. JavaScript `toUpperCase` maps every Unicode letter and can change the length ("ß" becomes "SS"). Subgroup names are taken to be ASCII.
- Text.ToUpperAt: for the same reason, non-ASCII lower-case letters are kept, where JavaScript upper-cases them.
- Strings are sequences of code points, not of UTF-16 units. `Object.keys` of a string (`JsonValue.Entries`) and `at(-1)` on a string (`AtlasItems.LastOf`) therefore differ from JavaScript on characters outside the Basic Multilingual Plane.
- JsonValue.Lookup: an object may hold the same key twice in the model, and the lookup takes the first member. `JSON.parse` keeps the last one, but it never produces an object with a repeated key, so the two agree on every parsed document. The pipeline lemmas also range over such unparseable documents.
- Non-integer JSON numbers are carried as their text. `Number.isInteger` rejects them, which is all the checks need.
- `create_2n_square(0)` is modelled as 0. In JavaScript, `Math.log2(0)` is `-Infinity`, and `2 ** -Infinity` is 0.
- Reads and writes of float and double are left out, because floating point is not modelled.
- `readString`, `writeString`, `readStringByVarInt32` and `writeStringByVarInt32` are left out: text encodings are not modelled. The NUL-terminated readers return raw bytes.
- `readVarUInt64` calls itself with no base case and never returns normally, so it is left out.
- `toBytes`, `OutFile`, `SaveFile`, `Close` and `Flush` are left out. `WriteSenBuffer` takes the other buffer's contents directly.
- The constructors over a file path and over image pixels are left out.
- The `length` setter (`SetLength`) is left out.
- The stream `Position` is not kept as state, because every operation sets it from a cursor before use. The only place it appears is the check that a cursor is not negative.
- Positions above the range of a C# `int` are not modelled. Counts and lengths are unbounded.
- Buffers.SenBuffer.ReadSigned: it accepts every width and byte order, including combinations with no C# reader, such as a big-endian int16. The cases the source has are covered.
- Buffers.SenBuffer.ReadUnsigned: likewise, it accepts widths and orders without a C# counterpart.
- Buffers.SenBuffer.WriteUnsigned: it writes the low width bytes of any natural number. The C# parameter types already keep the value in range.
- Buffers.SenBuffer.ReadVarInt: it models the intended one byte per group, not the source as written. See "Findings".
- Buffers.SenBuffer.ReadVarUInt32: it uses the corrected reader, not the source as written.
- Buffers.SenBuffer.ReadZigZag: it uses the corrected reader, not the source as written.

## Findings

| source | as written | input that shows it | evidently intended | confidence | as-written member | corrected member |
|---|---|---|---|---|---|---|
| Shell/Modules/Standards/Buffer.cs:298-302 (and 319-323) | `readVarInt32`/`readVarInt64` read each byte through `readUInt8`, which already advances `readOffset`, and then add 1 again: the cursor advances one extra byte per group, and a multi-byte value is assembled from the wrong bytes | the varint of 300, the two bytes [172, 2] at the end of the stream: the second group is looked for at offset 2 and the read fails out of bounds; followed by a byte 1, the bytes [172, 2, 1] read as 172 | one byte per group, as the varint writers emit them | not executed | Buffers.VarIntReaderSkipsBytes, Buffers.SenBuffer.ReadVarIntAsWritten | Buffers.WriteThenReadVarInt, Buffers.SenBuffer.ReadVarInt |
