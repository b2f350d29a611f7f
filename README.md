# kibank bank codec, modelled in Dafny

kibank reads and writes Kilohearts bank files. A bank is laid out as follows:

- a 24-byte header: the file identifier, four corruption-check bytes, the format version "Bank0001" and the number of locations;
- a location table of 24-byte records, each holding a name offset, a data offset and a data size;
- the length of the name block;
- the name block, where every name is followed by a zero byte;
- the payloads.

The writer groups the items by kind, in the kinds' declaration order. Each kind that has a directory gets a directory entry first, then its files follow in the order they were added. A bank always holds a metadata record ("index.json"); the writer adds a default record when none was given. The reader checks the header. It then reads the table and resolves every name from the name block, and it refuses a bank in which two file payloads share bytes.

The project models:

- the item kinds and their extensions, file-kind detection, metadata id sanitising and the location record (`lib.rs`);
- `BankWriter` (`write.rs`), as a class with `items`, `written` and an output byte sequence. Its `write` is proved to emit exactly `BankBytes(items)`, the byte image defined in `Layout`;
- `BankReader` (`read.rs`), as the function `Parse` over the whole input. The imperative methods `ReadCatalog`, `ReadLocations`, `ReadNames` and `CheckOverlap` are proved equal to it, and the `BankReader` class wraps its result.

The round trip is proved as follows. For any items whose paths hold no zero byte and whose bank fits in 64-bit offsets, the reader accepts the bytes the writer emits. It lists one item per table entry, with the writer's names and locations, and every file's contents read back unchanged.

Modules:

- `Bytes`: bytes, little-endian u64, ASCII.
- `Outcome`: `Option`, `Result`, the error kinds.
- `Paths`: the `std::path` file name, extension and stem, on bytes.
- `Kinds`: `ItemKind`, `Metadata`, `Location`.
- `Layout`: the writer's byte image.
- `Catalog`: the reader's items and the overlap check.
- `Writer`.
- `Reader`.
- `RoundTrip`: the writer's image, parsed.
- `WriteRead`: the writer's output, handed to the reader, and the scenarios from the test suite.
- `ReleaseBuild`: the reader's u64 sums wrapped modulo 2^64, as a release build computes them, with the banks that this lets through (see Findings). The rest of the model reads an overflow as the debug-build panic, `Err(Overflow)`.

## Model

| member | source | states |
|---|---|---|
| Bytes.LE64RoundTrip | src/write.rs:189-190 | a u64 written little-endian and read back is the value modulo 2^64, and is the value itself when it fits |
| Bytes.DecodeThenEncode | src/read.rs:94 | eight bytes read as a little-endian u64 and written again are the same eight bytes |
| Bytes.DigitsRoundTrip | src/read.rs:100-102 | k little-endian digits of a number below 256^k read back as that number |
| Bytes.ValueRoundTrip | src/read.rs:100-102 | any byte string is the k-digit little-endian encoding of the number it denotes |
| Kinds.Index | src/lib.rs:35-79 | every kind has a position below 41 in declaration order, the order `BTreeSet` sorts by |
| Kinds.KindAtIndex | src/lib.rs:36-79 | the declaration-order position identifies the kind: the kind at a kind's position is that kind |
| Kinds.IndexInjective | src/lib.rs:36-79 | two kinds share a position exactly when they are the same kind |
| Kinds.Extensions | src/lib.rs:95-139 | every kind has at least one extension |
| Kinds.ExtensionsAreLowerAscii | src/lib.rs:95-139 | every extension is a non-empty lower-case ASCII word |
| Kinds.ExtensionOwner | src/lib.rs:95-139 | every extension of a kind is owned by that kind and no other |
| Kinds.SharedExtension | src/lib.rs:95-139 | two kinds that list the same extension are the same kind |
| Kinds.ExtensionsDisjoint | src/lib.rs:143-148 | an extension matches, ignoring ASCII case, the extensions of at most one kind |
| Kinds.DirectoryNames | src/lib.rs:84-90 | background and metadata have no directory; samples go in "samples"; every other kind's directory is its first extension; directory names are lower-case ASCII words |
| Kinds.All | src/lib.rs:152-196 | the search order lists 41 kinds |
| Kinds.AllListsEveryKind | src/lib.rs:152-196 | every kind appears in the search order |
| Kinds.AnyExtensionMatches | src/lib.rs:143-148 | true exactly when some listed extension equals the given one ignoring ASCII case |
| Kinds.MetadataExtensionExamples | src/lib.rs:143-148 | metadata has the extension "json" in either case and not "txt" |
| Kinds.FindByExtensionSpec | src/lib.rs:217-223 | the search finds nothing exactly when no kind in the list has the extension, and otherwise finds the first kind in the list that has it |
| Kinds.FromMetadataFileName | src/lib.rs:204-208 | a path whose file name is "index.json" in any case is metadata |
| Kinds.FromBackgroundFileName | src/lib.rs:209-213 | a path whose whole file name is "background" in any case is a background |
| Kinds.BackgroundIsNotMetadata | src/lib.rs:204-213 | the two special file names never both match, so the order of the two tests does not matter |
| Kinds.FromExtension | src/lib.rs:216-223 | otherwise the kind is the first in search order that has the path's extension; there is none exactly when the path has no extension or no kind has it |
| Kinds.FromFindsTheOwner | src/lib.rs:201-224 | a path with an extension of kind k, and neither special name, is detected as kind k |
| Kinds.ImageFilesAreBackground | src/lib.rs:201-224 | a ".jpg" or ".png" file that is not "index.json" is a background |
| Kinds.SanitizeId | src/lib.rs:260-270 | the result is no longer than the input and holds only lower-case ASCII letters, digits and dots |
| Kinds.SanitizeIdConcat | src/lib.rs:260-270 | sanitising works character by character: a concatenation sanitises to the concatenation of the parts |
| Kinds.SanitizeIdKeepsIds | src/lib.rs:258-270 | a string that is already an id is left unchanged |
| Kinds.SanitizeIdIdempotent | src/lib.rs:258-270 | sanitising twice is sanitising once |
| Kinds.LocationRoundTrip | src/lib.rs:273-286 | a location written as three u64 values reads back as the same location |
| Paths.AfterLast | src/lib.rs:203 | the part after the last separator is a suffix of the path holding no separator, and the separator comes right before it |
| Paths.FileName | src/lib.rs:203 | a file name holds no "/" and is neither empty, "." nor ".." |
| Paths.PlainFileName | src/lib.rs:203 | a bare name is its own file name |
| Paths.StemAndExtension | src/read.rs:40-43 | "stem.ext" has file name "stem.ext", extension "ext" and stem "stem" |
| Paths.SplitJoin | src/read.rs:40-43 | splitting "stem.ext" at its last dot gives back stem and extension |
| Paths.AfterLastSuffix | src/lib.rs:203 | the part after the last separator of `pre + sep + post` is `post` when `post` has no separator |
| Catalog.ItemClassification | src/read.rs:28-52 | an item is a directory exactly when it is not a file; metadata and background files are files; a metadata file's path has the length of "index.json" and is detected as metadata |
| Catalog.Files | src/read.rs:155-158 | the file items are exactly the items that are files |
| Catalog.FilesKeepNoOverlap | src/read.rs:152-158 | keeping only the files does not change whether any two payloads overlap |
| Catalog.SortByOffset | src/read.rs:159 | the sorted items are a permutation of the input, ordered by data offset |
| Catalog.InsertWithOffset | src/read.rs:159 | inserting an item puts it after the items already at its offset |
| Catalog.SortByOffsetStable | src/read.rs:159 | the sort is stable: for every offset, the items starting there keep their input order, which decides the pair an overlap error names |
| Catalog.InsertKeepsNoOverlap | src/read.rs:159 | inserting an item keeps the overlap property exactly when the item is disjoint from the rest |
| Catalog.SortKeepsNoOverlap | src/read.rs:159 | sorting does not change whether any two payloads overlap |
| Catalog.CheckWindows | src/read.rs:160-169 | the pairwise check passes exactly when each item ends no later than the next begins; it fails only with an overflow or an overlap |
| Catalog.NeighboursIffNoOverlap | src/read.rs:152-169 | for files sorted by offset, neighbours in order is the same as no two payloads sharing a byte |
| Catalog.OverlapCheckIffNoOverlap | src/read.rs:152-169 | the whole check (filter, sort, windows) passes exactly when no two file payloads share a byte |
| Catalog.CollectFiles | src/read.rs:155-158 | the loop collects exactly the file items, in order |
| Catalog.CheckNeighbours | src/read.rs:160-169 | the loop over windows gives the result of the pairwise check |
| Catalog.CheckOverlap | src/read.rs:152-169 | the result passes exactly when no two file payloads overlap |
| Layout.Header | src/write.rs:180-190 | the header is 24 bytes |
| Layout.LocationTable | src/write.rs:224-250 | the table is 24 bytes per entry |
| Layout.NameInBlock | src/write.rs:231-243 | entry i's name and its zero byte sit in the name block at the offset recorded for it |
| Layout.ContentsInPayload | src/write.rs:245-248 | a file entry's contents sit in the payload area at the offset recorded for it |
| Layout.LocationInTable | src/write.rs:230-247 | entry i's location is the i-th 24-byte record of the table |
| Layout.NameBlockConcat | src/write.rs:225-250 | the name block of two runs of entries is their name blocks in turn |
| Layout.PayloadConcat | src/write.rs:258-267 | the payload of two runs of entries is their payloads in turn |
| Reader.ParseHeader | src/read.rs:70-94 | the header is accepted exactly when the stream has 24 bytes and the identifier, check bytes and version match; the count is the little-endian u64 after them |
| Reader.HeaderErrors | src/read.rs:70-92 | a short stream, a wrong identifier, wrong check bytes and a wrong version each give their own error, checked in that order |
| Reader.TableLocationsAt | src/read.rs:99-109 | the i-th location is the decoding of the i-th 24-byte record after the header |
| Reader.ReadLocations | src/read.rs:97-109 | the loop succeeds exactly when the whole table is present, and then returns the table's locations; otherwise the stream ended early |
| Reader.ReadUntilZeroSpec | src/read.rs:124 | `read_until(0)` returns nothing exactly at the end of the stream; otherwise it returns the bytes from the position up to the first zero, zero included, or up to the end of the stream |
| Reader.ReadUntil | src/read.rs:124 | the loop reads what `read_until(0)` reads |
| Reader.ResolveName | src/read.rs:118-149 | a resolved item keeps its location; a name position at or past the end of the stream is a zero-length read |
| Reader.ResolvedNameRead | src/read.rs:118-149 | a resolved path is the zero-free run at the name position, ended by a zero or by the end of the stream, and lies inside the name block |
| Reader.ReadName | src/read.rs:118-149 | the method resolves one name as `ResolveName` does |
| Reader.CollectSpec | src/read.rs:117-150 | when all names resolve, item i is the resolution of location i |
| Reader.CollectFirstError | src/read.rs:117-150 | the first failing name ends the loop with that name's error |
| Reader.ResolveNamesSpec | src/read.rs:117-150 | when the names resolve, each item is its location's resolution |
| Reader.ResolveNamesAllOk | src/read.rs:117-150 | when every location resolves, the items are those resolutions in table order |
| Reader.ResolvedLocations | src/read.rs:146-149 | one item per location, holding that location |
| Reader.ReadNames | src/read.rs:116-150 | the loop over the locations gives `ResolveNames` |
| Reader.ParsedHeader | src/read.rs:70-94 | an accepted stream has a valid header, holds the table and name-block length, and has as many items as the header counts |
| Reader.ParsedLocations | src/read.rs:99-109 | each accepted item holds the location decoded from its table record |
| Reader.ParsedNames | src/read.rs:117-150 | each accepted item's path was read from the name block at its offset |
| Reader.ParsedNoOverlap | src/read.rs:152-169 | in an accepted bank no two file payloads share a byte |
| Reader.ParseAccepts | src/read.rs:70-172 | a valid header, a present table, resolving names and no overlap together make the stream accepted |
| Reader.ReadCatalog | src/read.rs:70-172 | the reader's steps as methods compute `Parse` |
| Reader.Contents | src/read.rs:182-190 | reading succeeds exactly when the payload is empty or lies inside the stream; it gives `data_size` bytes, those of the stream at the data offset, and an empty payload reads back empty even past the end (the seek and the empty read both succeed) |
| Reader.MetadataOf | src/read.rs:195-206 | an item that is not the metadata file is refused before reading; otherwise the record is the decoding of its contents, and undecodable contents are an error |
| Reader.BankReader.New | src/read.rs:70-172 | a reader is made exactly when the stream parses, and its error is the parse error otherwise |
| Reader.BankReader.Items | src/read.rs:175-177 | the items are the parse of the reader's stream |
| Reader.BankReader.ReadContents | src/read.rs:182-190 | the method reads the item's payload as `Contents` does |
| Reader.BankReader.ReadMetadata | src/read.rs:195-206 | the method behaves as `MetadataOf` |
| RoundTrip.ExpectedCatalog | src/write.rs:224-250 | item i of the written bank has entry i's name and the location the writer recorded for it |
| RoundTrip.ImageHeader | src/write.rs:180-190 | the written header is accepted and counts the entries |
| RoundTrip.ImageLocations | src/write.rs:224-250 | the reader decodes from the written table exactly the locations the writer recorded |
| RoundTrip.ImageBlockLength | src/write.rs:252-255 | the reader reads back the name-block length the writer wrote |
| RoundTrip.ReadsTerminatedName | src/read.rs:124 | at a name followed by a zero, `read_until(0)` returns the name and the zero |
| RoundTrip.ResolvesTo | src/read.rs:118-149 | a zero-free name followed by a zero inside the name block resolves to that name |
| RoundTrip.ImageNames | src/write.rs:239-243 | every written name lies at its recorded offset in the name block, followed by a zero |
| RoundTrip.ImageFilesInOrder | src/write.rs:245-248 | the writer gives later files later payloads: each file ends before any later file begins |
| RoundTrip.ImageNoOverlap | src/read.rs:152-169 | no two payloads the writer lays out overlap |
| RoundTrip.ImageContents | src/write.rs:257-267 | each file's contents are read back from its recorded location |
| RoundTrip.ParseBankImage | src/read.rs:70-172 | the reader accepts the writer's image of zero-free names and lists exactly the expected catalogue |
| Writer.WithDefaultId | src/write.rs:107-134 | only the id changes; a given id is kept; a synthesized id holds only id characters |
| Writer.AuthorDotName | src/write.rs:109-121 | without an id, the id is the sanitised author, a dot and the sanitised name, and is itself sanitised |
| Writer.MissingPartId | src/write.rs:109-121 | without an id, an empty sanitised author leaves the sanitised name alone as the id, and an empty sanitised name leaves the author; the made-up id is itself sanitised |
| Writer.AuthorTitleExample | src/write.rs:109-121 | author "Author" and name "Title" give id "author.title" |
| Writer.WithDefaultMetadata | src/write.rs:163-171 | the written items always hold a metadata item; given items holding one are unchanged, otherwise the default record is appended |
| Writer.InsertKind | src/write.rs:173-177 | inserting into an ascending kind list keeps it ascending and adds exactly that kind |
| Writer.KindSet | src/write.rs:173-177 | the kinds are ascending, without repeats, and are exactly the kinds of the items |
| Writer.FileNamesLengthMatches | src/write.rs:203-213 | the precomputed length of a kind's file names is the length of their part of the name block |
| Writer.NameBlockLengthMatches | src/write.rs:197-217 | the precomputed name-block length is the length of the name block written |
| Writer.EntryCount | src/write.rs:185-188 | the location count is the number of items plus one per kind that has a directory |
| Writer.PrecomputedLayout | src/write.rs:194-222 | the precomputed first data offset is where the payloads start |
| Writer.BankWriter.constructor | src/write.rs:40-46 | a new writer holds no items and has not been written |
| Writer.BankWriter.Add | src/write.rs:59-83 | on a written bank: an error and no change; otherwise: the item is appended with its kind's directory prefixed to its name |
| Writer.BankWriter.AddMetadata | src/write.rs:107-145 | appends the metadata file "index.json" holding the record with a default id, or fails when written |
| Writer.BankWriter.Write | src/write.rs:153-272 | a second write fails and changes nothing; the first adds the default record if needed, appends exactly `BankBytes(items)` to the output and marks the writer written |
| Writer.BankWriter.WriteBank | src/write.rs:173-267 | appends the header, table, name-block length, name block and payloads |
| Writer.BankWriter.WriteHeader | src/write.rs:180-190 | appends the 24-byte header |
| Writer.BankWriter.WriteLocations | src/write.rs:224-250 | appends the location table and returns the name block it built |
| Writer.BankWriter.WriteKindLocations | src/write.rs:226-250 | appends one kind's directory record (when it has one) and its files' records |
| Writer.BankWriter.WriteItemLocations | src/write.rs:239-249 | appends the records of one kind's files, advancing the data offset by each file's size |
| Writer.BankWriter.WriteContents | src/write.rs:257-267 | appends the payloads kind by kind |
| Writer.BankWriter.WriteKindContents | src/write.rs:259-266 | appends one kind's payloads in insertion order |
| WriteRead.WriteThenRead | src/write.rs:153-272 | for zero-free paths and a bank within 64-bit offsets, the reader accepts the written bytes, lists the expected catalogue, and reads back every file's contents |
| WriteRead.ItemsReadBack | src/write.rs:59-83 | every item added is listed by the reader under its path, and its contents read back |
| WriteRead.MetadataOnlyEntries | src/write.rs:163-171 | a bank holding only the metadata record has one entry, "index.json" |
| WriteRead.BlankBank | tests/blank.rs:10-15 | the blank bank parses to one file item, "index.json", holding the record's JSON |
| WriteRead.CreateAndLoadBlank | tests/blank.rs:17-37 | a blank bank written and reopened lists exactly one item, the metadata file, and it holds the default record |
| WriteRead.BackgroundEntries | src/write.rs:173-250 | a background image and the metadata record are laid out as those two files, background first |
| WriteRead.BackgroundPngStem | src/read.rs:37-44 | the stem of "background.png" is "background" |
| WriteRead.BackgroundPngIsBackground | src/read.rs:37-44 | a file named "background.png" is a background file |
| WriteRead.PngItems | src/write.rs:163-171 | after "background.png" is added as a background, `write` commits the image and then the default record |
| WriteRead.PngBank | tests/background.rs:8-21 | the bank of a PNG background parses, and its first item is the file "background.png" holding the image |
| WriteRead.CreatePngBank | tests/background.rs:8-29 | reopened, the first item is a background file with path "background.png" and holds the image |
| WriteRead.AddAfterWriting | tests/basics.rs:6-14 | after `write`, adding the metadata record fails |
| ReleaseBuild.WrappedDataEnd | src/lib.rs:288-290 | `data_end` in a release build is the exact end, or the exact end less 2^64 when the sum overflows |
| ReleaseBuild.WrappingCheckWindows | src/read.rs:160-169 | the release-build pairwise check fails only with an overlap of two items, and passes only if the first item's wrapped end is not past the second's offset |
| ReleaseBuild.WrappingAgreesWithoutOverflow | src/read.rs:160-169 | when no end reaches 2^64, the release-build check gives the checked result |
| ReleaseBuild.WrappingCheckAcceptsOverlap | src/read.rs:152-169 | files at (100, 2^64 - 50) and (200, 10) overlap; the release-build check accepts them and the checked one stops at the overflow |
| ReleaseBuild.WrappingResolveName | src/read.rs:118-137 | a name resolved with wrapping sums keeps its location and is the run read at the wrapped position |
| ReleaseBuild.WrappingResolveNameReadsHeader | src/read.rs:118-137 | in a 56-byte bank with name offset 2^64 - 56 and an empty name block, the release build takes the 17 header bytes as the name; the checked reading fails with an overflow, and no name for that location lies inside the block |

## Left out

- `add_file` (write.rs:92-100) reads its contents from the file system. The model has `Add`, which `add_file` calls with those contents.
- `BankReader::open` (read.rs:226-232) opens a file. The model starts from the stream's bytes.
- `parse_metadata` and `serde_json::to_vec_pretty` (read.rs:237-239, write.rs:131-133) are JSON. They are parameters: `decode` of `ReadMetadata`, and `encodeMetadata` of the writer. The JSON value tree of `extra` is a datatype left uninterpreted.
- `copy` (read.rs:213-219) writes a file to disk from the current stream position. Nothing in the reader model tracks a stream position.
- Stream positions and seeks are not modelled. The reader is a function of the whole byte sequence, and each read takes its bytes at an explicit index.
- I/O errors other than running out of bytes are not modelled. A failed `write_all` or `flush` cannot happen in the model, where the output is a byte sequence.
- Logging (`debug!`, `trace!`) and the command-line tool under src/bin are not part of this model.
- `file_name_lossy` and `file_name_bytes` (read.rs:56-58, write.rs:26-28) convert between OS strings and UTF-8, replacing invalid sequences. Paths are byte sequences throughout, so the model has no lossy step.
- Kinds.SanitizeId: keeps ASCII letters and digits only. Rust's `char::is_alphanumeric` also keeps non-ASCII letters, and `to_ascii_lowercase` leaves them as they are. The model has no Unicode tables.
- Writer.BankWriter.Write: the writer's `usize` sums and `as u64` casts are taken as exact. Offsets are written modulo 2^64 by `LE64`. The round-trip lemmas require the bank to fit in 64-bit offsets (`Addressable`), so a bank beyond that is not claimed to read back.
- Reader.BankReader.ReadContents: the source allocates `vec![0_u8; data_size as usize]` (read.rs:185) before it seeks. For a `data_size` of 2^63 or more that allocation panics (capacity overflow), and a smaller size the process cannot allocate aborts it. Parsing lets such an item through, for example a lone file at offset 0 of size 2^63, since the last file's end is never computed. The model returns `Err(UnexpectedEof)` for it, as for any non-empty payload past the end of the source. The `as usize` truncation on 32-bit targets is not modelled either.
- Reader.ResolveName: follows overflow-checked (debug-build) semantics. The u64 additions at read.rs:120 and 133 panic on overflow there, and the model returns `Err(Overflow)`. A release build wraps them modulo 2^64 and can accept a name read from outside the name block. `ReleaseBuild.WrappingResolveName` models that build; see Findings.
- Catalog.CheckWindows: follows overflow-checked (debug-build) semantics. `data_end` (lib.rs:288-290) panics there when it overflows a u64, and the model returns `Err(Overflow)` for that pair. A release build wraps the end modulo 2^64 and can accept two overlapping payloads. `ReleaseBuild.WrappingCheckWindows` models that build; see Findings. `ParsedNoOverlap` and `OverlapCheckIffNoOverlap` hold for the checked reading only.
- The `Vec::with_capacity` hints (read.rs:97, 116, 118) have no effect on results and are not modelled.
- The zero-length-name error's message (read.rs:128) is a plain string literal, so the position in braces is never filled in. The model records the position in the error value; messages are not modelled.
- An item added with empty contents is listed by the reader as a directory, because `is_directory` is `data_size == 0`. The source documents this limit (write.rs:48-50). The model keeps it, and the round-trip lemmas state contents only for file entries.
- WriteRead.WriteThenRead: the round trip requires item paths without a zero byte. The writer accepts any path, but the reader stops a name at its first zero, so such a path comes back cut short.

## Findings

| source | as written | input that shows it | evidently intended | confidence | as-written member | corrected member |
|---|---|---|---|---|---|---|
| src/lib.rs:288-290, src/read.rs:160-169 | `data_end` adds two u64 with `+`, which wraps in a release build | files at (offset 100, size 2^64 - 50) and (offset 200, size 10): the wrapped end is 50, not past 200, so the overlapping pair is accepted | a pair whose exact end passes the next offset, or whose end does not fit a u64, is rejected | not executed | ReleaseBuild.WrappingCheckAcceptsOverlap | Catalog.OverlapCheckIffNoOverlap |
| src/read.rs:120, 133 | `file_name_pos` and the bound test add u64 with `+`, which wraps in a release build | one location with name offset 2^64 - 56 and an empty name block at 56: the name position wraps to 0, and the 17 header bytes pass the bound test 18 <= 56 as the name | a name position past the u64 range is rejected, and every name lies inside the name block | not executed | ReleaseBuild.WrappingResolveNameReadsHeader | Reader.ResolvedNameRead |
