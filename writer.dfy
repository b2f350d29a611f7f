/**
 * The bank writer: items are collected with `Add` and `AddMetadata`, then
 * `Write` emits the whole bank in one forward pass. The byte stream the
 * writer is attached to is the field `out`, which the writer only appends to.
 */
module Writer {
  import opened Bytes
  import opened Outcome
  import opened Kinds
  import opened Layout

  /** An item waiting to be written: its kind, its contents and its path within the bank. */
  datatype Item = Item(kind: ItemKind, contents: seq<byte>, path: seq<byte>)

  /** The bytes of a kind's directory name, when it has one. */
  function DirectoryName(k: ItemKind): Option<seq<byte>>
  {
    match Directory(k)
    case None => None
    case Some(d) => Some(AsciiBytes(d))
  }

  /** The path `add` stores: the kind's directory, a separator and the name; or the name alone. */
  function ItemPath(k: ItemKind, fileName: seq<byte>): seq<byte>
  {
    match DirectoryName(k)
    case None => fileName
    case Some(d) => d + [PATH_SEPARATOR] + fileName
  }

  /** Some item has kind k. */
  predicate HasKind(items: seq<Item>, k: ItemKind)
  {
    exists i :: 0 <= i < |items| && items[i].kind == k
  }

  // ---------------------------------------------------------------------
  // Bank ids

  /**
   * The id `add_metadata` makes up when none is given: the sanitized author
   * and the sanitized name, each left out when empty, joined by a dot.
   */
  function SynthesizedId(author: string, name: string): string
  {
    var a := SanitizeId(author);
    var n := SanitizeId(name);
    if a == "" then n else if n == "" then a else a + "." + n
  }

  /** The record `add_metadata` serializes: the given one, with an id filled in if it had none. */
  function WithDefaultId(m: Metadata): (r: Metadata)
    ensures r == m.(id := r.id)
    ensures m.id != "" ==> r.id == m.id
    ensures m.id == "" ==> forall i :: 0 <= i < |r.id| ==> IsIdChar(r.id[i])
  {
    if m.id == "" then m.(id := SynthesizedId(m.author, m.name)) else m
  }

  /**
   * With neither part empty, the made-up id is "author.name" over the
   * sanitized parts; sanitizing it again changes nothing.
   */
  lemma AuthorDotName(m: Metadata)
    requires m.id == "" && SanitizeId(m.author) != "" && SanitizeId(m.name) != ""
    ensures WithDefaultId(m).id == SanitizeId(m.author) + "." + SanitizeId(m.name)
    ensures SanitizeId(WithDefaultId(m).id) == WithDefaultId(m).id
  {
    SanitizeIdKeepsIds(WithDefaultId(m).id);
  }

  /**
   * With one part empty, the made-up id is the other part alone, with no
   * dot; with both empty it is empty. Either way it is already sanitized.
   */
  lemma MissingPartId(m: Metadata)
    requires m.id == ""
    ensures SanitizeId(m.author) == "" ==> WithDefaultId(m).id == SanitizeId(m.name)
    ensures SanitizeId(m.name) == "" ==> WithDefaultId(m).id == SanitizeId(m.author)
    ensures SanitizeId(WithDefaultId(m).id) == WithDefaultId(m).id
  {
    SanitizeIdKeepsIds(WithDefaultId(m).id);
  }

  /** A record by "Author" titled "Title" gets the id "author.title". */
  lemma AuthorTitleExample(m: Metadata)
    requires m.id == "" && m.author == "Author" && m.name == "Title"
    ensures WithDefaultId(m).id == "author.title"
  {
    SanitizeAuthor();
    SanitizeTitle();
    assert "author" + "." + "title" == "author.title";
  }

  lemma SanitizeAuthor()
    ensures SanitizeId("Author") == "author"
  {
    assert "Author"[1..] == "uthor";
    SanitizeIdKeepsIds("uthor");
  }

  lemma SanitizeTitle()
    ensures SanitizeId("Title") == "title"
  {
    assert "Title"[1..] == "itle";
    SanitizeIdKeepsIds("itle");
  }

  /** The item `add_metadata` adds for a record, given the record's serialization. */
  function MetadataItem(json: seq<byte>): Item
  {
    Item(Metadata, json, AsciiBytes(METADATA_FILE_NAME))
  }

  /** The items `write` lays out: a default metadata record is added when there is none. */
  function WithDefaultMetadata(items: seq<Item>, encode: Metadata -> seq<byte>): (r: seq<Item>)
    ensures HasKind(r, Metadata)
    ensures HasKind(items, Metadata) ==> r == items
    ensures !HasKind(items, Metadata) ==> r == items + [MetadataItem(encode(WithDefaultId(DEFAULT_METADATA)))]
  {
    if HasKind(items, Metadata) then items
    else
      var r := items + [MetadataItem(encode(WithDefaultId(DEFAULT_METADATA)))];
      assert r[|items|].kind == Metadata;
      r
  }

  // ---------------------------------------------------------------------
  // The kinds present, in bank order

  /** Kinds in strictly increasing declaration order: a `BTreeSet<ItemKind>` in iteration order. */
  predicate Ascending(ks: seq<ItemKind>)
  {
    forall i, j :: 0 <= i < j < |ks| ==> Index(ks[i]) < Index(ks[j])
  }

  /** `BTreeSet::insert`. */
  function InsertKind(ks: seq<ItemKind>, k: ItemKind): (r: seq<ItemKind>)
    requires Ascending(ks)
    ensures Ascending(r)
    ensures forall x :: x in r <==> x in ks || x == k
  {
    if ks == [] then [k]
    else if Index(k) < Index(ks[0]) then [k] + ks
    else if k == ks[0] then ks
    else
      IndexInjective(k, ks[0]);
      var tail := InsertKind(ks[1..], k);
      assert forall x :: x in tail ==> Index(ks[0]) < Index(x) by {
        forall x | x in tail ensures Index(ks[0]) < Index(x) {
          if x in ks[1..] {
            var i :| 0 <= i < |ks| - 1 && ks[1..][i] == x;
            assert ks[i + 1] == x;
          }
        }
      }
      [ks[0]] + tail
  }

  /** The set of the items' kinds, collected in item order. */
  function KindSet(items: seq<Item>): (r: seq<ItemKind>)
    ensures Ascending(r)
    ensures forall k :: k in r <==> HasKind(items, k)
  {
    if items == [] then []
    else
      var n := |items| - 1;
      var r := InsertKind(KindSet(items[..n]), items[n].kind);
      forall k ensures HasKind(items, k) <==> HasKind(items[..n], k) || items[n].kind == k {
        HasKindStep(items, k);
      }
      r
  }

  /** The kinds of a list of items are those of all but the last, and the last's. */
  lemma HasKindStep(items: seq<Item>, k: ItemKind)
    requires items != []
    ensures HasKind(items, k) <==> HasKind(items[..|items| - 1], k) || items[|items| - 1].kind == k
  {
    var n := |items| - 1;
    if HasKind(items[..n], k) {
      var i :| 0 <= i < n && items[..n][i].kind == k;
      assert items[i].kind == k;
    }
    if HasKind(items, k) && items[n].kind != k {
      var i :| 0 <= i < |items| && items[i].kind == k;
      assert items[..n][i].kind == k;
    }
  }

  // ---------------------------------------------------------------------
  // The entries `write` emits, kind by kind

  /** The file entries for the items of kind k, in item order. */
  function FilesOfKind(items: seq<Item>, k: ItemKind): seq<Entry>
  {
    if items == [] then []
    else
      var n := |items| - 1;
      FilesOfKind(items[..n], k) + (if items[n].kind == k then [FileEntry(items[n].path, items[n].contents)] else [])
  }

  /** The directory entry a kind needs, if any. */
  function DirectoryEntries(k: ItemKind): seq<Entry>
  {
    match DirectoryName(k)
    case None => []
    case Some(d) => [DirEntry(d)]
  }

  /** A kind's entries: its directory, then its files. */
  function KindEntries(k: ItemKind, items: seq<Item>): seq<Entry>
  {
    DirectoryEntries(k) + FilesOfKind(items, k)
  }

  /** The entries of several kinds, kind after kind. */
  function GroupEntries(kinds: seq<ItemKind>, items: seq<Item>): seq<Entry>
  {
    if kinds == [] then []
    else
      var n := |kinds| - 1;
      GroupEntries(kinds[..n], items) + KindEntries(kinds[n], items)
  }

  /** Every entry of the bank, in the order of the location table. */
  function Entries(items: seq<Item>): seq<Entry>
  {
    GroupEntries(KindSet(items), items)
  }

  /** The bytes `write` emits for these items. */
  function BankBytes(items: seq<Item>): seq<byte>
  {
    BankImage(Entries(items))
  }

  // ---------------------------------------------------------------------
  // The counts `write` works out before it emits the table

  /** How many of the kinds need a directory entry. */
  function DirectoryCount(kinds: seq<ItemKind>): nat
  {
    if kinds == [] then 0
    else
      var n := |kinds| - 1;
      DirectoryCount(kinds[..n]) + |DirectoryEntries(kinds[n])|
  }

  /** Sum of the name lengths, each plus its terminator, of the items of kind k. */
  function FileNamesLength(items: seq<Item>, k: ItemKind): nat
  {
    if items == [] then 0
    else
      var n := |items| - 1;
      FileNamesLength(items[..n], k) + (if items[n].kind == k then |items[n].path| + 1 else 0)
  }

  /** The length of a kind's directory name plus its terminator, or 0. */
  function DirectoryNameLength(k: ItemKind): nat
  {
    match DirectoryName(k)
    case None => 0
    case Some(d) => |d| + 1
  }

  /** The name block length `write` computes before building the block. */
  function NameBlockLength(kinds: seq<ItemKind>, items: seq<Item>): nat
  {
    if kinds == [] then 0
    else
      var n := |kinds| - 1;
      NameBlockLength(kinds[..n], items) + FileNamesLength(items, kinds[n]) + DirectoryNameLength(kinds[n])
  }

  lemma {:induction false} FileNamesLengthMatches(items: seq<Item>, k: ItemKind)
    ensures |NameBlock(FilesOfKind(items, k))| == FileNamesLength(items, k)
    decreases |items|
  {
    if items != [] {
      var n := |items| - 1;
      FileNamesLengthMatches(items[..n], k);
      if items[n].kind == k {
        AppendEntry(FilesOfKind(items[..n], k), FileEntry(items[n].path, items[n].contents), 0);
      } else {
        assert FilesOfKind(items, k) == FilesOfKind(items[..n], k);
      }
    }
  }

  /** The precomputed name block length is the length of the block `write` builds. */
  lemma {:induction false} NameBlockLengthMatches(kinds: seq<ItemKind>, items: seq<Item>)
    ensures NameBlockLength(kinds, items) == |NameBlock(GroupEntries(kinds, items))|
    decreases |kinds|
  {
    if kinds != [] {
      var n := |kinds| - 1;
      var k := kinds[n];
      NameBlockLengthMatches(kinds[..n], items);
      NameBlockConcat(GroupEntries(kinds[..n], items), KindEntries(k, items));
      NameBlockConcat(DirectoryEntries(k), FilesOfKind(items, k));
      FileNamesLengthMatches(items, k);
      if DirectoryName(k).Some? {
        AppendEntry([], DirEntry(DirectoryName(k).value), 0);
        assert [] + [DirEntry(DirectoryName(k).value)] == DirectoryEntries(k);
      }
    }
  }

  /** How many items of kind k there are. */
  function CountOfKind(items: seq<Item>, k: ItemKind): nat
  {
    |FilesOfKind(items, k)|
  }

  /** Total of the item counts of the kinds listed. */
  function CountOfKinds(kinds: seq<ItemKind>, items: seq<Item>): nat
  {
    if kinds == [] then 0
    else
      var n := |kinds| - 1;
      CountOfKinds(kinds[..n], items) + CountOfKind(items, kinds[n])
  }

  /** How many times k appears in kinds. */
  function Occurrences(kinds: seq<ItemKind>, k: ItemKind): nat
  {
    if kinds == [] then 0
    else
      var n := |kinds| - 1;
      Occurrences(kinds[..n], k) + (if kinds[n] == k then 1 else 0)
  }

  /** No kind is listed twice. */
  predicate Distinct(kinds: seq<ItemKind>)
  {
    forall i, j :: 0 <= i < j < |kinds| ==> kinds[i] != kinds[j]
  }

  lemma {:induction false} OccursOnce(kinds: seq<ItemKind>, k: ItemKind)
    requires Distinct(kinds)
    ensures Occurrences(kinds, k) == (if k in kinds then 1 else 0)
    decreases |kinds|
  {
    if kinds != [] {
      var n := |kinds| - 1;
      var init := kinds[..n];
      assert Distinct(init) by {
        forall i, j | 0 <= i < j < n ensures init[i] != init[j] {
          assert init[i] == kinds[i] && init[j] == kinds[j];
        }
      }
      OccursOnce(init, k);
      assert k in kinds <==> k in init || k == kinds[n] by {
        assert kinds == init + [kinds[n]];
      }
    }
  }

  lemma AscendingDistinct(kinds: seq<ItemKind>)
    requires Ascending(kinds)
    ensures Distinct(kinds)
  {
    forall i, j | 0 <= i < j < |kinds| ensures kinds[i] != kinds[j] {
      assert Index(kinds[i]) < Index(kinds[j]);
    }
  }

  lemma {:induction false} CountOfKindsNone(kinds: seq<ItemKind>)
    ensures CountOfKinds(kinds, []) == 0
    decreases |kinds|
  {
    if kinds != [] {
      CountOfKindsNone(kinds[..|kinds| - 1]);
    }
  }

  lemma {:induction false} CountOfKindsAppend(kinds: seq<ItemKind>, items: seq<Item>, x: Item)
    ensures CountOfKinds(kinds, items + [x]) == CountOfKinds(kinds, items) + Occurrences(kinds, x.kind)
    decreases |kinds|
  {
    if kinds != [] {
      var n := |kinds| - 1;
      CountOfKindsAppend(kinds[..n], items, x);
      assert (items + [x])[..|items|] == items;
    }
  }

  /** Listing each kind once, and every item's kind, counts every item once. */
  lemma {:induction false} CountOfKindsCoversItems(kinds: seq<ItemKind>, items: seq<Item>)
    requires Distinct(kinds)
    requires forall i :: 0 <= i < |items| ==> items[i].kind in kinds
    ensures CountOfKinds(kinds, items) == |items|
    decreases |items|
  {
    if items == [] {
      CountOfKindsNone(kinds);
    } else {
      var n := |items| - 1;
      CountOfKindsCoversItems(kinds, items[..n]);
      assert items == items[..n] + [items[n]];
      CountOfKindsAppend(kinds, items[..n], items[n]);
      OccursOnce(kinds, items[n].kind);
    }
  }

  lemma {:induction false} GroupEntriesCount(kinds: seq<ItemKind>, items: seq<Item>)
    ensures |GroupEntries(kinds, items)| == CountOfKinds(kinds, items) + DirectoryCount(kinds)
    decreases |kinds|
  {
    if kinds != [] {
      GroupEntriesCount(kinds[..|kinds| - 1], items);
    }
  }

  /** The table holds one location per item and one per directory: `location_count`. */
  lemma EntryCount(items: seq<Item>)
    ensures |Entries(items)| == |items| + DirectoryCount(KindSet(items))
  {
    var kinds := KindSet(items);
    forall i | 0 <= i < |items| ensures items[i].kind in kinds {
      assert HasKind(items, items[i].kind);
    }
    AscendingDistinct(kinds);
    CountOfKindsCoversItems(kinds, items);
    GroupEntriesCount(kinds, items);
  }

  /**
   * The counts `write` works out before emitting anything agree with the
   * bank it then lays out: the location count is the number of entries,
   * the name block length is the length of the block built, and the first
   * data offset is where the payloads start.
   */
  lemma PrecomputedLayout(items: seq<Item>)
    ensures |Entries(items)| == |items| + DirectoryCount(KindSet(items))
    ensures NameBlockLength(KindSet(items), items) == |NameBlock(Entries(items))|
    ensures |FILE_ID| + |CORRUPTION_CHECK_BYTES| + |FORMAT_VERSION| + 8
            + (|items| + DirectoryCount(KindSet(items))) * LOCATION_BLOCK_SIZE + 8
            + NameBlockLength(KindSet(items), items)
            == DataStart(Entries(items))
  {
    EntryCount(items);
    NameBlockLengthMatches(KindSet(items), items);
  }

  // ---------------------------------------------------------------------
  // The writer

  class BankWriter {
    /** Everything written to the underlying stream so far. */
    var out: seq<byte>
    var items: seq<Item>
    /** Whether `Write` has already committed the bank. */
    var written: bool
    /** The JSON serialization of a metadata record. */
    const encodeMetadata: Metadata -> seq<byte>

    constructor(inner: seq<byte>, encodeMetadata: Metadata -> seq<byte>)
      ensures out == inner && items == [] && !written
      ensures this.encodeMetadata == encodeMetadata
    {
      out := inner;
      items := [];
      written := false;
      this.encodeMetadata := encodeMetadata;
    }

    /** `add`: queue an item under its kind's directory; refused once the bank is written. */
    method Add(kind: ItemKind, fileName: seq<byte>, contents: seq<byte>) returns (r: Result<()>)
      modifies this`items
      ensures old(written) ==> r == Err(AddAfterWrite) && items == old(items)
      ensures !old(written) ==> r == Ok(()) && items == old(items) + [Item(kind, contents, ItemPath(kind, fileName))]
    {
      if written {
        return Err(AddAfterWrite);
      }
      var path := ItemPath(kind, fileName);
      items := items + [Item(kind, contents, path)];
      return Ok(());
    }

    /** `add_metadata`: queue the serialized record as "index.json", making up an id if it has none. */
    method AddMetadata(metadata: Metadata) returns (r: Result<()>)
      modifies this`items
      ensures old(written) ==> r == Err(AddAfterWrite) && items == old(items)
      ensures !old(written) ==> r == Ok(()) && items == old(items) + [MetadataItem(encodeMetadata(WithDefaultId(metadata)))]
    {
      var contents := encodeMetadata(WithDefaultId(metadata));
      r := Add(Metadata, AsciiBytes(METADATA_FILE_NAME), contents);
    }

    /**
     * `write`: emit the header, the location table, the name block and the
     * payloads, kind by kind in declaration order, each kind's directory
     * first and its items in the order they were added. Refused, with
     * nothing emitted, once the bank is written.
     */
    method Write() returns (r: Result<()>)
      modifies this
      ensures old(written) ==> r == Err(WriteAfterWrite) && out == old(out) && items == old(items) && written
      ensures !old(written) ==> r == Ok(()) && written
                                && items == WithDefaultMetadata(old(items), encodeMetadata)
                                && out == old(out) + BankBytes(items)
    {
      if written {
        return Err(WriteAfterWrite);
      }
      if !HasKind(items, Metadata) {
        var _ := AddMetadata(DEFAULT_METADATA);
      }
      assert items == WithDefaultMetadata(old(items), encodeMetadata);
      WriteBank();
      written := true;
      return Ok(());
    }

    /** The body of `write` once the metadata item is in place: the whole bank image. */
    method WriteBank()
      modifies this`out
      ensures out == old(out) + BankBytes(items)
    {
      var kinds := KindSet(items);
      ghost var start := out;
      ghost var all := Entries(items);

      // Header
      var fileCount := |items|;
      var directoryCount := DirectoryCount(kinds);
      var locationCount := fileCount + directoryCount;
      PrecomputedLayout(items);
      WriteHeader(locationCount);

      // Offsets
      var locationBlockStart := |FILE_ID| + |CORRUPTION_CHECK_BYTES| + |FORMAT_VERSION| + 8;
      var fileNameBlockLength := NameBlockLength(kinds, items);
      var dataOffset := locationBlockStart + locationCount * LOCATION_BLOCK_SIZE + 8 + fileNameBlockLength;
      assert dataOffset == DataStart(all);

      // Locations, then the name block they point into
      var fileNameBlock := WriteLocations(kinds, dataOffset);
      out := out + LE64(fileNameBlockLength);
      out := out + fileNameBlock;

      // Contents
      WriteContents(kinds);
      BankImageFrom(start, all);
    }

    /** The header: identifier, check bytes, format version and the number of locations. */
    method WriteHeader(locationCount: nat)
      modifies this`out
      ensures out == old(out) + Header(locationCount)
    {
      ghost var start := out;
      out := out + FILE_ID;
      AppendAssoc(start, FILE_ID, CORRUPTION_CHECK_BYTES);
      out := out + CORRUPTION_CHECK_BYTES;
      AppendAssoc(start, FILE_ID + CORRUPTION_CHECK_BYTES, FORMAT_VERSION);
      out := out + FORMAT_VERSION;
      AppendAssoc(start, FILE_ID + CORRUPTION_CHECK_BYTES + FORMAT_VERSION, LE64(locationCount));
      out := out + LE64(locationCount);
    }

    /**
     * The location loop of `write`: for each kind, its directory's location,
     * then one location per item of the kind, data offsets running on from
     * `dataStart`. Returns the name block the locations point into.
     */
    method WriteLocations(kinds: seq<ItemKind>, dataStart: nat) returns (fileNameBlock: seq<byte>)
      modifies this`out
      ensures out == old(out) + LocationTable(GroupEntries(kinds, items), dataStart)
      ensures fileNameBlock == NameBlock(GroupEntries(kinds, items))
    {
      fileNameBlock := [];
      var dataOffset := dataStart;
      ghost var start := out;
      for ki := 0 to |kinds|
        invariant out == start + LocationTable(GroupEntries(kinds[..ki], items), dataStart)
        invariant fileNameBlock == NameBlock(GroupEntries(kinds[..ki], items))
        invariant dataOffset == dataStart + |Payload(GroupEntries(kinds[..ki], items))|
      {
        GroupStep(kinds, ki, items);
        fileNameBlock, dataOffset :=
          WriteKindLocations(kinds[ki], dataStart, start, GroupEntries(kinds[..ki], items), fileNameBlock, dataOffset);
      }
      assert kinds[..|kinds|] == kinds;
    }

    /**
     * One kind's turn in the location loop: the directory's location, if the
     * kind has a directory, then the locations of the kind's items.
     */
    method WriteKindLocations(kind: ItemKind, dataStart: nat, ghost start: seq<byte>, ghost before: seq<Entry>,
                              nameBlock: seq<byte>, offset: nat)
      returns (fileNameBlock: seq<byte>, dataOffset: nat)
      modifies this`out
      requires out == start + LocationTable(before, dataStart)
      requires nameBlock == NameBlock(before) && offset == dataStart + |Payload(before)|
      ensures out == start + LocationTable(before + KindEntries(kind, items), dataStart)
      ensures fileNameBlock == NameBlock(before + KindEntries(kind, items))
      ensures dataOffset == dataStart + |Payload(before + KindEntries(kind, items))|
    {
      fileNameBlock, dataOffset := nameBlock, offset;
      var directory := DirectoryName(kind);
      if directory.Some? {
        var e := DirEntry(directory.value);
        LocationStep(start, before, e, dataStart);
        out := out + LE64(|fileNameBlock|);
        fileNameBlock := fileNameBlock + directory.value + [ZERO];
        out := out + LE64(0); // data offset
        out := out + LE64(0); // data size
        assert before + DirectoryEntries(kind) == before + [e];
      } else {
        assert before + DirectoryEntries(kind) == before;
      }
      fileNameBlock, dataOffset :=
        WriteItemLocations(kind, dataStart, start, before + DirectoryEntries(kind), fileNameBlock, dataOffset);
      AppendAssoc(before, DirectoryEntries(kind), FilesOfKind(items, kind));
      assert before + DirectoryEntries(kind) + FilesOfKind(items, kind) == before + KindEntries(kind, items);
    }

    /**
     * The locations of the items of one kind, in the order they were added,
     * each extending the name block by the item's path and a zero byte and
     * moving the data offset on by the item's size.
     */
    method WriteItemLocations(kind: ItemKind, dataStart: nat, ghost start: seq<byte>, ghost prefix: seq<Entry>,
                              nameBlock: seq<byte>, offset: nat)
      returns (fileNameBlock: seq<byte>, dataOffset: nat)
      modifies this`out
      requires out == start + LocationTable(prefix, dataStart)
      requires nameBlock == NameBlock(prefix) && offset == dataStart + |Payload(prefix)|
      ensures out == start + LocationTable(prefix + FilesOfKind(items, kind), dataStart)
      ensures fileNameBlock == NameBlock(prefix + FilesOfKind(items, kind))
      ensures dataOffset == dataStart + |Payload(prefix + FilesOfKind(items, kind))|
    {
      fileNameBlock, dataOffset := nameBlock, offset;
      ghost var done := prefix;
      assert done == prefix + FilesOfKind(items[..0], kind);
      for j := 0 to |items|
        invariant done == prefix + FilesOfKind(items[..j], kind)
        invariant out == start + LocationTable(done, dataStart)
        invariant fileNameBlock == NameBlock(done)
        invariant dataOffset == dataStart + |Payload(done)|
      {
        var item := items[j];
        FilesStep(items, j, kind);
        if item.kind == kind {
          var e := FileEntry(item.path, item.contents);
          LocationStep(start, done, e, dataStart);
          AppendAssoc(prefix, FilesOfKind(items[..j], kind), [e]);
          assert DataOffset(done, e, dataStart) == dataOffset && Size(e) == |item.contents|;
          out := out + LE64(|fileNameBlock|);
          fileNameBlock := fileNameBlock + item.path + [ZERO];
          var contentsLen := |item.contents|;
          out := out + LE64(dataOffset);
          out := out + LE64(contentsLen);
          dataOffset := dataOffset + contentsLen;
          done := done + [e];
        }
      }
      assert items[..|items|] == items;
    }

    /** The contents loop of `write`: each item's contents, kind by kind. */
    method WriteContents(kinds: seq<ItemKind>)
      modifies this`out
      ensures out == old(out) + Payload(GroupEntries(kinds, items))
    {
      ghost var start := out;
      for ki := 0 to |kinds|
        invariant out == start + Payload(GroupEntries(kinds[..ki], items))
      {
        var kind := kinds[ki];
        GroupPayloadStep(kinds, ki, items);
        AppendAssoc(start, Payload(GroupEntries(kinds[..ki], items)), Payload(FilesOfKind(items, kind)));
        WriteKindContents(kind);
      }
      assert kinds[..|kinds|] == kinds;
    }

    /** The contents of the items of one kind, in the order they were added. */
    method WriteKindContents(kind: ItemKind)
      modifies this`out
      ensures out == old(out) + Payload(FilesOfKind(items, kind))
    {
      ghost var start := out;
      for j := 0 to |items|
        invariant out == start + Payload(FilesOfKind(items[..j], kind))
      {
        var item := items[j];
        FilesStep(items, j, kind);
        if kind == item.kind {
          AppendEntry(FilesOfKind(items[..j], kind), FileEntry(item.path, item.contents), 0);
          AppendAssoc(start, Payload(FilesOfKind(items[..j], kind)), item.contents);
          out := out + item.contents;
        }
      }
      assert items[..|items|] == items;
    }
  }

  /** One more item extends the kind's file entries by that item's entry, if it has the kind. */
  lemma FilesStep(items: seq<Item>, j: nat, k: ItemKind)
    requires j < |items|
    ensures items[j].kind == k ==>
              FilesOfKind(items[..j + 1], k) == FilesOfKind(items[..j], k) + [FileEntry(items[j].path, items[j].contents)]
    ensures items[j].kind != k ==> FilesOfKind(items[..j + 1], k) == FilesOfKind(items[..j], k)
  {
    assert items[..j + 1][..j] == items[..j];
    assert FilesOfKind(items[..j], k) + [] == FilesOfKind(items[..j], k);
  }

  /** Writing one more location: the three fields extend the table by that entry's location. */
  lemma LocationStep(start: seq<byte>, done: seq<Entry>, e: Entry, dataStart: nat)
    ensures start + LocationTable(done, dataStart) + LE64(|NameBlock(done)|) + LE64(DataOffset(done, e, dataStart)) + LE64(Size(e))
            == start + LocationTable(done + [e], dataStart)
    ensures NameBlock(done) + e.name + [ZERO] == NameBlock(done + [e])
    ensures |Payload(done + [e])| == |Payload(done)| + Size(e)
  {
    AppendEntry(done, e, dataStart);
    var t := LocationTable(done, dataStart);
    var a, b, c := LE64(|NameBlock(done)|), LE64(DataOffset(done, e, dataStart)), LE64(Size(e));
    AppendAssoc(start, t, a);
    AppendAssoc(start, t + a, b);
    AppendAssoc(start, t + a + b, c);
    AppendAssoc(t, a, b);
    AppendAssoc(t, a + b, c);
  }

  /** One more kind extends the payload by that kind's files. */
  lemma GroupPayloadStep(kinds: seq<ItemKind>, ki: nat, items: seq<Item>)
    requires ki < |kinds|
    ensures Payload(GroupEntries(kinds[..ki + 1], items))
            == Payload(GroupEntries(kinds[..ki], items)) + Payload(FilesOfKind(items, kinds[ki]))
  {
    var k := kinds[ki];
    GroupStep(kinds, ki, items);
    PayloadConcat(GroupEntries(kinds[..ki], items), KindEntries(k, items));
    KindPayload(k, items);
  }

  /** One more kind extends the entries by that kind's entries. */
  lemma GroupStep(kinds: seq<ItemKind>, ki: nat, items: seq<Item>)
    requires ki < |kinds|
    ensures GroupEntries(kinds[..ki + 1], items) == GroupEntries(kinds[..ki], items) + KindEntries(kinds[ki], items)
  {
    assert kinds[..ki + 1][..ki] == kinds[..ki];
  }

  /** A kind's payload is its files' contents: its directory adds none. */
  lemma KindPayload(k: ItemKind, items: seq<Item>)
    ensures Payload(KindEntries(k, items)) == Payload(FilesOfKind(items, k))
  {
    PayloadConcat(DirectoryEntries(k), FilesOfKind(items, k));
    DirectoryPayload(k);
  }

  lemma DirectoryPayload(k: ItemKind)
    ensures Payload(DirectoryEntries(k)) == []
  {
    match DirectoryName(k)
    case None =>
    case Some(d) =>
      AppendEntry([], DirEntry(d), 0);
      assert [] + [DirEntry(d)] == DirectoryEntries(k);
  }

  /** Appending a bank's parts one after another appends the bank. */
  lemma BankImageFrom(start: seq<byte>, es: seq<Entry>)
    ensures start + Header(|es|) + LocationTable(es, DataStart(es)) + LE64(|NameBlock(es)|) + NameBlock(es) + Payload(es)
            == start + BankImage(es)
  {
    var h, t, l, nb, p := Header(|es|), LocationTable(es, DataStart(es)), LE64(|NameBlock(es)|), NameBlock(es), Payload(es);
    AppendAssoc(start, h, t);
    AppendAssoc(start, h + t, l);
    AppendAssoc(start, h + t + l, nb);
    AppendAssoc(start, h + t + l + nb, p);
  }
}
