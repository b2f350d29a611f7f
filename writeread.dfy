/**
 * A bank the writer emits, handed to the reader: every item added comes
 * back with its path and its contents, and the two banks the test suite
 * builds (a blank bank, and one holding a PNG background) read back as the
 * tests expect.
 */
module WriteRead {
  import opened Bytes
  import opened Outcome
  import opened Paths
  import opened Kinds
  import opened Layout
  import opened Catalog
  import opened Reader
  import opened Writer
  import opened RoundTrip

  /** No item path holds the zero byte that ends a name in the name block. */
  predicate ZeroFreePaths(items: seq<Item>)
  {
    forall i :: 0 <= i < |items| ==> ZERO !in items[i].path
  }

  // ---------------------------------------------------------------------
  // Names the writer lays out

  lemma ZeroFreeConcat(a: seq<Entry>, b: seq<Entry>)
    requires ZeroFreeNames(a) && ZeroFreeNames(b)
    ensures ZeroFreeNames(a + b)
  {
    forall i | 0 <= i < |a + b| ensures ZERO !in (a + b)[i].name {
      if i >= |a| {
        assert (a + b)[i] == b[i - |a|];
      }
    }
  }

  /** The file entries of a kind are named by item paths. */
  lemma {:induction false} FilesZeroFree(items: seq<Item>, k: ItemKind)
    requires ZeroFreePaths(items)
    ensures ZeroFreeNames(FilesOfKind(items, k))
    decreases |items|
  {
    if items != [] {
      var n := |items| - 1;
      forall i | 0 <= i < n ensures ZERO !in items[..n][i].path {
        assert items[..n][i] == items[i];
      }
      FilesZeroFree(items[..n], k);
      var last: seq<Entry> := if items[n].kind == k then [FileEntry(items[n].path, items[n].contents)] else [];
      ZeroFreeConcat(FilesOfKind(items[..n], k), last);
    }
  }

  /** Directory names are lower-case ASCII words, so none holds a zero byte. */
  lemma DirectoryZeroFree(k: ItemKind)
    ensures ZeroFreeNames(DirectoryEntries(k))
  {
    DirectoryNames(k);
    if Directory(k).Some? {
      LowerWordBytes(Directory(k).value);
    }
  }

  lemma {:induction false} GroupZeroFree(kinds: seq<ItemKind>, items: seq<Item>)
    requires ZeroFreePaths(items)
    ensures ZeroFreeNames(GroupEntries(kinds, items))
    decreases |kinds|
  {
    if kinds != [] {
      var n := |kinds| - 1;
      GroupZeroFree(kinds[..n], items);
      DirectoryZeroFree(kinds[n]);
      FilesZeroFree(items, kinds[n]);
      ZeroFreeConcat(DirectoryEntries(kinds[n]), FilesOfKind(items, kinds[n]));
      ZeroFreeConcat(GroupEntries(kinds[..n], items), KindEntries(kinds[n], items));
    }
  }

  // ---------------------------------------------------------------------
  // Where an item's entry is

  /** Item i is among the file entries of its own kind. */
  lemma {:induction false} FileInKind(items: seq<Item>, i: nat)
    requires i < |items|
    ensures FileEntry(items[i].path, items[i].contents) in FilesOfKind(items, items[i].kind)
    decreases |items|
  {
    var n := |items| - 1;
    if i < n {
      assert items[..n][i] == items[i];
      FileInKind(items[..n], i);
    }
  }

  /** An entry of one of the kinds is an entry of the group. */
  lemma {:induction false} EntryInGroup(kinds: seq<ItemKind>, items: seq<Item>, k: ItemKind, e: Entry)
    requires k in kinds && e in KindEntries(k, items)
    ensures e in GroupEntries(kinds, items)
    decreases |kinds|
  {
    var n := |kinds| - 1;
    if kinds[n] != k {
      var j :| 0 <= j < |kinds| && kinds[j] == k;
      assert kinds[..n][j] == k;
      EntryInGroup(kinds[..n], items, k, e);
    }
  }

  // ---------------------------------------------------------------------
  // The round trip through the writer

  /**
   * `write` followed by `BankReader::new`: the reader accepts the bank and
   * lists its entries in table order, each with its name and the location
   * the writer recorded, and each file's contents are read back from it.
   */
  lemma WriteThenRead(items: seq<Item>)
    requires ZeroFreePaths(items) && Addressable(Entries(items))
    ensures Parse(BankBytes(items)) == Ok(ExpectedCatalog(Entries(items)))
    ensures forall i :: 0 <= i < |Entries(items)| && Entries(items)[i].FileEntry? ==>
              Contents(BankBytes(items), ExpectedCatalog(Entries(items))[i].location) == Ok(Entries(items)[i].contents)
  {
    var es := Entries(items);
    GroupZeroFree(KindSet(items), items);
    ParseBankImage(es);
    forall i | 0 <= i < |es| && es[i].FileEntry?
      ensures Contents(BankBytes(items), ExpectedCatalog(es)[i].location) == Ok(es[i].contents)
    {
      ImageContents(es, i);
    }
  }

  /** Every item added is listed by the reader under its path, and its contents read back. */
  lemma ItemsReadBack(items: seq<Item>)
    requires ZeroFreePaths(items) && Addressable(Entries(items))
    ensures forall i :: 0 <= i < |items| ==>
              exists j :: 0 <= j < |ExpectedCatalog(Entries(items))|
                          && ExpectedCatalog(Entries(items))[j].path == items[i].path
                          && Contents(BankBytes(items), ExpectedCatalog(Entries(items))[j].location) == Ok(items[i].contents)
  {
    var es := Entries(items);
    var catalog := ExpectedCatalog(es);
    WriteThenRead(items);
    forall i | 0 <= i < |items|
      ensures exists j :: 0 <= j < |catalog| && catalog[j].path == items[i].path
                          && Contents(BankBytes(items), catalog[j].location) == Ok(items[i].contents)
    {
      var e := FileEntry(items[i].path, items[i].contents);
      FileInKind(items, i);
      assert HasKind(items, items[i].kind);
      EntryInGroup(KindSet(items), items, items[i].kind, e);
      var j :| 0 <= j < |es| && es[j] == e;
      assert catalog[j].path == e.name;
    }
  }

  // ---------------------------------------------------------------------
  // A blank bank

  /** The record a bank gets when none was added: the default one, whose id stays empty. */
  lemma DefaultRecord()
    ensures WithDefaultId(DEFAULT_METADATA) == DEFAULT_METADATA
  {
    assert SanitizeId("") == "";
  }

  /** One item: one kind. */
  lemma KindSetOne(a: Item)
    ensures KindSet([a]) == [a.kind]
  {
    assert [a][..0] == [];
  }

  /** Two items of distinct kinds, in kind order: those two kinds. */
  lemma KindSetTwo(a: Item, b: Item)
    requires Index(a.kind) < Index(b.kind)
    ensures KindSet([a, b]) == [a.kind, b.kind]
  {
    assert [a, b][..1] == [a];
    KindSetOne(a);
    assert [a.kind][1..] == [];
    assert InsertKind([a.kind], b.kind) == [a.kind] + InsertKind([], b.kind);
  }

  /** The files of kind k among items of which only the last has it. */
  lemma FilesOfLastKind(items: seq<Item>, k: ItemKind)
    requires items != [] && items[|items| - 1].kind == k
    requires forall i :: 0 <= i < |items| - 1 ==> items[i].kind != k
    ensures FilesOfKind(items, k) == [FileEntry(items[|items| - 1].path, items[|items| - 1].contents)]
  {
    var n := |items| - 1;
    NoFilesOfKind(items[..n], k);
  }

  lemma {:induction false} NoFilesOfKind(items: seq<Item>, k: ItemKind)
    requires forall i :: 0 <= i < |items| ==> items[i].kind != k
    ensures FilesOfKind(items, k) == []
    decreases |items|
  {
    if items != [] {
      var n := |items| - 1;
      assert forall i :: 0 <= i < n ==> items[..n][i] == items[i];
      NoFilesOfKind(items[..n], k);
    }
  }

  /** The entries of kinds that have no directory: their files, kind after kind. */
  lemma GroupOfTwo(a: ItemKind, b: ItemKind, items: seq<Item>)
    requires DirectoryEntries(a) == [] && DirectoryEntries(b) == []
    ensures GroupEntries([a, b], items) == FilesOfKind(items, a) + FilesOfKind(items, b)
  {
    var kinds := [a, b];
    GroupStep(kinds, 0, items);
    GroupStep(kinds, 1, items);
    assert kinds[..0] == [] && kinds[..1] == [a] && kinds[..2] == kinds;
  }

  /** The name block and payload of a single file entry. */
  lemma OneFile(a: Entry)
    requires a.FileEntry?
    ensures NameBlock([a]) == a.name + [ZERO] && Payload([a]) == a.contents
  {
    assert [a][..0] == [];
  }

  /** The name block and payload of two file entries. */
  lemma TwoFiles(a: Entry, b: Entry)
    requires a.FileEntry? && b.FileEntry?
    ensures |NameBlock([a, b])| == |a.name| + 1 + |b.name| + 1
    ensures Payload([a, b]) == a.contents + b.contents
  {
    assert [a, b][..1] == [a];
    OneFile(a);
  }

  /** A bank of one file with a short name and a payload under 4 GiB has every offset in range. */
  lemma OneFileAddressable(a: Entry)
    requires a.FileEntry? && |a.name| < 0x1_0000 && |a.contents| < 0x1_0000_0000
    ensures Addressable([a])
  {
    OneFile(a);
  }

  /** Two files with short names and payloads under 4 GiB each: every offset in range. */
  lemma TwoFilesAddressable(a: Entry, b: Entry)
    requires a.FileEntry? && |a.name| < 0x1_0000 && |a.contents| < 0x1_0000_0000
    requires b.FileEntry? && |b.name| < 0x1_0000 && |b.contents| < 0x1_0000_0000
    ensures Addressable([a, b])
  {
    TwoFiles(a, b);
  }

  /** "index.json" holds no zero byte. */
  lemma MetadataNameZeroFree()
    ensures ZERO !in AsciiBytes(METADATA_FILE_NAME)
  {
    assert AsciiBytes(METADATA_FILE_NAME) == [105, 110, 100, 101, 120, 46, 106, 115, 111, 110];
  }

  /** "background.png" holds no zero byte. */
  lemma BackgroundNameZeroFree()
    ensures ZERO !in BackgroundPngName()
  {
    assert IsLowerAsciiWord(BACKGROUND_FILE_STEM) && IsLowerAsciiWord("png");
    LowerWordBytes(BACKGROUND_FILE_STEM);
    LowerWordBytes("png");
  }

  /** A bank holding only its metadata record has one entry, the record's file. */
  lemma MetadataOnlyEntries(json: seq<byte>)
    ensures Entries([MetadataItem(json)]) == [FileEntry(AsciiBytes(METADATA_FILE_NAME), json)]
  {
    var items := [MetadataItem(json)];
    KindSetOne(items[0]);
    FilesOfLastKind(items, Metadata);
    assert [Metadata][..0] == [];
    assert GroupEntries([Metadata], items) == KindEntries(Metadata, items);
  }

  /** A path equals itself ignoring ASCII case. */
  lemma EqIgnoreAsciiCaseReflexive(a: seq<byte>)
    ensures EqIgnoreAsciiCase(a, a)
  {
  }

  /** A non-empty file the writer lays out is listed as a file, under its name, and reads back. */
  lemma FileReadsBack(items: seq<Item>, i: nat)
    requires ZeroFreePaths(items) && Addressable(Entries(items))
    requires i < |Entries(items)| && Entries(items)[i].FileEntry? && Entries(items)[i].contents != []
    ensures Parse(BankBytes(items)).Ok? && |Parse(BankBytes(items)).value| == |Entries(items)|
    ensures Parse(BankBytes(items)).value[i].path == Entries(items)[i].name
    ensures Parse(BankBytes(items)).value[i].IsFile()
    ensures Contents(BankBytes(items), Parse(BankBytes(items)).value[i].location) == Ok(Entries(items)[i].contents)
  {
    WriteThenRead(items);
  }

  /** The bank `write` emits when only the metadata record `json` was added, as the reader sees it. */
  lemma BlankBank(json: seq<byte>)
    requires 0 < |json| < 0x1_0000_0000
    ensures Parse(BankBytes([MetadataItem(json)])).Ok?
    ensures |Parse(BankBytes([MetadataItem(json)])).value| == 1
    ensures Parse(BankBytes([MetadataItem(json)])).value[0].path == AsciiBytes(METADATA_FILE_NAME)
    ensures Parse(BankBytes([MetadataItem(json)])).value[0].IsFile()
    ensures Contents(BankBytes([MetadataItem(json)]), Parse(BankBytes([MetadataItem(json)])).value[0].location) == Ok(json)
  {
    var items := [MetadataItem(json)];
    MetadataOnlyEntries(json);
    OneFileAddressable(Entries(items)[0]);
    MetadataNameZeroFree();
    FileReadsBack(items, 0);
  }

  /**
   * Writing a bank with nothing added, then opening it: the reader accepts
   * it, its only item is the metadata file "index.json", and that file
   * holds the default record. The record's JSON serialization and its
   * parser are parameters; the parser is required to read back what the
   * serializer wrote.
   */
  method CreateAndLoadBlank(encode: Metadata -> seq<byte>, decode: seq<byte> -> Option<Metadata>)
    returns (r: Result<BankReader>, metadata: Result<Metadata>)
    requires 0 < |encode(DEFAULT_METADATA)| < 0x1_0000_0000
    requires decode(encode(DEFAULT_METADATA)) == Some(DEFAULT_METADATA)
    ensures r.Ok? && r.value.Valid()
    ensures |r.value.Items()| == 1 && r.value.Items()[0].IsMetadataFile()
    ensures r.value.Items()[0].path == AsciiBytes(METADATA_FILE_NAME)
    ensures metadata == Ok(DEFAULT_METADATA)
  {
    var writer := new BankWriter([], encode);
    var written := writer.Write();
    var json := encode(DEFAULT_METADATA);
    DefaultRecord();
    assert writer.items == [MetadataItem(json)];
    assert writer.out == BankBytes(writer.items);
    BlankBank(json);
    r := BankReader.New(writer.out);
    var item := r.value.Items()[0];
    EqIgnoreAsciiCaseReflexive(item.path);
    metadata := r.value.ReadMetadata(item, decode);
  }

  // ---------------------------------------------------------------------
  // A background image

  /** "background.png": the background stem, a dot and the png extension. */
  function BackgroundPngName(): seq<byte>
  {
    AsciiBytes(BACKGROUND_FILE_STEM) + [DOT] + AsciiBytes("png")
  }

  /** A bank of a background image and the metadata record has those two files as its entries, in that order. */
  lemma BackgroundEntries(png: seq<byte>, json: seq<byte>)
    ensures Entries([Item(Background, png, BackgroundPngName()), MetadataItem(json)])
            == [FileEntry(BackgroundPngName(), png), FileEntry(AsciiBytes(METADATA_FILE_NAME), json)]
  {
    var items := [Item(Background, png, BackgroundPngName()), MetadataItem(json)];
    KindSetTwo(items[0], items[1]);
    GroupOfTwo(Background, Metadata, items);
    FilesOfLastKind(items, Metadata);
    FilesOfLastKind(items[..1], Background);
    assert FilesOfKind(items, Background) == FilesOfKind(items[..1], Background);
  }

  /** The stem of "background.png" is "background". */
  lemma BackgroundPngStem()
    ensures FileStem(BackgroundPngName()) == Some(AsciiBytes(BACKGROUND_FILE_STEM))
  {
    assert IsLowerAsciiWord(BACKGROUND_FILE_STEM) && IsLowerAsciiWord("png");
    LowerWordBytes(BACKGROUND_FILE_STEM);
    LowerWordBytes("png");
    StemAndExtension(AsciiBytes(BACKGROUND_FILE_STEM), AsciiBytes("png"));
  }

  /** The bank `write` emits for a background image and the metadata record, as the reader sees it. */
  lemma PngBank(png: seq<byte>, json: seq<byte>)
    requires 0 < |png| < 0x1_0000_0000 && |json| < 0x1_0000_0000
    ensures var s := BankBytes([Item(Background, png, BackgroundPngName()), MetadataItem(json)]);
            Parse(s).Ok? && Parse(s).value != [] && Parse(s).value[0].path == BackgroundPngName()
            && Parse(s).value[0].IsFile() && Contents(s, Parse(s).value[0].location) == Ok(png)
  {
    var items := [Item(Background, png, BackgroundPngName()), MetadataItem(json)];
    BackgroundEntries(png, json);
    TwoFilesAddressable(Entries(items)[0], Entries(items)[1]);
    MetadataNameZeroFree();
    BackgroundNameZeroFree();
    FileReadsBack(items, 0);
  }

  /** A file named "background.png" is a background file. */
  lemma BackgroundPngIsBackground(item: CatalogItem)
    requires item.path == BackgroundPngName() && item.IsFile()
    ensures item.IsBackgroundFile()
  {
    BackgroundPngStem();
    EqIgnoreAsciiCaseReflexive(AsciiBytes(BACKGROUND_FILE_STEM));
  }

  /** The items `write` commits after "background.png" was added: the image, then the default record. */
  lemma PngItems(png: seq<byte>, encode: Metadata -> seq<byte>)
    ensures var added := [Item(Background, png, ItemPath(Background, BackgroundPngName()))];
            WithDefaultMetadata(added, encode) == [Item(Background, png, BackgroundPngName()), MetadataItem(encode(DEFAULT_METADATA))]
  {
    var added := [Item(Background, png, ItemPath(Background, BackgroundPngName()))];
    assert DirectoryName(Background) == None;
    assert !HasKind(added, Metadata);
    DefaultRecord();
  }

  /**
   * Adding "background.png" as a background image, writing the bank and
   * opening it: the reader accepts it, and its first item is a background
   * file with that path, holding the image.
   */
  method CreatePngBank(png: seq<byte>, encode: Metadata -> seq<byte>) returns (r: Result<BankReader>)
    requires 0 < |png| < 0x1_0000_0000 && |encode(DEFAULT_METADATA)| < 0x1_0000_0000
    ensures r.Ok? && r.value.Valid() && r.value.Items() != []
    ensures r.value.Items()[0].IsBackgroundFile()
    ensures r.value.Items()[0].path == BackgroundPngName()
    ensures Contents(r.value.source, r.value.Items()[0].location) == Ok(png)
  {
    var writer := new BankWriter([], encode);
    var added := writer.Add(Background, BackgroundPngName(), png);
    PngItems(png, encode);
    var written := writer.Write();
    var json := encode(DEFAULT_METADATA);
    assert writer.items == [Item(Background, png, BackgroundPngName()), MetadataItem(json)];
    assert writer.out == [] + BankBytes(writer.items) == BankBytes(writer.items);
    PngBank(png, json);
    r := BankReader.New(writer.out);
    assert r.value.Items() == Parse(writer.out).value;
    BackgroundPngIsBackground(r.value.Items()[0]);
  }

  // ---------------------------------------------------------------------
  // Adding after writing

  /** A bank that has been written refuses further items, the default record included. */
  method AddAfterWriting(encode: Metadata -> seq<byte>) returns (r: Result<()>)
    ensures r == Err(AddAfterWrite)
  {
    var writer := new BankWriter([], encode);
    var written := writer.Write();
    r := writer.AddMetadata(DEFAULT_METADATA);
  }
}
