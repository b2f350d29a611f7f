/**
 * Reading back what the writer wrote: the reader accepts every bank image
 * whose names are free of zero bytes and whose size fits the u64 fields, and
 * the catalog it reads lists the entries in table order, each with its name
 * and the location the writer recorded for it; each file's contents are
 * read back from that location.
 */
module RoundTrip {
  import opened Bytes
  import opened Outcome
  import opened Kinds
  import opened Layout
  import opened Catalog
  import opened Reader

  // ---------------------------------------------------------------------
  // The catalog a bank image should read back as

  /**
   * The location the writer records for entry i: its name offset, data
   * offset and size.
   */
  function EntryLocation(es: seq<Entry>, i: nat): Location
    requires i < |es| && Addressable(es)
  {
    RecordedFieldsFit(es, i);
    Location(|NameBlock(es[..i])|, DataOffset(es[..i], es[i], DataStart(es)), Size(es[i]))
  }

  /** Entry by entry, its name and its recorded location. */
  function ExpectedCatalog(es: seq<Entry>): (r: seq<CatalogItem>)
    requires Addressable(es)
    ensures |r| == |es|
    ensures forall i :: 0 <= i < |es| ==> r[i].path == es[i].name && r[i].location == EntryLocation(es, i)
  {
    seq(|es|, i requires 0 <= i < |es| => CatalogItem(es[i].name, EntryLocation(es, i)))
  }

  /** Entry by entry, the location the writer records for it. */
  function ExpectedLocations(es: seq<Entry>): (r: seq<Location>)
    requires Addressable(es)
    ensures |r| == |es|
    ensures forall i :: 0 <= i < |es| ==> r[i] == EntryLocation(es, i)
  {
    seq(|es|, i requires 0 <= i < |es| => EntryLocation(es, i))
  }

  /** No name contains the zero byte that terminates it in the name block. */
  predicate ZeroFreeNames(es: seq<Entry>)
  {
    forall i :: 0 <= i < |es| ==> ZERO !in es[i].name
  }

  /** The length of the image of es: its fixed part, its name block and its payloads. */
  function ImageSize(es: seq<Entry>): nat
  {
    NameBlockStart(|es|) + |NameBlock(es)| + |Payload(es)|
  }

  /** A bank image small enough that every offset and length fits in a u64. */
  predicate Addressable(es: seq<Entry>)
  {
    ImageSize(es) < TWO_64
  }

  // ---------------------------------------------------------------------
  // Where the parts of the image sit

  /** Each part of a five-part concatenation sits between the lengths of the parts before it. */
  lemma FiveParts<T>(a: seq<T>, b: seq<T>, c: seq<T>, d: seq<T>, e: seq<T>)
    ensures var s := a + b + c + d + e;
            var i1 := |a|;
            var i2 := i1 + |b|;
            var i3 := i2 + |c|;
            var i4 := i3 + |d|;
            |s| == i4 + |e| && s[..i1] == a && s[i1..i2] == b && s[i2..i3] == c && s[i3..i4] == d && s[i4..] == e
  {
    var s := a + b + c + d + e;
    var i1 := |a|;
    var i2 := i1 + |b|;
    var i3 := i2 + |c|;
    var i4 := i3 + |d|;
    assert s == (a + b + c + d) + e;
    assert s[i4..] == e;
    var s4 := a + b + c + d;
    assert s[..i4] == s4;
    assert s4[i3..] == d;
    assert s[i3..i4] == d;
    var s3 := a + b + c;
    assert s4[..i3] == s3 && s3[i2..] == c;
    assert s[i2..i3] == c;
    var s2 := a + b;
    assert s3[..i2] == s2 && s2[i1..] == b;
    assert s[i1..i2] == b;
    assert s2[..i1] == a;
  }

  /** The image is its header, table, block length, name block and payload, in that order. */
  lemma ImageLayout(es: seq<Entry>)
    ensures var s := BankImage(es);
            var start := NameBlockStart(|es|);
            var nb := NameBlock(es);
            |s| == DataStart(es) + |Payload(es)|
            && DataStart(es) == start + |nb|
            && s[..HEADER_SIZE] == Header(|es|)
            && s[HEADER_SIZE..start - 8] == LocationTable(es, DataStart(es))
            && s[start - 8..start] == LE64(|nb|)
            && s[start..DataStart(es)] == nb
            && s[DataStart(es)..] == Payload(es)
  {
    var h, t, l, nb, p := Header(|es|), LocationTable(es, DataStart(es)), LE64(|NameBlock(es)|), NameBlock(es), Payload(es);
    FiveParts(h, t, l, nb, p);
    assert BankImage(es) == h + t + l + nb + p;
    assert |h| + |t| + |l| == NameBlockStart(|es|);
  }

  /** The header of an image announces one location per entry. */
  lemma ImageHeader(es: seq<Entry>)
    requires Addressable(es)
    ensures ParseHeader(BankImage(es)) == Ok(|es|)
  {
    var s := BankImage(es);
    ImageLayout(es);
    var h := Header(|es|);
    assert s[..4] == h[..4] && s[4..8] == h[4..8] && s[8..16] == h[8..16] && s[16..HEADER_SIZE] == h[16..HEADER_SIZE];
    assert h == FILE_ID + CORRUPTION_CHECK_BYTES + FORMAT_VERSION + LE64(|es|);
    assert h[..4] == FILE_ID && h[4..8] == CORRUPTION_CHECK_BYTES && h[8..16] == FORMAT_VERSION;
    assert h[16..HEADER_SIZE] == LE64(|es|);
    assert |es| <= LOCATION_BLOCK_SIZE * |es|;
    LE64RoundTrip(|es|);
  }

  /** A slice of a slice is a slice of the whole. */
  lemma SliceOfSlice<T>(s: seq<T>, lo: nat, hi: nat, i: nat, j: nat)
    requires lo <= hi <= |s| && i <= j <= hi - lo
    ensures s[lo..hi][i..j] == s[lo + i..lo + j]
  {
    forall k | 0 <= k < j - i ensures s[lo..hi][i..j][k] == s[lo + i..lo + j][k] {
      assert s[lo..hi][i + k] == s[lo + i + k];
    }
  }

  /** Slot i of the image's table holds the bytes recorded for entry i. */
  lemma ImageSlot(es: seq<Entry>, i: nat)
    requires i < |es|
    ensures LocationAt(i) + LOCATION_BLOCK_SIZE <= |BankImage(es)|
    ensures BankImage(es)[LocationAt(i)..LocationAt(i) + LOCATION_BLOCK_SIZE] == LocationBytes(es[..i], es[i], DataStart(es))
  {
    var s := BankImage(es);
    ImageLayout(es);
    LocationInTable(es, i, DataStart(es));
    assert LOCATION_BLOCK_SIZE * (i + 1) <= LOCATION_BLOCK_SIZE * |es|;
    var lo, hi := LOCATION_BLOCK_SIZE * i, LOCATION_BLOCK_SIZE * (i + 1);
    assert hi == lo + LOCATION_BLOCK_SIZE;
    SliceOfSlice(s, HEADER_SIZE, NameBlockStart(|es|) - 8, lo, hi);
  }

  /** Each slot of the image's table decodes to the location recorded for its entry. */
  lemma ImageLocations(es: seq<Entry>)
    requires Addressable(es) && NameBlockStart(|es|) <= |BankImage(es)|
    ensures TableLocations(BankImage(es), |es|) == ExpectedLocations(es)
  {
    var s := BankImage(es);
    TableLocationsAt(s, |es|);
    var locs := TableLocations(s, |es|);
    forall i | 0 <= i < |es| ensures locs[i] == EntryLocation(es, i) {
      ImageSlot(es, i);
      DecodeRecordedLocation(es, i);
    }
  }

  /** The 24 bytes written for an entry decode to its recorded location. */
  lemma DecodeRecordedLocation(es: seq<Entry>, i: nat)
    requires i < |es| && Addressable(es)
    ensures DecodeLocation(LocationBytes(es[..i], es[i], DataStart(es))) == EntryLocation(es, i)
  {
    var a, b, c := |NameBlock(es[..i])|, DataOffset(es[..i], es[i], DataStart(es)), Size(es[i]);
    RecordedFieldsFit(es, i);
    var x := LE64(a) + LE64(b) + LE64(c);
    assert x[0..8] == LE64(a) && x[8..16] == LE64(b) && x[16..24] == LE64(c);
    LE64RoundTrip(a);
    LE64RoundTrip(b);
    LE64RoundTrip(c);
  }

  /** In an addressable image every recorded field fits in a u64. */
  lemma RecordedFieldsFit(es: seq<Entry>, i: nat)
    requires i < |es| && Addressable(es)
    ensures |NameBlock(es[..i])| < TWO_64
    ensures DataOffset(es[..i], es[i], DataStart(es)) < TWO_64
    ensures Size(es[i]) < TWO_64
  {
    ImageLength(es);
    NameBlockPrefix(es, i);
    PayloadPrefix(es, i);
    if es[i].FileEntry? {
      ContentsInPayload(es, i);
    }
  }

  /** The image is as long as its fixed part, its name block and its payloads together. */
  lemma ImageLength(es: seq<Entry>)
    ensures |BankImage(es)| == ImageSize(es) == DataStart(es) + |Payload(es)|
    ensures DataStart(es) == NameBlockStart(|es|) + |NameBlock(es)|
  {
  }

  /** The image's block-length field holds the length of its name block. */
  lemma ImageBlockLength(es: seq<Entry>)
    requires Addressable(es)
    ensures NameBlockStart(|es|) <= |BankImage(es)|
    ensures BlockLength(BankImage(es), NameBlockStart(|es|)) == |NameBlock(es)|
  {
    ImageLayout(es);
    LE64RoundTrip(|NameBlock(es)|);
  }

  // ---------------------------------------------------------------------
  // Names

  /** `read_until(0)` at the start of a zero-free name followed by a zero reads the name and the zero. */
  lemma {:induction false} ReadsTerminatedName(s: seq<byte>, pos: nat, name: seq<byte>)
    requires pos + |name| < |s| && s[pos..pos + |name| + 1] == name + [ZERO] && ZERO !in name
    ensures ReadUntilZero(s, pos) == name + [ZERO]
    decreases |name|
  {
    var r := name + [ZERO];
    if name == [] {
      assert s[pos] == r[0];
    } else {
      assert s[pos] == r[0] == name[0];
      assert s[pos + 1..pos + |name| + 1] == r[1..] == name[1..] + [ZERO];
      ReadsTerminatedName(s, pos + 1, name[1..]);
    }
  }

  /** Bytes [lo, hi) of a block placed at start of s are bytes [lo + start, hi + start) of s. */
  lemma NameAt(s: seq<byte>, start: nat, nb: seq<byte>, lo: nat, hi: nat)
    requires start + |nb| <= |s| && s[start..start + |nb|] == nb && lo <= hi <= |nb|
    ensures s[lo + start..hi + start] == nb[lo..hi]
  {
    SliceOfSlice(s, start, start + |nb|, lo, hi);
    assert start + lo == lo + start && start + hi == hi + start;
  }

  /**
   * The name a name block holds for a location: the item's path, free of
   * zero bytes and followed by one, sits at the location's name offset,
   * strictly inside the block.
   */
  ghost predicate NameInBlockAt(nb: seq<byte>, loc: Location, item: CatalogItem)
  {
    var lo := loc.fileNameOffset;
    item.location == loc && ZERO !in item.path && lo + |item.path| < |nb|
    && nb[lo..lo + |item.path| + 1] == item.path + [ZERO]
  }

  /** The names a name block holds for a list of locations, slot by slot. */
  ghost predicate NamesInBlock(nb: seq<byte>, locs: seq<Location>, items: seq<CatalogItem>)
  {
    |items| == |locs| && forall i :: 0 <= i < |locs| ==> NameInBlockAt(nb, locs[i], items[i])
  }

  /** A location whose zero-free name and its zero lie inside the name block resolves to that name. */
  lemma ResolvesTo(s: seq<byte>, start: nat, nb: seq<byte>, loc: Location, name: seq<byte>)
    requires start + |nb| < TWO_64 && start + |nb| <= |s| && s[start..start + |nb|] == nb
    requires loc.fileNameOffset + |name| < |nb| && ZERO !in name
    requires nb[loc.fileNameOffset..loc.fileNameOffset + |name| + 1] == name + [ZERO]
    ensures ResolveName(s, start, |nb|, loc) == Ok(CatalogItem(name, loc))
  {
    var lo := loc.fileNameOffset;
    var pos := lo + start;
    NameAt(s, start, nb, lo, lo + |name| + 1);
    ReadsTerminatedName(s, pos, name);
    var read := ReadUntilZero(s, pos);
    assert read == name + [ZERO];
    assert pos + |read| <= start + |nb| < TWO_64;
    assert WithoutTerminator(read) == name;
  }

  /** Locations whose names all sit in the name block resolve to those names, in order. */
  lemma ResolvesBlock(s: seq<byte>, start: nat, nb: seq<byte>, locs: seq<Location>, items: seq<CatalogItem>)
    requires start + |nb| < TWO_64 && start + |nb| <= |s| && s[start..start + |nb|] == nb
    requires NamesInBlock(nb, locs, items)
    ensures ResolveNames(s, start, |nb|, locs) == Ok(items)
  {
    forall i | 0 <= i < |locs| ensures ResolveName(s, start, |nb|, locs[i]) == Ok(items[i]) {
      ResolvesTo(s, start, nb, locs[i], items[i].path);
      assert CatalogItem(items[i].path, locs[i]) == items[i];
    }
    ResolveNamesAllOk(s, start, |nb|, locs, items);
  }

  /** Entry i's name, then a zero, sit at its recorded name offset in the name block. */
  lemma ImageNameAt(es: seq<Entry>, i: nat)
    requires Addressable(es) && ZeroFreeNames(es) && i < |es|
    ensures NameInBlockAt(NameBlock(es), ExpectedLocations(es)[i], ExpectedCatalog(es)[i])
  {
    var loc, item := ExpectedLocations(es)[i], ExpectedCatalog(es)[i];
    assert item == CatalogItem(es[i].name, loc);
    assert loc.fileNameOffset == |NameBlock(es[..i])|;
    assert ZERO !in es[i].name;
    NameInBlock(es, i);
    NameFound(NameBlock(es), loc, item, |NameBlock(es[..i + 1])|);
  }

  /** A zero-terminated path found at a location's name offset is the name the block holds for it. */
  lemma NameFound(nb: seq<byte>, loc: Location, item: CatalogItem, hi: nat)
    requires item.location == loc && ZERO !in item.path
    requires loc.fileNameOffset + |item.path| + 1 == hi <= |nb|
    requires nb[loc.fileNameOffset..hi] == item.path + [ZERO]
    ensures NameInBlockAt(nb, loc, item)
  {
  }

  /** The name block of an image holds every entry's name at its recorded offset. */
  lemma ImageNames(es: seq<Entry>)
    requires Addressable(es) && ZeroFreeNames(es)
    ensures NamesInBlock(NameBlock(es), ExpectedLocations(es), ExpectedCatalog(es))
  {
    forall i | 0 <= i < |es|
      ensures NameInBlockAt(NameBlock(es), ExpectedLocations(es)[i], ExpectedCatalog(es)[i])
    {
      ImageNameAt(es, i);
    }
  }

  /** The name block sits right after the block-length field. */
  lemma ImageNameBlock(es: seq<Entry>)
    ensures NameBlockStart(|es|) + |NameBlock(es)| <= |BankImage(es)|
    ensures BankImage(es)[NameBlockStart(|es|)..NameBlockStart(|es|) + |NameBlock(es)|] == NameBlock(es)
  {
    ImageLayout(es);
  }

  // ---------------------------------------------------------------------
  // Payloads

  /** The payloads of two files of an image lie one after the other, in entry order. */
  lemma ImageFilesInOrder(es: seq<Entry>, i: nat, j: nat)
    requires Addressable(es) && i < j < |es| && Size(es[i]) != 0 && Size(es[j]) != 0
    ensures EntryLocation(es, i).DataEnd() <= EntryLocation(es, j).dataOffset
  {
    ContentsInPayload(es, i);
    PayloadGrows(es, i + 1, j);
  }

  /** No two files of an image's catalog overlap. */
  lemma ImageNoOverlap(es: seq<Entry>)
    requires Addressable(es)
    ensures NoOverlap(ExpectedCatalog(es))
  {
    var items := ExpectedCatalog(es);
    forall i, j | 0 <= i < j < |items| && items[i].IsFile() && items[j].IsFile()
      ensures Disjoint(items[i].location, items[j].location)
    {
      ImageFilesInOrder(es, i, j);
    }
  }

  /** A file entry's contents are read back from its recorded location. */
  lemma ImageContents(es: seq<Entry>, i: nat)
    requires Addressable(es) && i < |es| && es[i].FileEntry?
    ensures Contents(BankImage(es), EntryLocation(es, i)) == Ok(es[i].contents)
  {
    var s := BankImage(es);
    ImagePayload(es);
    ContentsInPayload(es, i);
    var lo, hi := |Payload(es[..i])|, |Payload(es[..i + 1])|;
    SliceOfSlice(s, DataStart(es), |s|, lo, hi);
  }

  /** The payload area is the tail of the image. */
  lemma ImagePayload(es: seq<Entry>)
    ensures DataStart(es) <= |BankImage(es)|
    ensures BankImage(es)[DataStart(es)..|BankImage(es)|] == Payload(es)
  {
    ImageLayout(es);
    assert BankImage(es)[DataStart(es)..|BankImage(es)|] == BankImage(es)[DataStart(es)..];
  }

  // ---------------------------------------------------------------------
  // The round trip

  /** The reader accepts a bank image and reads back its entries, in table order. */
  lemma ParseBankImage(es: seq<Entry>)
    requires Addressable(es) && ZeroFreeNames(es)
    ensures Parse(BankImage(es)) == Ok(ExpectedCatalog(es))
  {
    var s := BankImage(es);
    var start := NameBlockStart(|es|);
    var items := ExpectedCatalog(es);
    ImageHeader(es);
    ImageBlockLength(es);
    ImageLocations(es);
    ImageNameBlock(es);
    ImageNames(es);
    ResolvesBlock(s, start, NameBlock(es), ExpectedLocations(es), items);
    ImageNoOverlap(es);
    ParseAccepts(s, items);
  }
}
