/**
 * `BankReader`: checks the header, reads the location table, resolves each
 * location's zero-terminated name inside the name block, rejects
 * overlapping payloads, and then serves item contents and the metadata
 * record. The stream is the whole source as a byte sequence; a read at a
 * position is a slice of it.
 */
module Reader {
  import opened Bytes
  import opened Outcome
  import opened Kinds
  import opened Layout
  import opened Catalog

  // ---------------------------------------------------------------------
  // What the reader accepts

  /**
   * The identifier, the check bytes and the version, each read in full and
   * compared in turn, then the location count.
   */
  function ParseHeader(s: seq<byte>): (r: Result<u64>)
    ensures r.Ok? <==> HEADER_SIZE <= |s| && s[..4] == FILE_ID && s[4..8] == CORRUPTION_CHECK_BYTES
                       && s[8..16] == FORMAT_VERSION
    ensures r.Ok? ==> r.value == DecodeLE64(s[16..HEADER_SIZE])
  {
    if |s| < 4 then Err(UnexpectedEof)
    else if s[..4] != FILE_ID then Err(NotABank)
    else if |s| < 8 then Err(UnexpectedEof)
    else if s[4..8] != CORRUPTION_CHECK_BYTES then Err(UnexpectedCheckBytes(s[4..8]))
    else if |s| < 16 then Err(UnexpectedEof)
    else if s[8..16] != FORMAT_VERSION then Err(UnexpectedFormatVersion(s[8..16]))
    else if |s| < HEADER_SIZE then Err(UnexpectedEof)
    else Ok(DecodeLE64(s[16..HEADER_SIZE]))
  }

  /** Where location i starts in the stream. */
  function LocationAt(i: nat): nat
  {
    HEADER_SIZE + LOCATION_BLOCK_SIZE * i
  }

  lemma LocationAtGrows(i: nat, j: nat)
    requires i <= j
    ensures LocationAt(i) <= LocationAt(j)
    ensures i < j ==> LocationAt(i) + LOCATION_BLOCK_SIZE <= LocationAt(j)
  {
    assert LOCATION_BLOCK_SIZE * i <= LOCATION_BLOCK_SIZE * j;
    if i < j {
      assert LOCATION_BLOCK_SIZE * (i + 1) <= LOCATION_BLOCK_SIZE * j;
      assert LOCATION_BLOCK_SIZE * (i + 1) == LOCATION_BLOCK_SIZE * i + LOCATION_BLOCK_SIZE;
    }
  }

  /** Slot i + 1 starts right where slot i ends. */
  lemma LocationAtStep(i: nat)
    ensures LocationAt(i + 1) == LocationAt(i) + LOCATION_BLOCK_SIZE
  {
  }

  /** The first `count` locations of the table, in order. */
  function TableLocations(s: seq<byte>, count: nat): (r: seq<Location>)
    requires LocationAt(count) <= |s|
    ensures |r| == count
  {
    if count == 0 then []
    else
      var n := count - 1;
      LocationAtGrows(n, count);
      TableLocations(s, n) + [DecodeLocation(s[LocationAt(n)..LocationAt(n) + LOCATION_BLOCK_SIZE])]
  }

  /** One more slot of the table adds the location decoded from it. */
  lemma TableLocationsStep(s: seq<byte>, count: nat)
    requires LocationAt(count) + LOCATION_BLOCK_SIZE <= |s|
    ensures LocationAt(count + 1) <= |s|
    ensures TableLocations(s, count + 1)
            == TableLocations(s, count) + [DecodeLocation(s[LocationAt(count)..LocationAt(count) + LOCATION_BLOCK_SIZE])]
  {
    LocationAtStep(count);
  }

  /** A stream too short for slot i is too short for any table that holds it. */
  lemma ShortTable(s: seq<byte>, i: nat, count: nat)
    requires i < count && |s| < LocationAt(i) + LOCATION_BLOCK_SIZE
    ensures |s| < LocationAt(count)
  {
    LocationAtGrows(i, count);
  }

  /** Location i of the table is decoded from its own 24 bytes. */
  lemma {:induction false} TableLocationsAt(s: seq<byte>, count: nat)
    requires LocationAt(count) <= |s|
    ensures forall i :: 0 <= i < count ==>
              LocationAt(i) + LOCATION_BLOCK_SIZE <= |s|
              && TableLocations(s, count)[i] == DecodeLocation(s[LocationAt(i)..LocationAt(i) + LOCATION_BLOCK_SIZE])
  {
    if count > 0 {
      var n := count - 1;
      LocationAtGrows(n, count);
      TableLocationsAt(s, n);
    }
  }

  /**
   * `read_until(0)` at pos: the bytes up to and including the first zero,
   * or up to the end of the stream; nothing at or past the end.
   */
  function ReadUntilZero(s: seq<byte>, pos: nat): seq<byte>
    decreases |s| - pos
  {
    if pos >= |s| then []
    else if s[pos] == 0 then [0]
    else [s[pos]] + ReadUntilZero(s, pos + 1)
  }

  /**
   * What `read_until(0)` reads: the stream's bytes from pos, none of them
   * zero but the last, which is zero unless the stream ended first.
   */
  lemma {:induction false} ReadUntilZeroSpec(s: seq<byte>, pos: nat)
    ensures var r := ReadUntilZero(s, pos);
            (r == [] <==> pos >= |s|)
            && (r != [] ==> pos + |r| <= |s| && r == s[pos..pos + |r|])
            && (forall k :: 0 <= k < |r| - 1 ==> r[k] != 0)
            && (r != [] ==> r[|r| - 1] == 0 || pos + |r| == |s|)
    decreases |s| - pos
  {
    if pos >= |s| {
    } else if s[pos] == 0 {
      assert s[pos..pos + 1] == [0];
    } else {
      var t := ReadUntilZero(s, pos + 1);
      assert ReadUntilZero(s, pos) == [s[pos]] + t;
      ReadUntilZeroSpec(s, pos + 1);
      ConsRead(s, pos, t);
    }
  }

  /** A non-zero byte followed by what `read_until(0)` reads after it. */
  lemma ConsRead(s: seq<byte>, pos: nat, t: seq<byte>)
    requires pos < |s| && s[pos] != 0
    requires t != [] ==> pos + 1 + |t| <= |s| && t == s[pos + 1..pos + 1 + |t|]
    requires t == [] ==> pos + 1 >= |s|
    requires forall k :: 0 <= k < |t| - 1 ==> t[k] != 0
    requires t != [] ==> t[|t| - 1] == 0 || pos + 1 + |t| == |s|
    ensures var r := [s[pos]] + t;
            pos + |r| <= |s| && r == s[pos..pos + |r|]
            && (forall k :: 0 <= k < |r| - 1 ==> r[k] != 0)
            && (r[|r| - 1] == 0 || pos + |r| == |s|)
  {
    var r := [s[pos]] + t;
    assert s[pos..pos + |r|] == [s[pos]] + s[pos + 1..pos + |r|];
    forall k | 0 <= k < |r| - 1 ensures r[k] != 0 {
      if k > 0 {
        assert r[k] == t[k - 1];
      }
    }
  }

  /** Drop the terminating zero, absent when the read stopped at the end of the stream. */
  function WithoutTerminator(read: seq<byte>): seq<byte>
  {
    if read != [] && read[|read| - 1] == 0 then read[..|read| - 1] else read
  }

  /**
   * The item's path is the zero-free run of bytes at its name position,
   * ended by a zero or by the end of the stream, and it and its terminator
   * lie inside the name block.
   */
  ghost predicate NameRead(s: seq<byte>, start: nat, blockLength: nat, item: CatalogItem)
  {
    var pos := item.location.fileNameOffset + start;
    var end := pos + |item.path|;
    end <= |s| && s[pos..end] == item.path && 0 !in item.path
    && (end == |s| || s[end] == 0)
    && end <= start + blockLength
    && (end < |s| ==> end < start + blockLength)
  }

  /** One location's name, with the source's checks in its order. */
  function ResolveName(s: seq<byte>, start: nat, blockLength: nat, loc: Location): (r: Result<CatalogItem>)
    ensures r.Ok? ==> r.value.location == loc
    ensures loc.fileNameOffset + start < TWO_64 && loc.fileNameOffset + start >= |s|
            ==> r == Err(ZeroLengthName(loc.fileNameOffset + start))
  {
    var pos := loc.fileNameOffset + start;
    if pos >= TWO_64 then Err(Overflow)
    else
      var read := ReadUntilZero(s, pos);
      if read == [] then Err(ZeroLengthName(pos))
      else if pos + |read| >= TWO_64 || start + blockLength >= TWO_64 then Err(Overflow)
      else if pos + |read| > start + blockLength then Err(NameOutOfBounds)
      else Ok(CatalogItem(WithoutTerminator(read), loc))
  }

  /** A resolved name is the zero-free run at its position, inside the name block. */
  lemma ResolvedNameRead(s: seq<byte>, start: nat, blockLength: nat, loc: Location)
    requires ResolveName(s, start, blockLength, loc).Ok?
    ensures NameRead(s, start, blockLength, ResolveName(s, start, blockLength, loc).value)
  {
    var pos := loc.fileNameOffset + start;
    TerminatedName(s, pos);
  }

  /** The name `read_until(0)` finds at pos, once its terminator is dropped. */
  lemma TerminatedName(s: seq<byte>, pos: nat)
    requires ReadUntilZero(s, pos) != []
    ensures var read := ReadUntilZero(s, pos);
            var path := WithoutTerminator(read);
            var end := pos + |path|;
            end <= pos + |read| <= |s| && s[pos..end] == path && 0 !in path
            && (end == |s| || s[end] == 0)
            && (end < |s| ==> end < pos + |read|)
  {
    var read := ReadUntilZero(s, pos);
    ReadUntilZeroSpec(s, pos);
    var path := WithoutTerminator(read);
    var end := pos + |path|;
    assert path == read[..|path|];
    if read[|read| - 1] == 0 {
      assert end + 1 == pos + |read| && s[end] == read[|read| - 1];
    } else {
      assert path == read && end == |s|;
    }
    forall k | 0 <= k < |path| ensures path[k] != 0 {
      assert path[k] == read[k];
    }
  }

  /** Each location's name, resolved on its own. */
  function Resolutions(s: seq<byte>, start: nat, blockLength: nat, locs: seq<Location>): seq<Result<CatalogItem>>
  {
    seq(|locs|, i requires 0 <= i < |locs| => ResolveName(s, start, blockLength, locs[i]))
  }

  /** The items of a run of resolutions in order, or the first failure among them. */
  function Collect(rs: seq<Result<CatalogItem>>): (r: Result<seq<CatalogItem>>)
    ensures r.Ok? ==> |r.value| == |rs|
  {
    if rs == [] then Ok([])
    else
      var n := |rs| - 1;
      match Collect(rs[..n])
      case Err(e) => Err(e)
      case Ok(items) =>
        match rs[n]
        case Err(e) => Err(e)
        case Ok(item) => Ok(items + [item])
  }

  /** Every location's name in table order; the first failure is reported. */
  function ResolveNames(s: seq<byte>, start: nat, blockLength: nat, locs: seq<Location>): (r: Result<seq<CatalogItem>>)
    ensures r.Ok? ==> |r.value| == |locs|
  {
    Collect(Resolutions(s, start, blockLength, locs))
  }

  /** A collected list holds, at each index, that resolution's item. */
  lemma {:induction false} CollectSpec(rs: seq<Result<CatalogItem>>)
    requires Collect(rs).Ok?
    ensures forall i :: 0 <= i < |rs| ==> rs[i] == Ok(Collect(rs).value[i])
  {
    if rs != [] {
      var n := |rs| - 1;
      CollectSpec(rs[..n]);
      var items := Collect(rs[..n]).value;
      var all := Collect(rs).value;
      assert rs[n].Ok? && all == items + [rs[n].value];
      forall i | 0 <= i < |rs| ensures rs[i] == Ok(all[i]) {
        if i < n {
          assert rs[..n][i] == rs[i] && all[i] == items[i];
        }
      }
    }
  }

  /** Resolutions that all succeed collect to their items. */
  lemma {:induction false} CollectAllOk(rs: seq<Result<CatalogItem>>, items: seq<CatalogItem>)
    requires |items| == |rs| && forall i :: 0 <= i < |rs| ==> rs[i] == Ok(items[i])
    ensures Collect(rs) == Ok(items)
  {
    if rs != [] {
      var n := |rs| - 1;
      assert forall i :: 0 <= i < n ==> rs[..n][i] == Ok(items[..n][i]);
      CollectAllOk(rs[..n], items[..n]);
      assert items == items[..n] + [items[n]];
    }
  }

  /** Once a prefix of the resolutions fails, the whole run fails with the same error. */
  lemma {:induction false} CollectFirstError(rs: seq<Result<CatalogItem>>, k: nat)
    requires k <= |rs| && Collect(rs[..k]).Err?
    ensures Collect(rs) == Collect(rs[..k])
    decreases |rs| - k
  {
    if k < |rs| {
      assert rs[..k + 1][..k] == rs[..k];
      CollectFirstError(rs, k + 1);
    } else {
      assert rs[..k] == rs;
    }
  }

  /** A resolved list holds, at each index, that location's resolved item. */
  lemma ResolveNamesSpec(s: seq<byte>, start: nat, blockLength: nat, locs: seq<Location>)
    requires ResolveNames(s, start, blockLength, locs).Ok?
    ensures forall i :: 0 <= i < |locs| ==>
              ResolveName(s, start, blockLength, locs[i]) == Ok(ResolveNames(s, start, blockLength, locs).value[i])
  {
    var rs := Resolutions(s, start, blockLength, locs);
    CollectSpec(rs);
    forall i | 0 <= i < |locs|
      ensures ResolveName(s, start, blockLength, locs[i]) == Ok(ResolveNames(s, start, blockLength, locs).value[i])
    {
      assert rs[i] == ResolveName(s, start, blockLength, locs[i]);
    }
  }

  /** Locations whose names each resolve give the list of their items. */
  lemma ResolveNamesAllOk(s: seq<byte>, start: nat, blockLength: nat, locs: seq<Location>, items: seq<CatalogItem>)
    requires |items| == |locs|
    requires forall i :: 0 <= i < |locs| ==> ResolveName(s, start, blockLength, locs[i]) == Ok(items[i])
    ensures ResolveNames(s, start, blockLength, locs) == Ok(items)
  {
    var rs := Resolutions(s, start, blockLength, locs);
    forall i | 0 <= i < |rs| ensures rs[i] == Ok(items[i]) {
      assert rs[i] == ResolveName(s, start, blockLength, locs[i]);
    }
    CollectAllOk(rs, items);
  }

  /** Every item of a resolved list carries its own location, in order. */
  lemma ResolvedLocations(s: seq<byte>, start: nat, blockLength: nat, locs: seq<Location>, items: seq<CatalogItem>)
    requires ResolveNames(s, start, blockLength, locs) == Ok(items)
    ensures |items| == |locs|
    ensures forall i :: 0 <= i < |locs| ==> items[i].location == locs[i]
  {
    ResolveNamesSpec(s, start, blockLength, locs);
    forall i | 0 <= i < |locs| ensures items[i].location == locs[i] {
      assert ResolveName(s, start, blockLength, locs[i]) == Ok(items[i]);
    }
  }

  /** Every item of a resolved list carries the name read for it. */
  lemma ResolvedNamesRead(s: seq<byte>, start: nat, blockLength: nat, locs: seq<Location>, items: seq<CatalogItem>)
    requires ResolveNames(s, start, blockLength, locs) == Ok(items)
    ensures forall i :: 0 <= i < |items| ==> NameRead(s, start, blockLength, items[i])
  {
    ResolveNamesSpec(s, start, blockLength, locs);
    forall i | 0 <= i < |items| ensures NameRead(s, start, blockLength, items[i]) {
      assert ResolveName(s, start, blockLength, locs[i]) == Ok(items[i]);
      ResolvedNameRead(s, start, blockLength, locs[i]);
    }
  }

  /** `BankReader::new` as a function of the whole stream. */
  function Parse(s: seq<byte>): Result<seq<CatalogItem>>
  {
    match ParseHeader(s)
    case Err(e) => Err(e)
    case Ok(count) => ParseBody(s, count)
  }

  /** Everything after the header: the table, the block length, the names, the overlap check. */
  function ParseBody(s: seq<byte>, count: nat): Result<seq<CatalogItem>>
  {
    var start := NameBlockStart(count);
    if |s| < start then Err(UnexpectedEof)
    else CheckedNames(s, start, TableLocations(s, count))
  }

  /** The name-block length, read from the eight bytes just before the name block. */
  function BlockLength(s: seq<byte>, start: nat): u64
    requires 8 <= start <= |s|
  {
    DecodeLE64(s[start - 8..start])
  }

  /** The names of the locations, accepted only when no two file payloads overlap. */
  function CheckedNames(s: seq<byte>, start: nat, locs: seq<Location>): Result<seq<CatalogItem>>
    requires 8 <= start <= |s|
  {
    var blockLength := BlockLength(s, start);
    match ResolveNames(s, start, blockLength, locs)
    case Err(e) => Err(e)
    case Ok(items) =>
      match OverlapCheck(items)
      case Err(e) => Err(e)
      case Ok(_) => Ok(items)
  }

  /** Each header check rejects the stream with its own error, in order. */
  lemma HeaderErrors(s: seq<byte>)
    ensures |s| < 4 ==> Parse(s) == Err(UnexpectedEof)
    ensures 4 <= |s| && s[..4] != FILE_ID ==> Parse(s) == Err(NotABank)
    ensures 8 <= |s| && s[..4] == FILE_ID && s[4..8] != CORRUPTION_CHECK_BYTES
            ==> Parse(s) == Err(UnexpectedCheckBytes(s[4..8]))
    ensures 16 <= |s| && s[..4] == FILE_ID && s[4..8] == CORRUPTION_CHECK_BYTES && s[8..16] != FORMAT_VERSION
            ==> Parse(s) == Err(UnexpectedFormatVersion(s[8..16]))
  {
  }

  /** The stages a parsed stream passed: its header, its length, its names and the overlap check. */
  lemma ParsedStages(s: seq<byte>, items: seq<CatalogItem>)
    requires Parse(s) == Ok(items)
    ensures ParseHeader(s).Ok? && NameBlockStart(ParseHeader(s).value) <= |s|
    ensures var count := ParseHeader(s).value;
            var start := NameBlockStart(count);
            ResolveNames(s, start, BlockLength(s, start), TableLocations(s, count)) == Ok(items)
            && OverlapCheck(items).Ok?
  {
    var count := ParseHeader(s).value;
    var start := NameBlockStart(count);
    assert ParseBody(s, count) == Ok(items);
    CheckedStages(s, start, TableLocations(s, count), items);
  }

  /** The names of a checked list resolved, and its payloads passed the overlap check. */
  lemma CheckedStages(s: seq<byte>, start: nat, locs: seq<Location>, items: seq<CatalogItem>)
    requires 8 <= start <= |s| && CheckedNames(s, start, locs) == Ok(items)
    ensures ResolveNames(s, start, BlockLength(s, start), locs) == Ok(items) && OverlapCheck(items).Ok?
  {
  }

  /** A parsed stream has the header of a bank and one item per location. */
  lemma ParsedHeader(s: seq<byte>, items: seq<CatalogItem>)
    requires Parse(s) == Ok(items)
    ensures HEADER_SIZE <= |s| && s[..4] == FILE_ID && s[4..8] == CORRUPTION_CHECK_BYTES
            && s[8..16] == FORMAT_VERSION
    ensures NameBlockStart(DecodeLE64(s[16..HEADER_SIZE])) <= |s|
    ensures |items| == DecodeLE64(s[16..HEADER_SIZE])
  {
    ParsedStages(s, items);
  }

  /** Each parsed item carries the location stored in its slot of the table, in table order. */
  lemma ParsedLocations(s: seq<byte>, items: seq<CatalogItem>)
    requires Parse(s) == Ok(items)
    ensures forall i :: 0 <= i < |items| ==>
              LocationAt(i) + LOCATION_BLOCK_SIZE <= |s|
              && items[i].location == DecodeLocation(s[LocationAt(i)..LocationAt(i) + LOCATION_BLOCK_SIZE])
  {
    ParsedStages(s, items);
    var count := ParseHeader(s).value;
    var start := NameBlockStart(count);
    TableItems(s, count, BlockLength(s, start), items);
  }

  /** Items resolved from the table carry, each, the location decoded from its own slot. */
  lemma TableItems(s: seq<byte>, count: nat, blockLength: nat, items: seq<CatalogItem>)
    requires NameBlockStart(count) <= |s|
    requires ResolveNames(s, NameBlockStart(count), blockLength, TableLocations(s, count)) == Ok(items)
    ensures forall i :: 0 <= i < |items| ==>
              LocationAt(i) + LOCATION_BLOCK_SIZE <= |s|
              && items[i].location == DecodeLocation(s[LocationAt(i)..LocationAt(i) + LOCATION_BLOCK_SIZE])
  {
    ResolvedLocations(s, NameBlockStart(count), blockLength, TableLocations(s, count), items);
    TableLocationsAt(s, count);
  }

  /** Each parsed item's path is the zero-free name stored for it inside the name block. */
  lemma ParsedNames(s: seq<byte>, items: seq<CatalogItem>)
    requires Parse(s) == Ok(items)
    ensures ParseHeader(s).Ok? && NameBlockStart(ParseHeader(s).value) <= |s|
    ensures var start := NameBlockStart(ParseHeader(s).value);
            forall i :: 0 <= i < |items| ==> NameRead(s, start, BlockLength(s, start), items[i])
  {
    ParsedStages(s, items);
    var count := ParseHeader(s).value;
    var start := NameBlockStart(count);
    ResolvedNamesRead(s, start, BlockLength(s, start), TableLocations(s, count), items);
  }

  /** No two files of a parsed catalog overlap; a stream with overlapping files is rejected. */
  lemma ParsedNoOverlap(s: seq<byte>, items: seq<CatalogItem>)
    requires Parse(s) == Ok(items)
    ensures NoOverlap(items)
  {
    ParsedStages(s, items);
    OverlapCheckIffNoOverlap(items);
  }

  /** A stream whose header, names and payload ranges all pass is accepted. */
  lemma ParseAccepts(s: seq<byte>, items: seq<CatalogItem>)
    requires ParseHeader(s).Ok? && NameBlockStart(ParseHeader(s).value) <= |s|
    requires var start := NameBlockStart(ParseHeader(s).value);
             ResolveNames(s, start, BlockLength(s, start), TableLocations(s, ParseHeader(s).value)) == Ok(items)
    requires NoOverlap(items)
    ensures Parse(s) == Ok(items)
  {
    OverlapCheckIffNoOverlap(items);
  }

  /**
   * The payload bytes of a location: `read_exact` of `data_size` bytes at
   * `data_offset`. Seeking past the end succeeds, and reading nothing
   * there succeeds too, so an empty payload reads back wherever it sits.
   */
  function Contents(s: seq<byte>, loc: Location): (r: Result<seq<byte>>)
    ensures r.Ok? <==> loc.dataSize == 0 || loc.DataEnd() <= |s|
    ensures r.Ok? ==> |r.value| == loc.dataSize
    ensures loc.DataEnd() <= |s| ==> r == Ok(s[loc.dataOffset..loc.DataEnd()])
    ensures r.Err? ==> r.error == UnexpectedEof
  {
    if loc.DataEnd() <= |s| then Ok(s[loc.dataOffset..loc.DataEnd()])
    else if loc.dataSize == 0 then Ok([])
    else Err(UnexpectedEof)
  }

  /**
   * `read_metadata`: refused for an item that is not the metadata file
   * before anything is read; then the contents, then the decoded record.
   */
  function MetadataOf(s: seq<byte>, item: CatalogItem, decode: seq<byte> -> Option<Metadata>): (r: Result<Metadata>)
    ensures !item.IsMetadataFile() ==> r == Err(NotMetadataFile)
    ensures r.Ok? ==> item.IsMetadataFile() && Contents(s, item.location).Ok?
                      && decode(Contents(s, item.location).value) == Some(r.value)
    ensures item.IsMetadataFile() && Contents(s, item.location).Ok? && decode(Contents(s, item.location).value).None?
            ==> r == Err(InvalidMetadata)
  {
    if !item.IsMetadataFile() then Err(NotMetadataFile)
    else
      match Contents(s, item.location)
      case Err(e) => Err(e)
      case Ok(data) =>
        match decode(data)
        case None => Err(InvalidMetadata)
        case Some(m) => Ok(m)
  }

  // ---------------------------------------------------------------------
  // The reader as the source runs it

  /** The location loop: 24 bytes at a time, failing at the first short read. */
  method ReadLocations(s: seq<byte>, count: nat) returns (r: Result<seq<Location>>)
    requires HEADER_SIZE <= |s|
    ensures r.Ok? <==> LocationAt(count) <= |s|
    ensures r.Ok? ==> r.value == TableLocations(s, count)
    ensures r.Err? ==> r.error == UnexpectedEof
  {
    var locations: seq<Location> := [];
    for i := 0 to count
      invariant LocationAt(i) <= |s|
      invariant locations == TableLocations(s, i)
    {
      var pos := LocationAt(i);
      if pos + LOCATION_BLOCK_SIZE > |s| {
        ShortTable(s, i, count);
        return Err(UnexpectedEof);
      }
      TableLocationsStep(s, i);
      locations := locations + [DecodeLocation(s[pos..pos + LOCATION_BLOCK_SIZE])];
    }
    return Ok(locations);
  }

  /** `read_until(0)` from a seek to pos. */
  method ReadUntil(s: seq<byte>, pos: nat) returns (read: seq<byte>)
    ensures read == ReadUntilZero(s, pos)
  {
    read := [];
    var i := pos;
    while i < |s|
      invariant pos <= i
      invariant ReadUntilZero(s, pos) == read + ReadUntilZero(s, i)
      decreases |s| - i
    {
      var b := s[i];
      AppendAssoc(read, [b], ReadUntilZero(s, i + 1));
      read := read + [b];
      i := i + 1;
      if b == 0 {
        return;
      }
    }
  }

  /** One iteration of the name loop. */
  method ReadName(s: seq<byte>, start: nat, blockLength: nat, loc: Location) returns (r: Result<CatalogItem>)
    ensures r == ResolveName(s, start, blockLength, loc)
  {
    var pos := loc.fileNameOffset + start;
    if pos >= TWO_64 {
      return Err(Overflow);
    }
    var read := ReadUntil(s, pos);
    if |read| == 0 {
      return Err(ZeroLengthName(pos));
    }
    if pos + |read| >= TWO_64 || start + blockLength >= TWO_64 {
      return Err(Overflow);
    }
    if pos + |read| > start + blockLength {
      return Err(NameOutOfBounds);
    }
    var path := read;
    if path[|path| - 1] == 0 {
      path := path[..|path| - 1];
    }
    return Ok(CatalogItem(path, loc));
  }

  /** The name loop over the locations, in table order. */
  method ReadNames(s: seq<byte>, start: nat, blockLength: nat, locs: seq<Location>) returns (r: Result<seq<CatalogItem>>)
    ensures r == ResolveNames(s, start, blockLength, locs)
  {
    var items: seq<CatalogItem> := [];
    ghost var rs := Resolutions(s, start, blockLength, locs);
    for k := 0 to |locs|
      invariant Collect(rs[..k]) == Ok(items)
    {
      assert rs[..k + 1][..k] == rs[..k] && rs[k] == ResolveName(s, start, blockLength, locs[k]);
      var item := ReadName(s, start, blockLength, locs[k]);
      if item.Err? {
        CollectFirstError(rs, k + 1);
        return Err(item.error);
      }
      items := items + [item.value];
    }
    assert rs[..|locs|] == rs;
    return Ok(items);
  }

  /** The body of `BankReader::new`. */
  method ReadCatalog(s: seq<byte>) returns (r: Result<seq<CatalogItem>>)
    ensures r == Parse(s)
  {
    var header := ParseHeader(s);
    if header.Err? {
      return Err(header.error);
    }
    r := ReadBody(s, header.value);
  }

  /** The table, the block length, the names and the overlap check, read after the header. */
  method ReadBody(s: seq<byte>, count: nat) returns (r: Result<seq<CatalogItem>>)
    requires HEADER_SIZE <= |s|
    ensures r == ParseBody(s, count)
  {
    var locations := ReadLocations(s, count);
    if locations.Err? {
      return Err(UnexpectedEof);
    }
    var start := NameBlockStart(count);
    if |s| < start {
      return Err(UnexpectedEof);
    }
    r := ReadCheckedNames(s, start, locations.value);
  }

  /** The name loop, then the overlap check over the items it produced. */
  method ReadCheckedNames(s: seq<byte>, start: nat, locs: seq<Location>) returns (r: Result<seq<CatalogItem>>)
    requires 8 <= start <= |s|
    ensures r == CheckedNames(s, start, locs)
  {
    var blockLength := BlockLength(s, start);
    var names := ReadNames(s, start, blockLength, locs);
    if names.Err? {
      return Err(names.error);
    }
    var check := CheckOverlap(names.value);
    if check.Err? {
      return Err(check.error);
    }
    return Ok(names.value);
  }

  /** An open bank: the stream it reads and the catalog read from it. */
  class BankReader {
    const source: seq<byte>
    const items: seq<CatalogItem>

    ghost predicate Valid()
    {
      Parse(source) == Ok(items)
    }

    constructor(source: seq<byte>, items: seq<CatalogItem>)
      requires Parse(source) == Ok(items)
      ensures this.source == source && this.items == items && Valid()
    {
      this.source := source;
      this.items := items;
    }

    /** `BankReader::new`: a reader over the stream, or the first reason it is not a bank. */
    static method New(source: seq<byte>) returns (r: Result<BankReader>)
      ensures r.Ok? <==> Parse(source).Ok?
      ensures r.Ok? ==> r.value.source == source && r.value.Valid()
      ensures r.Err? ==> Parse(source) == Err(r.error)
    {
      var catalog := ReadCatalog(source);
      if catalog.Err? {
        return Err(catalog.error);
      }
      var reader := new BankReader(source, catalog.value);
      return Ok(reader);
    }

    /** `items`: the catalog, in location-table order. */
    function Items(): (r: seq<CatalogItem>)
      requires Valid()
      ensures Parse(source) == Ok(r)
    {
      items
    }

    /**
     * `read_contents`: fill a buffer of `data_size` bytes from `data_offset`.
     * The source allocates that buffer before it seeks: a `data_size` of
     * 2^63 or more panics there (capacity overflow), and a smaller one the
     * process cannot allocate aborts it. Here either is the `UnexpectedEof`
     * of a non-empty payload that runs past the end of the source.
     */
    method ReadContents(item: CatalogItem) returns (r: Result<seq<byte>>)
      ensures r == Contents(source, item.location)
    {
      var offset, size := item.location.dataOffset, item.location.dataSize;
      if size > 0 && offset + size > |source| {
        return Err(UnexpectedEof);
      }
      var buffer := new byte[size](_ => 0);
      for k := 0 to size
        invariant forall j :: 0 <= j < k ==> buffer[j] == source[offset + j]
      {
        buffer[k] := source[offset + k];
      }
      if size > 0 {
        assert buffer[..] == source[offset..offset + size];
      } else if offset <= |source| {
        assert buffer[..] == source[offset..offset];
      } else {
        assert buffer[..] == [];
      }
      return Ok(buffer[..]);
    }

    /** `read_metadata`, with the JSON decoder as a parameter. */
    method ReadMetadata(item: CatalogItem, decode: seq<byte> -> Option<Metadata>) returns (r: Result<Metadata>)
      ensures r == MetadataOf(source, item, decode)
    {
      if !item.IsMetadataFile() {
        return Err(NotMetadataFile);
      }
      var data := ReadContents(item);
      if data.Err? {
        return Err(data.error);
      }
      var metadata := decode(data.value);
      if metadata.None? {
        return Err(InvalidMetadata);
      }
      return Ok(metadata.value);
    }
  }
}
