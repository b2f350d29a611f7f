/**
 * The reader's u64 sums as a release build computes them. `data_end`
 * (src/lib.rs:288-290) and the two position sums of `BankReader::new`
 * (src/read.rs:120, 133) are plain `+` on u64. A debug build panics when
 * they overflow, and the rest of this model reads that panic as
 * `Err(Overflow)`. A release build wraps them modulo 2^64 instead and then
 * accepts banks the checked reading refuses: the lemmas below name two.
 */
module ReleaseBuild {
  import opened Bytes
  import opened Outcome
  import opened Kinds
  import opened Layout
  import opened Catalog
  import opened Reader
  import opened RoundTrip

  /** `data_end` with wrapping addition: the end of the payload, modulo 2^64. */
  function WrappedDataEnd(loc: Location): (r: u64)
    ensures r == loc.DataEnd() || r == loc.DataEnd() - TWO_64
  {
    (loc.dataOffset + loc.dataSize) % TWO_64
  }

  /** `windows(2)` over the sorted files, comparing each wrapped end with the next offset. */
  function WrappingCheckWindows(xs: seq<CatalogItem>): (r: Result<()>)
    ensures r.Err? ==> r.error.Overlap? && 2 <= |xs|
    ensures r.Ok? && 2 <= |xs| ==> WrappedDataEnd(xs[0].location) <= xs[1].location.dataOffset
  {
    if |xs| < 2 then Ok(())
    else if WrappedDataEnd(xs[0].location) > xs[1].location.dataOffset then Err(Overlap(xs[0].path, xs[1].path))
    else WrappingCheckWindows(xs[1..])
  }

  /** The overlap check of `BankReader::new` as a release build runs it. */
  function WrappingOverlapCheck(items: seq<CatalogItem>): Result<()>
  {
    WrappingCheckWindows(SortByOffset(Files(items)))
  }

  /** Where the two agree: with no end past 2^64, wrapping changes nothing. */
  lemma {:induction false} WrappingAgreesWithoutOverflow(xs: seq<CatalogItem>)
    requires forall i :: 0 <= i < |xs| ==> xs[i].location.DataEnd() < TWO_64
    ensures WrappingCheckWindows(xs) == CheckWindows(xs)
  {
    if 2 <= |xs| {
      WrappingAgreesWithoutOverflow(xs[1..]);
    }
  }

  /**
   * A file at offset 100 whose size is 2^64 - 50 covers [100, 2^64 + 50); a
   * file at 200 of size 10 lies inside it. The wrapped end of the first is
   * 50, not past 200, so the release build accepts the pair; the checked
   * reading stops at the overflow, and the two do overlap.
   */
  lemma WrappingCheckAcceptsOverlap()
    ensures var a := CatalogItem([97], Location(0, 100, TWO_64 - 50));
            var b := CatalogItem([98], Location(1, 200, 10));
            WrappingOverlapCheck([a, b]) == Ok(())
            && OverlapCheck([a, b]) == Err(Overflow)
            && !NoOverlap([a, b])
  {
    var a := CatalogItem([97], Location(0, 100, TWO_64 - 50));
    var b := CatalogItem([98], Location(1, 200, 10));
    OrderedFilePair(a, b);
    assert WrappedDataEnd(a.location) == 50;
    assert WrappingCheckWindows([a, b]) == Ok(());
    assert a.location.DataEnd() >= TWO_64;
    assert CheckWindows([a, b]) == Err(Overflow);
    assert !Disjoint(a.location, b.location);
    assert [a, b][0] == a && [a, b][1] == b;
  }

  /** Two files, already in offset order, pass the filter and the sort unchanged. */
  lemma OrderedFilePair(a: CatalogItem, b: CatalogItem)
    requires a.IsFile() && b.IsFile() && a.location.dataOffset <= b.location.dataOffset
    ensures SortByOffset(Files([a, b])) == [a, b]
  {
    assert [a, b][..1] == [a];
    assert Files([a]) == [a];
    assert Files([a, b]) == [a, b];
    assert SortByOffset([a]) == [a];
    assert SortByOffset([a, b]) == InsertByOffset([a], b) == [a, b];
  }

  /** `file_name_pos` and the bound test of `BankReader::new` with wrapping sums. */
  function WrappingResolveName(s: seq<byte>, start: nat, blockLength: nat, loc: Location): (r: Result<CatalogItem>)
    ensures r.Ok? ==> r.value.location == loc
    ensures r.Ok? ==> r.value.path == WithoutTerminator(ReadUntilZero(s, (loc.fileNameOffset + start) % TWO_64))
  {
    var pos := (loc.fileNameOffset + start) % TWO_64;
    var read := ReadUntilZero(s, pos);
    if read == [] then Err(ZeroLengthName(pos))
    else if (pos + |read|) % TWO_64 > (start + blockLength) % TWO_64 then Err(NameOutOfBounds)
    else Ok(CatalogItem(WithoutTerminator(read), loc))
  }

  /** The 56 bytes of a bank with one location (2^64 - 56, 0, 0) and an empty name block. */
  const WRAPPED_NAME_BANK: seq<byte> :=
    FILE_ID + CORRUPTION_CHECK_BYTES + FORMAT_VERSION + [1, 0, 0, 0, 0, 0, 0, 0]
    + [0xC8, 0xFF, 0xFF, 0xFF, 0xFF, 0xFF, 0xFF, 0xFF]
    + [0, 0, 0, 0, 0, 0, 0, 0] + [0, 0, 0, 0, 0, 0, 0, 0] + [0, 0, 0, 0, 0, 0, 0, 0]

  /**
   * In WRAPPED_NAME_BANK the name block starts at 56 and is empty. The name
   * offset 2^64 - 56 puts the name at 2^64, which wraps to 0: the release
   * build reads the 17 header bytes before the count's first zero as the
   * name, and its bound test 18 <= 56 passes. The checked reading stops at
   * the overflow, and no name for this location lies inside the block.
   */
  lemma WrappingResolveNameReadsHeader()
    ensures var loc := Location(TWO_64 - 56, 0, 0);
            |WRAPPED_NAME_BANK| == 56
            && WrappingResolveName(WRAPPED_NAME_BANK, 56, 0, loc) == Ok(CatalogItem(WRAPPED_NAME_BANK[..17], loc))
            && ResolveName(WRAPPED_NAME_BANK, 56, 0, loc) == Err(Overflow)
            && forall item: CatalogItem :: item.location == loc ==> !NameRead(WRAPPED_NAME_BANK, 56, 0, item)
  {
    WrappedNameBankBytes();
    WrappedNameAtZero(WRAPPED_NAME_BANK);
  }

  /** Any 56 bytes whose first zero is byte 17 behave as WRAPPED_NAME_BANK does. */
  lemma WrappedNameAtZero(s: seq<byte>)
    requires |s| == 56 && s[..18] == s[..17] + [ZERO] && ZERO !in s[..17]
    ensures var loc := Location(TWO_64 - 56, 0, 0);
            WrappingResolveName(s, 56, 0, loc) == Ok(CatalogItem(s[..17], loc))
            && ResolveName(s, 56, 0, loc) == Err(Overflow)
            && forall item: CatalogItem :: item.location == loc ==> !NameRead(s, 56, 0, item)
  {
    var name := s[..17];
    assert s[0..|name| + 1] == s[..18];
    ReadsTerminatedName(s, 0, name);
    assert WithoutTerminator(name + [ZERO]) == name;
  }

  /** The first 17 bytes of WRAPPED_NAME_BANK hold no zero, and the 18th is one. */
  lemma WrappedNameBankBytes()
    ensures |WRAPPED_NAME_BANK| == 56
    ensures WRAPPED_NAME_BANK[..18] == WRAPPED_NAME_BANK[..17] + [ZERO]
    ensures ZERO !in WRAPPED_NAME_BANK[..17]
  {
    var s := WRAPPED_NAME_BANK;
    assert s[..17] == [137, 107, 72, 115, 0x0d, 0x0a, 0x1a, 0x0a, 66, 97, 110, 107, 48, 48, 48, 49, 1];
    assert s[17] == ZERO;
  }
}
