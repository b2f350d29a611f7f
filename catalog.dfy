/**
 * The items a bank reader lists, the predicates that classify them, and the
 * check that no two file payloads share bytes: the file items are sorted by
 * data offset and each one must end before the next begins.
 */
module Catalog {
  import opened Bytes
  import opened Outcome
  import opened Paths
  import opened Kinds

  /** A listed item: its path as raw bytes and its location unchanged. */
  datatype CatalogItem = CatalogItem(path: seq<byte>, location: Location) {
    /** `is_directory`: directories carry no data. */
    predicate IsDirectory()
    {
      location.dataSize == 0
    }

    /** `is_file`. */
    predicate IsFile()
    {
      location.dataSize != 0
    }

    /** `is_background_file`: a file whose stem is "background" in any letter case. */
    predicate IsBackgroundFile()
    {
      IsFile() && EqIgnoreAsciiCase(FileStem(path).GetOr([]), AsciiBytes(BACKGROUND_FILE_STEM))
    }

    /** `is_metadata_file`: a file whose whole path is "index.json" in any letter case. */
    predicate IsMetadataFile()
    {
      IsFile() && EqIgnoreAsciiCase(path, AsciiBytes(METADATA_FILE_NAME))
    }
  }

  /**
   * The item predicates: an item is a directory or a file and never both,
   * and a metadata file is a file whose path the classifier assigns to the
   * metadata kind.
   */
  lemma ItemClassification(item: CatalogItem)
    ensures item.IsDirectory() <==> !item.IsFile()
    ensures item.IsMetadataFile() ==> item.IsFile() && |item.path| == |METADATA_FILE_NAME|
    ensures item.IsMetadataFile() ==> From(item.path) == Some(Metadata)
    ensures item.IsBackgroundFile() ==> item.IsFile()
  {
    if item.IsMetadataFile() {
      var p := item.path;
      var name := AsciiBytes(METADATA_FILE_NAME);
      assert name == [105, 110, 100, 101, 120, 46, 106, 115, 111, 110];
      assert SLASH !in p by {
        forall i | 0 <= i < |p| ensures p[i] != SLASH {
          assert ToAsciiLower(p[i]) == ToAsciiLower(name[i]);
        }
      }
      PlainFileName(p);
      FromMetadataFileName(p);
    }
  }

  // ---------------------------------------------------------------------
  // Disjoint payloads

  /** Two payload ranges share no byte. */
  predicate Disjoint(a: Location, b: Location)
  {
    a.DataEnd() <= b.dataOffset || b.DataEnd() <= a.dataOffset
  }

  /** No two file items of xs have overlapping payloads. */
  ghost predicate NoOverlap(xs: seq<CatalogItem>)
  {
    forall i, j :: 0 <= i < j < |xs| && xs[i].IsFile() && xs[j].IsFile() ==> Disjoint(xs[i].location, xs[j].location)
  }

  /** x, if a file, is disjoint from every file of xs. */
  ghost predicate DisjointFromAll(x: CatalogItem, xs: seq<CatalogItem>)
  {
    x.IsFile() ==> forall y :: y in xs && y.IsFile() ==> Disjoint(y.location, x.location)
  }

  lemma NoOverlapAppend(xs: seq<CatalogItem>, x: CatalogItem)
    ensures NoOverlap(xs + [x]) <==> NoOverlap(xs) && DisjointFromAll(x, xs)
  {
    var ys := xs + [x];
    if NoOverlap(ys) {
      forall i, j | 0 <= i < j < |xs| && xs[i].IsFile() && xs[j].IsFile()
        ensures Disjoint(xs[i].location, xs[j].location)
      {
        assert ys[i] == xs[i] && ys[j] == xs[j];
      }
      if x.IsFile() {
        forall y | y in xs && y.IsFile() ensures Disjoint(y.location, x.location) {
          var i :| 0 <= i < |xs| && xs[i] == y;
          assert ys[i] == y && ys[|xs|] == x;
        }
      }
    }
  }

  lemma NoOverlapPrepend(y: CatalogItem, zs: seq<CatalogItem>)
    ensures NoOverlap([y] + zs) <==> NoOverlap(zs) && DisjointFromAll(y, zs)
  {
    var ys := [y] + zs;
    if NoOverlap(ys) {
      forall i, j | 0 <= i < j < |zs| && zs[i].IsFile() && zs[j].IsFile()
        ensures Disjoint(zs[i].location, zs[j].location)
      {
        assert ys[i + 1] == zs[i] && ys[j + 1] == zs[j];
      }
      if y.IsFile() {
        forall z | z in zs && z.IsFile() ensures Disjoint(z.location, y.location) {
          var j :| 0 <= j < |zs| && zs[j] == z;
          assert ys[0] == y && ys[j + 1] == z;
        }
      }
    }
    if NoOverlap(zs) && DisjointFromAll(y, zs) {
      forall i, j | 0 <= i < j < |ys| && ys[i].IsFile() && ys[j].IsFile()
        ensures Disjoint(ys[i].location, ys[j].location)
      {
        assert ys[j] == zs[j - 1] && ys[j] in zs;
        if i > 0 {
          assert ys[i] == zs[i - 1];
        }
      }
    }
  }

  // ---------------------------------------------------------------------
  // The three steps of the check: keep the files, sort them, compare neighbours

  /** `filter(is_file)`: the file items, in order. */
  function Files(items: seq<CatalogItem>): (r: seq<CatalogItem>)
    ensures forall x :: x in r <==> x in items && x.IsFile()
  {
    if items == [] then []
    else
      var x := items[|items| - 1];
      Files(items[..|items| - 1]) + (if x.IsFile() then [x] else [])
  }

  lemma {:induction false} FilesKeepNoOverlap(items: seq<CatalogItem>)
    ensures NoOverlap(Files(items)) <==> NoOverlap(items)
  {
    if items != [] {
      var init, x := items[..|items| - 1], items[|items| - 1];
      assert items == init + [x];
      FilesKeepNoOverlap(init);
      NoOverlapAppend(init, x);
      if x.IsFile() {
        assert Files(items) == Files(init) + [x];
        NoOverlapAppend(Files(init), x);
        SameFilesDisjoint(x, init, Files(init));
      } else {
        assert Files(items) == Files(init);
      }
    }
  }

  /** Being disjoint from every file depends only on which files there are. */
  lemma SameFilesDisjoint(x: CatalogItem, xs: seq<CatalogItem>, ys: seq<CatalogItem>)
    requires forall y :: y in ys && y.IsFile() <==> y in xs && y.IsFile()
    ensures DisjointFromAll(x, xs) <==> DisjointFromAll(x, ys)
  {
  }

  /** Ordered by data offset. */
  ghost predicate SortedByOffset(xs: seq<CatalogItem>)
  {
    forall i, j :: 0 <= i < j < |xs| ==> xs[i].location.dataOffset <= xs[j].location.dataOffset
  }

  /** Insert x after every element whose offset is not greater: a stable insertion. */
  function InsertByOffset(ys: seq<CatalogItem>, x: CatalogItem): (r: seq<CatalogItem>)
    ensures multiset(r) == multiset(ys) + multiset{x}
    decreases |ys|
  {
    if ys == [] then [x]
    else if ys[0].location.dataOffset <= x.location.dataOffset then
      assert ys == [ys[0]] + ys[1..];
      [ys[0]] + InsertByOffset(ys[1..], x)
    else
      [x] + ys
  }

  lemma {:induction false} InsertKeepsSorted(ys: seq<CatalogItem>, x: CatalogItem)
    requires SortedByOffset(ys)
    ensures SortedByOffset(InsertByOffset(ys, x))
    decreases |ys|
  {
    if ys == [] {
    } else if ys[0].location.dataOffset <= x.location.dataOffset {
      SortedTail(ys);
      InsertKeepsSorted(ys[1..], x);
      LowerThanInserted(ys[0], ys[1..], x);
      SortedPrepend(ys[0], InsertByOffset(ys[1..], x));
    } else {
      SortedTail(ys);
      SortedPrepend(x, ys);
    }
  }

  lemma SortedTail(ys: seq<CatalogItem>)
    requires ys != [] && SortedByOffset(ys)
    ensures SortedByOffset(ys[1..])
    ensures forall z :: z in ys[1..] ==> ys[0].location.dataOffset <= z.location.dataOffset
  {
    forall z | z in ys[1..] ensures ys[0].location.dataOffset <= z.location.dataOffset {
      var j :| 0 <= j < |ys[1..]| && ys[1..][j] == z;
      assert ys[j + 1] == z;
    }
  }

  lemma LowerThanInserted(y: CatalogItem, zs: seq<CatalogItem>, x: CatalogItem)
    requires forall z :: z in zs ==> y.location.dataOffset <= z.location.dataOffset
    requires y.location.dataOffset <= x.location.dataOffset
    ensures forall z :: z in InsertByOffset(zs, x) ==> y.location.dataOffset <= z.location.dataOffset
  {
    var rest := InsertByOffset(zs, x);
    forall z | z in rest ensures y.location.dataOffset <= z.location.dataOffset {
      assert z in multiset(rest);
      assert z in multiset(zs) || z == x;
    }
  }

  lemma SortedPrepend(y: CatalogItem, zs: seq<CatalogItem>)
    requires SortedByOffset(zs)
    requires forall z :: z in zs ==> y.location.dataOffset <= z.location.dataOffset
    ensures SortedByOffset([y] + zs)
  {
    var ys := [y] + zs;
    forall i, j | 0 <= i < j < |ys| ensures ys[i].location.dataOffset <= ys[j].location.dataOffset {
      assert ys[j] == zs[j - 1];
      if i > 0 {
        assert ys[i] == zs[i - 1];
      } else {
        assert zs[j - 1] in zs;
      }
    }
  }

  /** `sort_by_key(data_offset)`, a stable sort, as an insertion sort. */
  function SortByOffset(xs: seq<CatalogItem>): (r: seq<CatalogItem>)
    ensures multiset(r) == multiset(xs)
    ensures SortedByOffset(r)
  {
    if xs == [] then []
    else
      var init := xs[..|xs| - 1];
      assert xs == init + [xs[|xs| - 1]];
      InsertKeepsSorted(SortByOffset(init), xs[|xs| - 1]);
      InsertByOffset(SortByOffset(init), xs[|xs| - 1])
  }

  /** The items of xs whose payload starts at offset o, in the order of xs. */
  function WithOffset(xs: seq<CatalogItem>, o: nat): (r: seq<CatalogItem>)
    ensures |r| <= |xs|
  {
    if xs == [] then []
    else (if xs[0].location.dataOffset == o then [xs[0]] else []) + WithOffset(xs[1..], o)
  }

  /** WithOffset keeps exactly the items at offset o. */
  lemma {:induction false} WithOffsetMembers(xs: seq<CatalogItem>, o: nat)
    ensures forall x :: x in WithOffset(xs, o) <==> x in xs && x.location.dataOffset == o
    decreases |xs|
  {
    if xs != [] {
      WithOffsetMembers(xs[1..], o);
      assert xs == [xs[0]] + xs[1..];
    }
  }

  lemma {:induction false} WithOffsetConcat(a: seq<CatalogItem>, b: seq<CatalogItem>, o: nat)
    ensures WithOffset(a + b, o) == WithOffset(a, o) + WithOffset(b, o)
    decreases |a|
  {
    if a == [] {
      assert a + b == b;
    } else {
      var head := if a[0].location.dataOffset == o then [a[0]] else [];
      assert (a + b)[0] == a[0] && (a + b)[1..] == a[1..] + b;
      assert WithOffset(a + b, o) == head + WithOffset(a[1..] + b, o);
      WithOffsetConcat(a[1..], b, o);
      assert WithOffset(a, o) == head + WithOffset(a[1..], o);
    }
  }

  /** No item of ys starts at o. */
  lemma {:induction false} NoneWithOffset(ys: seq<CatalogItem>, o: nat)
    requires forall y :: y in ys ==> y.location.dataOffset != o
    ensures WithOffset(ys, o) == []
    decreases |ys|
  {
    if ys != [] {
      assert ys[0] in ys;
      NoneWithOffset(ys[1..], o);
    }
  }

  /** Inserting x adds it after the items already at its offset. */
  lemma {:induction false} InsertWithOffset(ys: seq<CatalogItem>, x: CatalogItem, o: nat)
    requires SortedByOffset(ys)
    ensures WithOffset(InsertByOffset(ys, x), o) == WithOffset(ys, o) + WithOffset([x], o)
    decreases |ys|, 1
  {
    if ys == [] {
    } else if ys[0].location.dataOffset <= x.location.dataOffset {
      SortedTail(ys);
      assert ys == [ys[0]] + ys[1..];
      InsertAfter(ys[0], ys[1..], x, o);
    } else {
      InsertBefore(ys, x, o);
    }
  }

  /** x goes after y, whose offset does not exceed x's, and into the sorted rest. */
  lemma {:induction false} InsertAfter(y: CatalogItem, tail: seq<CatalogItem>, x: CatalogItem, o: nat)
    requires SortedByOffset(tail) && y.location.dataOffset <= x.location.dataOffset
    ensures WithOffset(InsertByOffset([y] + tail, x), o) == WithOffset([y] + tail, o) + WithOffset([x], o)
    decreases |tail| + 1, 0
  {
    var rest := InsertByOffset(tail, x);
    var wy, wt, wx := WithOffset([y], o), WithOffset(tail, o), WithOffset([x], o);
    InsertAfterHead(y, tail, x);
    InsertWithOffset(tail, x, o);
    WithOffsetConcat([y], rest, o);
    WithOffsetConcat([y], tail, o);
    AppendAssoc(wy, wt, wx);
  }

  /** An item whose offset does not exceed x's stays in front of x. */
  lemma InsertAfterHead(y: CatalogItem, tail: seq<CatalogItem>, x: CatalogItem)
    requires y.location.dataOffset <= x.location.dataOffset
    ensures InsertByOffset([y] + tail, x) == [y] + InsertByOffset(tail, x)
  {
    var ys := [y] + tail;
    assert ys[0] == y && ys[1..] == tail;
  }

  /** x goes in front of ys, whose offsets all exceed x's. */
  lemma InsertBefore(ys: seq<CatalogItem>, x: CatalogItem, o: nat)
    requires SortedByOffset(ys) && ys != [] && x.location.dataOffset < ys[0].location.dataOffset
    ensures WithOffset(InsertByOffset(ys, x), o) == WithOffset(ys, o) + WithOffset([x], o)
  {
    assert InsertByOffset(ys, x) == [x] + ys;
    WithOffsetConcat([x], ys, o);
    if x.location.dataOffset == o {
      forall y | y in ys ensures y.location.dataOffset != o {
        var j :| 0 <= j < |ys| && ys[j] == y;
        assert ys[0].location.dataOffset <= ys[j].location.dataOffset;
      }
      NoneWithOffset(ys, o);
    } else {
      assert WithOffset([x], o) == [];
    }
  }

  /**
   * `sort_by_key` is stable: for every offset, the items starting there
   * keep the order they had before sorting.
   */
  lemma {:induction false} SortByOffsetStable(xs: seq<CatalogItem>, o: nat)
    ensures WithOffset(SortByOffset(xs), o) == WithOffset(xs, o)
  {
    if xs != [] {
      var init, last := xs[..|xs| - 1], xs[|xs| - 1];
      assert xs == init + [last];
      SortByOffsetStable(init, o);
      InsertWithOffset(SortByOffset(init), last, o);
      WithOffsetConcat(init, [last], o);
    }
  }

  /** Being disjoint from all of a depends only on a's members: those of b and one more, z. */
  lemma DisjointFromAllMembers(x: CatalogItem, a: seq<CatalogItem>, b: seq<CatalogItem>, z: CatalogItem)
    requires forall w :: w in a <==> w in b || w == z
    ensures DisjointFromAll(x, a) <==> DisjointFromAll(x, b) && (x.IsFile() && z.IsFile() ==> Disjoint(z.location, x.location))
  {
  }

  lemma {:induction false} InsertKeepsNoOverlap(ys: seq<CatalogItem>, x: CatalogItem)
    ensures NoOverlap(InsertByOffset(ys, x)) <==> NoOverlap(ys) && DisjointFromAll(x, ys)
    decreases |ys|
  {
    if ys == [] {
    } else if ys[0].location.dataOffset <= x.location.dataOffset {
      var y, zs := ys[0], ys[1..];
      var rest := InsertByOffset(zs, x);
      assert ys == [y] + zs;
      InsertKeepsNoOverlap(zs, x);
      NoOverlapPrepend(y, rest);
      NoOverlapPrepend(y, zs);
      forall z ensures z in rest <==> z in zs || z == x {
        assert z in rest <==> z in multiset(rest);
      }
      DisjointFromAllMembers(y, rest, zs, x);
      DisjointFromAllMembers(x, ys, zs, y);
    } else {
      NoOverlapPrepend(x, ys);
    }
  }

  lemma {:induction false} SortKeepsNoOverlap(xs: seq<CatalogItem>)
    ensures NoOverlap(SortByOffset(xs)) <==> NoOverlap(xs)
  {
    if xs != [] {
      var init, x := xs[..|xs| - 1], xs[|xs| - 1];
      assert xs == init + [x];
      var sorted := SortByOffset(init);
      SortKeepsNoOverlap(init);
      InsertKeepsNoOverlap(sorted, x);
      NoOverlapAppend(init, x);
      assert forall y :: y in sorted <==> y in init by {
        forall y ensures y in sorted <==> y in init {
          assert y in sorted <==> y in multiset(sorted);
          assert y in init <==> y in multiset(init);
        }
      }
    }
  }

  /** Each item of xs ends no later than the next one starts. */
  ghost predicate NeighboursInOrder(xs: seq<CatalogItem>)
  {
    forall i, j :: 0 <= i < j < |xs| && j == i + 1 ==> xs[i].location.DataEnd() <= xs[j].location.dataOffset
  }

  /**
   * `windows(2)`: compare each item with the next. Computing `data_end` of
   * the first of a pair can overflow a u64, which the source does not
   * allow for; the last item's end is never computed.
   */
  function CheckWindows(xs: seq<CatalogItem>): (r: Result<()>)
    ensures r.Ok? <==> NeighboursInOrder(xs)
    ensures r.Err? ==> r.error.Overflow? || r.error.Overlap?
  {
    if |xs| < 2 then Ok(())
    else
      NeighboursStep(xs);
      if xs[0].location.DataEnd() >= TWO_64 then Err(Overflow)
      else if xs[0].location.DataEnd() > xs[1].location.dataOffset then Err(Overlap(xs[0].path, xs[1].path))
      else CheckWindows(xs[1..])
  }

  lemma NeighboursStep(xs: seq<CatalogItem>)
    requires |xs| >= 2
    ensures NeighboursInOrder(xs) <==>
            xs[0].location.DataEnd() <= xs[1].location.dataOffset && NeighboursInOrder(xs[1..])
  {
    var ys := xs[1..];
    if xs[0].location.DataEnd() <= xs[1].location.dataOffset && NeighboursInOrder(ys) {
      forall i, j | 0 <= i < j < |xs| && j == i + 1
        ensures xs[i].location.DataEnd() <= xs[j].location.dataOffset
      {
        if i > 0 {
          assert xs[i] == ys[i - 1] && xs[j] == ys[j - 1];
        }
      }
    }
    if NeighboursInOrder(xs) {
      forall i, j | 0 <= i < j < |ys| && j == i + 1
        ensures ys[i].location.DataEnd() <= ys[j].location.dataOffset
      {
        assert ys[i] == xs[i + 1] && ys[j] == xs[j + 1];
      }
    }
  }

  /** Along neighbours in order, each item ends before any later one starts. */
  lemma {:induction false} EndsBeforeLater(xs: seq<CatalogItem>, i: nat, j: nat)
    requires NeighboursInOrder(xs) && i < j < |xs|
    ensures xs[i].location.DataEnd() <= xs[j].location.dataOffset
    decreases j - i
  {
    if j > i + 1 {
      EndsBeforeLater(xs, i, j - 1);
      assert xs[j - 1].location.DataEnd() <= xs[j].location.dataOffset;
    }
  }

  /** For files sorted by offset, comparing neighbours is the same as comparing every pair. */
  lemma NeighboursIffNoOverlap(xs: seq<CatalogItem>)
    requires SortedByOffset(xs) && forall x :: x in xs ==> x.IsFile()
    ensures NeighboursInOrder(xs) <==> NoOverlap(xs)
  {
    if NeighboursInOrder(xs) {
      forall i, j | 0 <= i < j < |xs| && xs[i].IsFile() && xs[j].IsFile()
        ensures Disjoint(xs[i].location, xs[j].location)
      {
        EndsBeforeLater(xs, i, j);
      }
    }
    if NoOverlap(xs) {
      forall i, j | 0 <= i < j < |xs| && j == i + 1
        ensures xs[i].location.DataEnd() <= xs[j].location.dataOffset
      {
        assert xs[i] in xs && xs[j] in xs;
        assert Disjoint(xs[i].location, xs[j].location);
      }
    }
  }

  /** The overlap check of `BankReader::new` passes exactly when no two file payloads overlap. */
  function OverlapCheck(items: seq<CatalogItem>): Result<()>
  {
    CheckWindows(SortByOffset(Files(items)))
  }

  lemma OverlapCheckIffNoOverlap(items: seq<CatalogItem>)
    ensures OverlapCheck(items).Ok? <==> NoOverlap(items)
  {
    var files := Files(items);
    var sorted := SortByOffset(files);
    assert forall x :: x in sorted ==> x.IsFile() by {
      forall x | x in sorted ensures x.IsFile() {
        assert x in multiset(sorted);
        assert x in files;
      }
    }
    NeighboursIffNoOverlap(sorted);
    SortKeepsNoOverlap(files);
    FilesKeepNoOverlap(items);
  }

  /** `items.iter().filter(is_file).collect()`. */
  method CollectFiles(items: seq<CatalogItem>) returns (files: seq<CatalogItem>)
    ensures files == Files(items)
  {
    files := [];
    for k := 0 to |items|
      invariant files == Files(items[..k])
    {
      assert items[..k + 1] == items[..k] + [items[k]];
      if items[k].IsFile() {
        files := files + [items[k]];
      }
    }
    assert items[..|items|] == items;
  }

  /** `for window in xs.windows(2)`: stop at the first pair out of order. */
  method CheckNeighbours(xs: seq<CatalogItem>) returns (r: Result<()>)
    ensures r == CheckWindows(xs)
  {
    var k := 0;
    while k + 1 < |xs|
      invariant k <= |xs|
      invariant CheckWindows(xs[k..]) == CheckWindows(xs)
    {
      var first, second := xs[k], xs[k + 1];
      assert xs[k..][0] == first && xs[k..][1] == second;
      if first.location.DataEnd() >= TWO_64 {
        return Err(Overflow);
      }
      if first.location.DataEnd() > second.location.dataOffset {
        return Err(Overlap(first.path, second.path));
      }
      assert xs[k..][1..] == xs[k + 1..];
      k := k + 1;
    }
    return Ok(());
  }

  /**
   * The check as the reader runs it: collect the files, sort them, then
   * walk the windows; it passes exactly when no two file payloads overlap.
   */
  method CheckOverlap(items: seq<CatalogItem>) returns (r: Result<()>)
    ensures r == OverlapCheck(items)
    ensures r.Ok? <==> NoOverlap(items)
  {
    var files := CollectFiles(items);
    var sorted := SortByOffset(files);
    r := CheckNeighbours(sorted);
    OverlapCheckIffNoOverlap(items);
  }
}
