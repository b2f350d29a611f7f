/**
 * The byte image of a bank as the writer lays it out: a header, the
 * location table, the name-block length, the name block and the payloads.
 * An entry is a row of the location table: a directory (no payload, data
 * offset 0) or a file with its contents.
 */
module Layout {
  import opened Bytes
  import opened Kinds

  datatype Entry =
    | DirEntry(name: seq<byte>)
    | FileEntry(name: seq<byte>, contents: seq<byte>)

  /** The data size recorded for an entry. */
  function Size(e: Entry): nat
  {
    if e.DirEntry? then 0 else |e.contents|
  }

  /** The name block: each entry's name followed by a zero byte. */
  function NameBlock(es: seq<Entry>): seq<byte>
  {
    if es == [] then [] else NameBlock(es[..|es| - 1]) + es[|es| - 1].name + [ZERO]
  }

  /** The payload area: each file entry's contents, in entry order. */
  function Payload(es: seq<Entry>): seq<byte>
  {
    if es == [] then []
    else
      var e := es[|es| - 1];
      Payload(es[..|es| - 1]) + (if e.FileEntry? then e.contents else [])
  }

  /** Bytes before the location table: identifier, check bytes, version and count. */
  const HEADER_SIZE: nat := 24

  function Header(count: nat): (r: seq<byte>)
    ensures |r| == HEADER_SIZE
  {
    FILE_ID + CORRUPTION_CHECK_BYTES + FORMAT_VERSION + LE64(count)
  }

  /** Where the name block starts: after the header, the table and the length field. */
  function NameBlockStart(count: nat): nat
  {
    HEADER_SIZE + LOCATION_BLOCK_SIZE * count + 8
  }

  /** Where the payloads start: right after the name block. */
  function DataStart(es: seq<Entry>): nat
  {
    NameBlockStart(|es|) + |NameBlock(es)|
  }

  /** The data offset recorded for entry e placed after `before`. */
  function DataOffset(before: seq<Entry>, e: Entry, dataStart: nat): nat
  {
    if e.DirEntry? then 0 else dataStart + |Payload(before)|
  }

  /** The location written for entry e placed after `before`. */
  function LocationBytes(before: seq<Entry>, e: Entry, dataStart: nat): (r: seq<byte>)
    ensures |r| == LOCATION_BLOCK_SIZE
  {
    LE64(|NameBlock(before)|) + LE64(DataOffset(before, e, dataStart)) + LE64(Size(e))
  }

  /** The location table. */
  function LocationTable(es: seq<Entry>, dataStart: nat): (r: seq<byte>)
    ensures |r| == LOCATION_BLOCK_SIZE * |es|
  {
    if es == [] then []
    else
      var n := |es| - 1;
      assert LOCATION_BLOCK_SIZE * |es| == LOCATION_BLOCK_SIZE * n + LOCATION_BLOCK_SIZE;
      LocationTable(es[..n], dataStart) + LocationBytes(es[..n], es[n], dataStart)
  }

  /** The whole bank. */
  function BankImage(es: seq<Entry>): seq<byte>
  {
    Header(|es|) + LocationTable(es, DataStart(es)) + LE64(|NameBlock(es)|) + NameBlock(es) + Payload(es)
  }

  // ---------------------------------------------------------------------
  // Where each part of an entry sits

  lemma {:induction false} NameBlockPrefix(es: seq<Entry>, j: nat)
    requires j <= |es|
    ensures |NameBlock(es[..j])| <= |NameBlock(es)|
    ensures NameBlock(es)[..|NameBlock(es[..j])|] == NameBlock(es[..j])
    decreases |es|
  {
    if j < |es| {
      var init := es[..|es| - 1];
      assert init[..j] == es[..j];
      NameBlockPrefix(init, j);
    } else {
      assert es[..j] == es;
    }
  }

  lemma {:induction false} PayloadPrefix(es: seq<Entry>, j: nat)
    requires j <= |es|
    ensures |Payload(es[..j])| <= |Payload(es)|
    ensures Payload(es)[..|Payload(es[..j])|] == Payload(es[..j])
    decreases |es|
  {
    if j < |es| {
      var init := es[..|es| - 1];
      assert init[..j] == es[..j];
      PayloadPrefix(init, j);
    } else {
      assert es[..j] == es;
    }
  }

  lemma {:induction false} LocationTablePrefix(es: seq<Entry>, j: nat, dataStart: nat)
    requires j <= |es|
    ensures |LocationTable(es[..j], dataStart)| <= |LocationTable(es, dataStart)|
    ensures LocationTable(es, dataStart)[..|LocationTable(es[..j], dataStart)|] == LocationTable(es[..j], dataStart)
    decreases |es|
  {
    if j < |es| {
      var init := es[..|es| - 1];
      assert init[..j] == es[..j];
      LocationTablePrefix(init, j, dataStart);
    } else {
      assert es[..j] == es;
    }
  }

  /** Entry i's name, then a zero byte, sit at its name offset in the name block. */
  lemma NameInBlock(es: seq<Entry>, i: nat)
    requires i < |es|
    ensures |NameBlock(es[..i])| + |es[i].name| + 1 == |NameBlock(es[..i + 1])| <= |NameBlock(es)|
    ensures NameBlock(es)[|NameBlock(es[..i])|..|NameBlock(es[..i + 1])|] == es[i].name + [ZERO]
  {
    var pre := es[..i + 1];
    assert pre[..i] == es[..i];
    NameBlockPrefix(es, i + 1);
  }

  /** A file entry's contents sit at its data offset in the payload area. */
  lemma ContentsInPayload(es: seq<Entry>, i: nat)
    requires i < |es| && es[i].FileEntry?
    ensures |Payload(es[..i])| + Size(es[i]) == |Payload(es[..i + 1])| <= |Payload(es)|
    ensures Payload(es)[|Payload(es[..i])|..|Payload(es[..i + 1])|] == es[i].contents
  {
    var pre := es[..i + 1];
    assert pre[..i] == es[..i];
    PayloadPrefix(es, i + 1);
  }

  /** Entry i's location is the i-th 24-byte block of the table. */
  lemma LocationInTable(es: seq<Entry>, i: nat, dataStart: nat)
    requires i < |es|
    ensures LocationTable(es, dataStart)[LOCATION_BLOCK_SIZE * i..LOCATION_BLOCK_SIZE * (i + 1)]
            == LocationBytes(es[..i], es[i], dataStart)
  {
    var pre := es[..i + 1];
    assert pre[..i] == es[..i];
    LocationTablePrefix(es, i + 1, dataStart);
    var t := LocationTable(es, dataStart);
    var u := LocationTable(es[..i], dataStart);
    var b := LocationBytes(es[..i], es[i], dataStart);
    var lo := LOCATION_BLOCK_SIZE * i;
    var hi := LOCATION_BLOCK_SIZE * (i + 1);
    assert hi == lo + LOCATION_BLOCK_SIZE;
    assert LocationTable(pre, dataStart) == u + b;
    assert t[..hi] == u + b;
    assert |u| == lo;
    assert t[lo..hi] == (t[..hi])[lo..];
    assert (u + b)[lo..] == b;
  }

  /** Payload offsets only grow along the entries. */
  lemma PayloadGrows(es: seq<Entry>, i: nat, j: nat)
    requires i <= j <= |es|
    ensures |Payload(es[..i])| <= |Payload(es[..j])|
  {
    var pre := es[..j];
    assert pre[..i] == es[..i];
    PayloadPrefix(pre, i);
  }

  // ---------------------------------------------------------------------
  // Building the parts one entry at a time

  /** Appending an entry extends each part by exactly that entry's share. */
  lemma AppendEntry(es: seq<Entry>, e: Entry, dataStart: nat)
    ensures NameBlock(es + [e]) == NameBlock(es) + e.name + [ZERO]
    ensures Payload(es + [e]) == Payload(es) + (if e.FileEntry? then e.contents else [])
    ensures LocationTable(es + [e], dataStart) == LocationTable(es, dataStart) + LocationBytes(es, e, dataStart)
  {
    assert (es + [e])[..|es|] == es;
  }

  /** The last entry of a non-empty run, split off. */
  lemma SplitLast(a: seq<Entry>, b: seq<Entry>)
    requires b != []
    ensures a + b == (a + b[..|b| - 1]) + [b[|b| - 1]]
    ensures b == b[..|b| - 1] + [b[|b| - 1]]
    ensures (a + b)[..|a + b| - 1] == a + b[..|b| - 1] && (a + b)[|a + b| - 1] == b[|b| - 1]
  {
  }

  /** The name block of two runs of entries is the two name blocks in turn. */
  lemma {:induction false} NameBlockConcat(a: seq<Entry>, b: seq<Entry>)
    ensures NameBlock(a + b) == NameBlock(a) + NameBlock(b)
    decreases |b|
  {
    if b == [] {
      assert a + b == a;
    } else {
      var n := |b| - 1;
      var c, e := b[..n], b[n];
      SplitLast(a, b);
      NameBlockConcat(a, c);
      assert NameBlock(a + b) == NameBlock(a + c) + e.name + [ZERO];
      assert NameBlock(b) == NameBlock(c) + e.name + [ZERO];
    }
  }

  /** The payload of two runs of entries is the two payloads in turn. */
  lemma {:induction false} PayloadConcat(a: seq<Entry>, b: seq<Entry>)
    ensures Payload(a + b) == Payload(a) + Payload(b)
    decreases |b|
  {
    if b == [] {
      assert a + b == a;
    } else {
      var n := |b| - 1;
      var c, e := b[..n], b[n];
      SplitLast(a, b);
      PayloadConcat(a, c);
      var tail := if e.FileEntry? then e.contents else [];
      assert Payload(a + b) == Payload(a + c) + tail;
      assert Payload(b) == Payload(c) + tail;
    }
  }
}
