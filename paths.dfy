/**
 * The parts of Rust's `std::path` (Unix flavour) that the classifier and the
 * read-side predicates use: `Path::file_name`, `Path::extension` and
 * `Path::file_stem`, on raw path bytes.
 */
module Paths {
  import opened Bytes
  import opened Outcome

  const SLASH: byte := 47
  const DOT: byte := 46

  /** The bytes after the last `sep` in p (all of p when it has none). */
  function AfterLast(p: seq<byte>, sep: byte): (r: seq<byte>)
    ensures |r| <= |p| && r == p[|p| - |r|..]
    ensures sep !in r
    ensures |r| < |p| ==> p[|p| - |r| - 1] == sep
  {
    if p == [] || p[|p| - 1] == sep then []
    else AfterLast(p[..|p| - 1], sep) + [p[|p| - 1]]
  }

  /**
   * `Path::file_name`: the last component of the path, unless it is `..`;
   * trailing separators and `.` components are skipped, and a path made only
   * of those (or empty) has no file name.
   */
  function FileName(p: seq<byte>): (r: Option<seq<byte>>)
    ensures r.Some? ==> SLASH !in r.value && r.value != [] && r.value != [DOT] && r.value != [DOT, DOT]
    decreases |p|
  {
    if p == [] then None
    else if p[|p| - 1] == SLASH then FileName(p[..|p| - 1])
    else
      var c := AfterLast(p, SLASH);
      if c == [DOT] then FileName(p[..|p| - 1])
      else if c == [DOT, DOT] then None
      else Some(c)
  }

  /**
   * `rsplit_file_at_dot`: the part before and the part after the last dot of
   * a file name. A name without a dot, or whose only dot leads it, is all
   * "before" for the stem and has no extension.
   */
  function SplitAtLastDot(name: seq<byte>): (r: (Option<seq<byte>>, Option<seq<byte>>))
  {
    if name == [DOT, DOT] then (Some(name), None)
    else
      var after := AfterLast(name, DOT);
      if |after| == |name| then (None, Some(name))
      else
        var before := name[..|name| - |after| - 1];
        if before == [] then (Some(name), None) else (Some(before), Some(after))
  }

  /** `Path::extension`. */
  function Extension(p: seq<byte>): Option<seq<byte>>
  {
    match FileName(p)
    case None => None
    case Some(name) =>
      var (before, after) := SplitAtLastDot(name);
      if before.Some? then after else None
  }

  /** `Path::file_stem`. */
  function FileStem(p: seq<byte>): Option<seq<byte>>
  {
    match FileName(p)
    case None => None
    case Some(name) =>
      var (before, after) := SplitAtLastDot(name);
      if before.Some? then before else after
  }

  /** A plain name (no separator, not `.` or `..`) is its own file name. */
  lemma PlainFileName(name: seq<byte>)
    requires name != [] && SLASH !in name && name != [DOT] && name != [DOT, DOT]
    ensures FileName(name) == Some(name)
  {
    var c := AfterLast(name, SLASH);
    assert |c| == |name|;
  }

  /**
   * A plain name `stem.ext`, whose stem and extension are not empty and
   * whose extension has no dot, has exactly that stem and extension.
   */
  lemma StemAndExtension(stem: seq<byte>, ext: seq<byte>)
    requires stem != [] && ext != [] && SLASH !in stem && SLASH !in ext && DOT !in ext
    ensures FileName(stem + [DOT] + ext) == Some(stem + [DOT] + ext)
    ensures Extension(stem + [DOT] + ext) == Some(ext)
    ensures FileStem(stem + [DOT] + ext) == Some(stem)
  {
    var name := stem + [DOT] + ext;
    NoSeparatorInJoin(stem, ext);
    PlainFileName(name);
    SplitJoin(stem, ext);
  }

  lemma NoSeparatorInJoin(stem: seq<byte>, ext: seq<byte>)
    requires SLASH !in stem && SLASH !in ext
    ensures SLASH !in stem + [DOT] + ext
  {
  }

  lemma SplitJoin(stem: seq<byte>, ext: seq<byte>)
    requires stem != [] && ext != [] && DOT !in ext
    ensures SplitAtLastDot(stem + [DOT] + ext) == (Some(stem), Some(ext))
  {
    var name := stem + [DOT] + ext;
    AfterLastSuffix(stem, ext, DOT);
    assert name[..|name| - |ext| - 1] == stem;
  }

  lemma {:induction false} AfterLastSuffix(pre: seq<byte>, post: seq<byte>, sep: byte)
    requires sep !in post
    ensures AfterLast(pre + [sep] + post, sep) == post
    decreases |post|
  {
    var p := pre + [sep] + post;
    if post == [] {
    } else {
      assert p[..|p| - 1] == pre + [sep] + post[..|post| - 1];
      AfterLastSuffix(pre, post[..|post| - 1], sep);
    }
  }
}
