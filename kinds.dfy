/**
 * The item kinds of a bank and how a file is classified into one (the
 * classifier), the metadata record, bank identifiers and the on-disk
 * location record: the shared definitions of the bank format.
 */
module Kinds {
  import opened Bytes
  import opened Outcome
  import opened Paths

  /** First bytes of every bank: 0x89 'k' 'H' 's'. */
  const FILE_ID: seq<byte> := [137, 107, 72, 115]

  /** The corruption-check bytes, the same as the PNG header's. */
  const CORRUPTION_CHECK_BYTES: seq<byte> := [0x0d, 0x0a, 0x1a, 0x0a]

  /** "Bank0001". */
  const FORMAT_VERSION: seq<byte> := [66, 97, 110, 107, 48, 48, 48, 49]

  const BACKGROUND_FILE_STEM: string := "background"
  const METADATA_FILE_NAME: string := "index.json"

  /** Separator between a directory and a file name inside a bank. */
  const PATH_SEPARATOR: byte := SLASH

  const KIND_COUNT: nat := 41

  /** Kinds of files a bank holds, in the order they appear in a bank. */
  datatype ItemKind =
    | Background
    | Metadata
    | Sample
    | MultipassPreset
    | PhasePlantPreset
    | SnapHeapPreset
    | ThreeBandEq
    | Bitcrush
    | CarveEq
    | Chorus
    | CombFilter
    | Compressor
    | Convolver
    | Delay
    | Disperser
    | Distortion
    | Dynamics
    | Ensemble
    | Faturator
    | Filter
    | Flanger
    | FormatFilter
    | FrequencyShifter
    | Gain
    | Gate
    | Haas
    | LadderFilter
    | Limiter
    | NonlinearFilter
    | PhaseDistortion
    | Phaser
    | PitchShifter
    | Resonator
    | Reverb
    | Reverser
    | RingMod
    | SliceEq
    | Stereo
    | TapeStop
    | TranceGate
    | TransientShaper

  /** Position in the declaration, which the derived `Ord` follows. */
  function Index(k: ItemKind): (r: nat)
    ensures r < KIND_COUNT
  {
    match k
    case Background => 0
    case Metadata => 1
    case Sample => 2
    case MultipassPreset => 3
    case PhasePlantPreset => 4
    case SnapHeapPreset => 5
    case ThreeBandEq => 6
    case Bitcrush => 7
    case CarveEq => 8
    case Chorus => 9
    case CombFilter => 10
    case Compressor => 11
    case Convolver => 12
    case Delay => 13
    case Disperser => 14
    case Distortion => 15
    case Dynamics => 16
    case Ensemble => 17
    case Faturator => 18
    case Filter => 19
    case Flanger => 20
    case FormatFilter => 21
    case FrequencyShifter => 22
    case Gain => 23
    case Gate => 24
    case Haas => 25
    case LadderFilter => 26
    case Limiter => 27
    case NonlinearFilter => 28
    case PhaseDistortion => 29
    case Phaser => 30
    case PitchShifter => 31
    case Resonator => 32
    case Reverb => 33
    case Reverser => 34
    case RingMod => 35
    case SliceEq => 36
    case Stereo => 37
    case TapeStop => 38
    case TranceGate => 39
    case TransientShaper => 40
  }

  /** The kind declared at position i. */
  function KindAt(i: nat): ItemKind
    requires i < KIND_COUNT
  {
    match i
    case 0 => Background
    case 1 => Metadata
    case 2 => Sample
    case 3 => MultipassPreset
    case 4 => PhasePlantPreset
    case 5 => SnapHeapPreset
    case 6 => ThreeBandEq
    case 7 => Bitcrush
    case 8 => CarveEq
    case 9 => Chorus
    case 10 => CombFilter
    case 11 => Compressor
    case 12 => Convolver
    case 13 => Delay
    case 14 => Disperser
    case 15 => Distortion
    case 16 => Dynamics
    case 17 => Ensemble
    case 18 => Faturator
    case 19 => Filter
    case 20 => Flanger
    case 21 => FormatFilter
    case 22 => FrequencyShifter
    case 23 => Gain
    case 24 => Gate
    case 25 => Haas
    case 26 => LadderFilter
    case 27 => Limiter
    case 28 => NonlinearFilter
    case 29 => PhaseDistortion
    case 30 => Phaser
    case 31 => PitchShifter
    case 32 => Resonator
    case 33 => Reverb
    case 34 => Reverser
    case 35 => RingMod
    case 36 => SliceEq
    case 37 => Stereo
    case 38 => TapeStop
    case 39 => TranceGate
    case _ => TransientShaper
  }

  lemma KindAtIndex(k: ItemKind)
    ensures KindAt(Index(k)) == k
  {
    match k
    case Background =>
    case Metadata =>
    case Sample =>
    case MultipassPreset =>
    case PhasePlantPreset =>
    case SnapHeapPreset =>
    case ThreeBandEq =>
    case Bitcrush =>
    case CarveEq =>
    case Chorus =>
    case CombFilter =>
    case Compressor =>
    case Convolver =>
    case Delay =>
    case Disperser =>
    case Distortion =>
    case Dynamics =>
    case Ensemble =>
    case Faturator =>
    case Filter =>
    case Flanger =>
    case FormatFilter =>
    case FrequencyShifter =>
    case Gain =>
    case Gate =>
    case Haas =>
    case LadderFilter =>
    case Limiter =>
    case NonlinearFilter =>
    case PhaseDistortion =>
    case Phaser =>
    case PitchShifter =>
    case Resonator =>
    case Reverb =>
    case Reverser =>
    case RingMod =>
    case SliceEq =>
    case Stereo =>
    case TapeStop =>
    case TranceGate =>
    case TransientShaper =>
  }

  /** The declaration order is a total order on kinds: Index is one-to-one. */
  lemma IndexInjective(a: ItemKind, b: ItemKind)
    ensures Index(a) == Index(b) <==> a == b
  {
    KindAtIndex(a);
    KindAtIndex(b);
  }

  /** File name extensions of a kind, without the leading dot; every kind has one. */
  function Extensions(k: ItemKind): (r: seq<string>)
    ensures |r| >= 1
  {
    match k
    case Background => ["jpg", "png"]
    case Metadata => ["json"]
    case Sample => ["flac", "mp3", "wav"]
    case MultipassPreset => ["multipass"]
    case PhasePlantPreset => ["phaseplant"]
    case SnapHeapPreset => ["snapheap"]
    case ThreeBandEq => ["ksqe"]
    case Bitcrush => ["ksbc"]
    case CarveEq => ["ksge"]
    case Chorus => ["ksch"]
    case CombFilter => ["kscf"]
    case Compressor => ["kscp"]
    case Convolver => ["ksco"]
    case Delay => ["ksdl"]
    case Disperser => ["kdsp"]
    case Distortion => ["ksdt"]
    case Dynamics => ["ksot"]
    case Ensemble => ["ksun"]
    case Faturator => ["kfat"]
    case Filter => ["ksfi"]
    case Flanger => ["ksfl"]
    case FormatFilter => ["ksvf"]
    case FrequencyShifter => ["ksfs"]
    case Gain => ["ksgn"]
    case Gate => ["ksgt"]
    case Haas => ["ksha"]
    case LadderFilter => ["ksla"]
    case Limiter => ["kslt"]
    case NonlinearFilter => ["ksdf"]
    case PhaseDistortion => ["kspd"]
    case Phaser => ["ksph"]
    case PitchShifter => ["ksps"]
    case Resonator => ["ksre"]
    case Reverb => ["ksrv"]
    case Reverser => ["ksrr"]
    case RingMod => ["ksrm"]
    case SliceEq => ["kpeq"]
    case Stereo => ["ksst"]
    case TapeStop => ["ksts"]
    case TranceGate => ["kstg"]
    case TransientShaper => ["kstr"]
  }

  /** Name of the directory that holds files of this kind inside a bank. */
  function Directory(k: ItemKind): Option<string>
  {
    match k
    case Background => None
    case Metadata => None
    case Sample => Some("samples")
    case _ => Some(Extensions(k)[0])
  }

  /** A non-empty word of lower-case ASCII letters and digits. */
  predicate IsLowerAsciiWord(s: string)
  {
    s != [] && forall i :: 0 <= i < |s| ==> 'a' <= s[i] <= 'z' || '0' <= s[i] <= '9'
  }

  /** Every kind's search order position: `ItemKind::all()`. */
  function All(): (r: seq<ItemKind>)
    ensures |r| == KIND_COUNT
  {
    [
      Background,
      Metadata,
      MultipassPreset,
      PhasePlantPreset,
      SnapHeapPreset,
      Sample,
      ThreeBandEq,
      Bitcrush,
      CarveEq,
      Chorus,
      CombFilter,
      Compressor,
      Convolver,
      Delay,
      Disperser,
      Distortion,
      Dynamics,
      Ensemble,
      Faturator,
      Filter,
      Flanger,
      FormatFilter,
      FrequencyShifter,
      Gain,
      Gate,
      Haas,
      LadderFilter,
      Limiter,
      NonlinearFilter,
      PhaseDistortion,
      Phaser,
      PitchShifter,
      Resonator,
      Reverb,
      Reverser,
      RingMod,
      SliceEq,
      Stereo,
      TapeStop,
      TranceGate,
      TransientShaper
    ]
  }

  /** Does some extension of the list equal ext, ignoring ASCII case? */
  function AnyExtensionMatches(exts: seq<string>, ext: seq<byte>): (r: bool)
    ensures r <==> exists i :: 0 <= i < |exts| && EqIgnoreAsciiCase(AsciiBytes(exts[i]), ext)
  {
    if exts == [] then false
    else if EqIgnoreAsciiCase(AsciiBytes(exts[0]), ext) then true
    else
      var r := AnyExtensionMatches(exts[1..], ext);
      assert r ==> exists i :: 1 <= i < |exts| && EqIgnoreAsciiCase(AsciiBytes(exts[i]), ext) by {
        if r {
          var i :| 0 <= i < |exts| - 1 && EqIgnoreAsciiCase(AsciiBytes(exts[1..][i]), ext);
          assert exts[1..][i] == exts[i + 1];
        }
      }
      r
  }

  /** `has_extension`: the extension is one of the kind's, ignoring ASCII case. */
  predicate HasExtension(k: ItemKind, ext: seq<byte>)
  {
    AnyExtensionMatches(Extensions(k), ext)
  }

  /** `find` over a list of kinds: the first one that has the extension. */
  function FindByExtension(kinds: seq<ItemKind>, ext: seq<byte>): Option<ItemKind>
  {
    if kinds == [] then None
    else if HasExtension(kinds[0], ext) then Some(kinds[0])
    else FindByExtension(kinds[1..], ext)
  }

  /**
   * The search finds nothing exactly when no kind of the list has the
   * extension, and otherwise finds a kind that has it with none before it
   * that does.
   */
  lemma {:induction false} FindByExtensionSpec(kinds: seq<ItemKind>, ext: seq<byte>)
    ensures var r := FindByExtension(kinds, ext);
            (r.None? <==> forall i :: 0 <= i < |kinds| ==> !HasExtension(kinds[i], ext))
            && (r.Some? ==> exists i :: 0 <= i < |kinds| && kinds[i] == r.value && HasExtension(r.value, ext)
                                        && forall j :: 0 <= j < i ==> !HasExtension(kinds[j], ext))
  {
    if kinds != [] && !HasExtension(kinds[0], ext) {
      var tail := kinds[1..];
      FindByExtensionSpec(tail, ext);
      var r := FindByExtension(tail, ext);
      assert FindByExtension(kinds, ext) == r;
      if r.Some? {
        var i :| 0 <= i < |tail| && tail[i] == r.value && HasExtension(r.value, ext)
                && forall j :: 0 <= j < i ==> !HasExtension(tail[j], ext);
        assert kinds[i + 1] == r.value;
        forall j | 0 <= j < i + 1 ensures !HasExtension(kinds[j], ext) {
          if j > 0 { assert kinds[j] == tail[j - 1]; }
        }
      } else {
        forall i | 0 <= i < |kinds| ensures !HasExtension(kinds[i], ext) {
          if i > 0 { assert kinds[i] == tail[i - 1]; }
        }
      }
    }
  }

  /**
   * `ItemKind::from`: "index.json" is metadata and "background" a background
   * image, both by the whole file name ignoring ASCII case; otherwise the
   * first kind in `All()` order that has the file's extension.
   */
  function From(path: seq<byte>): Option<ItemKind>
  {
    var name := FileName(path).GetOr([]);
    if EqIgnoreAsciiCase(name, AsciiBytes(METADATA_FILE_NAME)) then Some(Metadata)
    else if EqIgnoreAsciiCase(name, AsciiBytes(BACKGROUND_FILE_STEM)) then Some(Background)
    else
      match Extension(path)
      case None => None
      case Some(ext) => FindByExtension(All(), ext)
  }

  /** Every extension is a lower-case ASCII word. */
  lemma ExtensionsAreLowerAscii(k: ItemKind)
    ensures forall i :: 0 <= i < |Extensions(k)| ==> IsLowerAsciiWord(Extensions(k)[i])
  {
    if Index(k) < 6 {
      ExtensionsAreLowerAsciiFirst(k);
    } else if Index(k) < 24 {
      ExtensionsAreLowerAsciiMiddle(k);
    } else {
      ExtensionsAreLowerAsciiLast(k);
    }
  }

  /** ExtensionsAreLowerAscii for the root kinds and the presets. */
  lemma ExtensionsAreLowerAsciiFirst(k: ItemKind)
    requires Index(k) < 6
    ensures forall i :: 0 <= i < |Extensions(k)| ==> IsLowerAsciiWord(Extensions(k)[i])
  {
    match k
    case Background =>
    case Metadata =>
    case Sample =>
    case MultipassPreset =>
    case PhasePlantPreset =>
    case SnapHeapPreset =>
    case _ =>
      assert false;
  }

  /** ExtensionsAreLowerAscii for the first effects. */
  lemma ExtensionsAreLowerAsciiMiddle(k: ItemKind)
    requires 6 <= Index(k) < 24
    ensures forall i :: 0 <= i < |Extensions(k)| ==> IsLowerAsciiWord(Extensions(k)[i])
  {
    match k
    case ThreeBandEq =>
    case Bitcrush =>
    case CarveEq =>
    case Chorus =>
    case CombFilter =>
    case Compressor =>
    case Convolver =>
    case Delay =>
    case Disperser =>
    case Distortion =>
    case Dynamics =>
    case Ensemble =>
    case Faturator =>
    case Filter =>
    case Flanger =>
    case FormatFilter =>
    case FrequencyShifter =>
    case Gain =>
    case _ =>
      assert false;
  }

  /** ExtensionsAreLowerAscii for the remaining effects. */
  lemma ExtensionsAreLowerAsciiLast(k: ItemKind)
    requires 24 <= Index(k)
    ensures forall i :: 0 <= i < |Extensions(k)| ==> IsLowerAsciiWord(Extensions(k)[i])
  {
    match k
    case Gate =>
    case Haas =>
    case LadderFilter =>
    case Limiter =>
    case NonlinearFilter =>
    case PhaseDistortion =>
    case Phaser =>
    case PitchShifter =>
    case Resonator =>
    case Reverb =>
    case Reverser =>
    case RingMod =>
    case SliceEq =>
    case Stereo =>
    case TapeStop =>
    case TranceGate =>
    case TransientShaper =>
    case _ =>
      assert false;
  }

  /**
   * Background images and the metadata record sit at the root of a bank;
   * samples go under "samples", which is not their first extension; every
   * other kind's directory is its first extension. Directory names are
   * lower-case ASCII words.
   */
  lemma DirectoryNames(k: ItemKind)
    ensures Directory(k).None? <==> k == Background || k == Metadata
    ensures k == Sample ==> Directory(k) == Some("samples") && Extensions(k)[0] == "flac"
    ensures k != Sample && Directory(k).Some? ==> Directory(k).value == Extensions(k)[0]
    ensures Directory(k).Some? ==> IsLowerAsciiWord(Directory(k).value)
  {
    ExtensionsAreLowerAscii(k);
    if k == Sample {
      assert IsLowerAsciiWord("samples");
    }
  }

  /** `all()` lists 41 kinds and every kind is among them. */
  lemma AllListsEveryKind(k: ItemKind)
    ensures k in All()
  {
    match k
    case _ =>
  }

  /** The bytes of a lower-case ASCII word: no zero, separator or dot, and no upper case. */
  lemma LowerWordBytes(s: string)
    requires IsLowerAsciiWord(s)
    ensures AsciiBytes(s) != []
    ensures 0 !in AsciiBytes(s) && SLASH !in AsciiBytes(s) && DOT !in AsciiBytes(s)
    ensures forall i :: 0 <= i < |s| ==> ToAsciiLower(AsciiBytes(s)[i]) == AsciiBytes(s)[i]
  {
    var b := AsciiBytes(s);
    forall i | 0 <= i < |s| ensures 48 <= b[i] <= 57 || 97 <= b[i] <= 122 {
      assert b[i] == s[i] as int;
    }
  }

  /** The extension checks that the classifier's tests make. */
  lemma MetadataExtensionExamples()
    ensures Extensions(Metadata) == ["json"]
    ensures HasExtension(Metadata, AsciiBytes("json"))
    ensures HasExtension(Metadata, AsciiBytes("JSON"))
    ensures !HasExtension(Metadata, AsciiBytes("txt"))
  {
    assert EqIgnoreAsciiCase(AsciiBytes("json"), AsciiBytes("JSON")) by {
      var a, b := AsciiBytes("json"), AsciiBytes("JSON");
      assert a == [106, 115, 111, 110];
      assert b == [74, 83, 79, 78];
    }
  }

  /** A file named "index.json", in any letter case, is metadata; this test comes first. */
  lemma FromMetadataFileName(path: seq<byte>)
    requires EqIgnoreAsciiCase(FileName(path).GetOr([]), AsciiBytes(METADATA_FILE_NAME))
    ensures From(path) == Some(Metadata)
  {
  }

  /** A file named "background" (the whole name, in any letter case) is a background image. */
  lemma FromBackgroundFileName(path: seq<byte>)
    requires EqIgnoreAsciiCase(FileName(path).GetOr([]), AsciiBytes(BACKGROUND_FILE_STEM))
    ensures From(path) == Some(Background)
  {
    BackgroundIsNotMetadata(FileName(path).GetOr([]));
  }

  /** A name equal to "background" ignoring case is not "index.json" ignoring case: they differ in the first letter. */
  lemma BackgroundIsNotMetadata(name: seq<byte>)
    requires EqIgnoreAsciiCase(name, AsciiBytes(BACKGROUND_FILE_STEM))
    ensures !EqIgnoreAsciiCase(name, AsciiBytes(METADATA_FILE_NAME))
  {
    assert ToAsciiLower(name[0]) == ToAsciiLower(AsciiBytes(BACKGROUND_FILE_STEM)[0]) == 98;
    assert ToAsciiLower(AsciiBytes(METADATA_FILE_NAME)[0]) == 105;
  }

  /**
   * Any other file is classified by its extension: the kind found has that
   * extension and no kind before it in `all()` order does, and no kind is
   * found exactly when the file has no extension or no kind has it.
   */
  lemma FromExtension(path: seq<byte>)
    requires !EqIgnoreAsciiCase(FileName(path).GetOr([]), AsciiBytes(METADATA_FILE_NAME))
    requires !EqIgnoreAsciiCase(FileName(path).GetOr([]), AsciiBytes(BACKGROUND_FILE_STEM))
    ensures From(path).Some? ==>
              Extension(path).Some? && HasExtension(From(path).value, Extension(path).value)
              && exists i :: 0 <= i < |All()| && All()[i] == From(path).value
                             && forall j :: 0 <= j < i ==> !HasExtension(All()[j], Extension(path).value)
    ensures From(path).None? <==>
              Extension(path).None? || forall k: ItemKind :: !HasExtension(k, Extension(path).value)
  {
    if Extension(path).Some? {
      FindByExtensionSpec(All(), Extension(path).value);
      if From(path).None? {
        forall k: ItemKind ensures !HasExtension(k, Extension(path).value) {
          AllListsEveryKind(k);
        }
      }
    }
  }

  /**
   * Every file whose extension is a background image's (jpg or png, any
   * case) is classified as a background image, because Background is
   * searched first, not only a file named "background".
   */
  lemma ImageFilesAreBackground(path: seq<byte>)
    requires !EqIgnoreAsciiCase(FileName(path).GetOr([]), AsciiBytes(METADATA_FILE_NAME))
    requires Extension(path).Some? && HasExtension(Background, Extension(path).value)
    ensures From(path) == Some(Background)
  {
  }

  /**
   * The kind that lists the extension e, looked up letter by letter: an
   * inverse of the extension table written independently of it.
   */
  function KindOfExtension(e: string): Option<ItemKind>
  {
    if |e| <= 0 then None else
    match e[0]
    case 'f' => (if |e| <= 1 then None else
      match e[1]
      case 'l' => (if |e| <= 2 then None else
        match e[2]
        case 'a' => (if |e| <= 3 then None else
          match e[3]
          case 'c' => (if |e| == 4 then Some(Sample) else None)
          case _ => None)
        case _ => None)
      case _ => None)
    case 'j' => (if |e| <= 1 then None else
      match e[1]
      case 'p' => (if |e| <= 2 then None else
        match e[2]
        case 'g' => (if |e| == 3 then Some(Background) else None)
        case _ => None)
      case 's' => (if |e| <= 2 then None else
        match e[2]
        case 'o' => (if |e| <= 3 then None else
          match e[3]
          case 'n' => (if |e| == 4 then Some(Metadata) else None)
          case _ => None)
        case _ => None)
      case _ => None)
    case 'k' => (if |e| <= 1 then None else
      match e[1]
      case 'd' => (if |e| <= 2 then None else
        match e[2]
        case 's' => (if |e| <= 3 then None else
          match e[3]
          case 'p' => (if |e| == 4 then Some(Disperser) else None)
          case _ => None)
        case _ => None)
      case 'f' => (if |e| <= 2 then None else
        match e[2]
        case 'a' => (if |e| <= 3 then None else
          match e[3]
          case 't' => (if |e| == 4 then Some(Faturator) else None)
          case _ => None)
        case _ => None)
      case 'p' => (if |e| <= 2 then None else
        match e[2]
        case 'e' => (if |e| <= 3 then None else
          match e[3]
          case 'q' => (if |e| == 4 then Some(SliceEq) else None)
          case _ => None)
        case _ => None)
      case 's' => (if |e| <= 2 then None else
        match e[2]
        case 'b' => (if |e| <= 3 then None else
          match e[3]
          case 'c' => (if |e| == 4 then Some(Bitcrush) else None)
          case _ => None)
        case 'c' => (if |e| <= 3 then None else
          match e[3]
          case 'f' => (if |e| == 4 then Some(CombFilter) else None)
          case 'h' => (if |e| == 4 then Some(Chorus) else None)
          case 'o' => (if |e| == 4 then Some(Convolver) else None)
          case 'p' => (if |e| == 4 then Some(Compressor) else None)
          case _ => None)
        case 'd' => (if |e| <= 3 then None else
          match e[3]
          case 'f' => (if |e| == 4 then Some(NonlinearFilter) else None)
          case 'l' => (if |e| == 4 then Some(Delay) else None)
          case 't' => (if |e| == 4 then Some(Distortion) else None)
          case _ => None)
        case 'f' => (if |e| <= 3 then None else
          match e[3]
          case 'i' => (if |e| == 4 then Some(Filter) else None)
          case 'l' => (if |e| == 4 then Some(Flanger) else None)
          case 's' => (if |e| == 4 then Some(FrequencyShifter) else None)
          case _ => None)
        case 'g' => (if |e| <= 3 then None else
          match e[3]
          case 'e' => (if |e| == 4 then Some(CarveEq) else None)
          case 'n' => (if |e| == 4 then Some(Gain) else None)
          case 't' => (if |e| == 4 then Some(Gate) else None)
          case _ => None)
        case 'h' => (if |e| <= 3 then None else
          match e[3]
          case 'a' => (if |e| == 4 then Some(Haas) else None)
          case _ => None)
        case 'l' => (if |e| <= 3 then None else
          match e[3]
          case 'a' => (if |e| == 4 then Some(LadderFilter) else None)
          case 't' => (if |e| == 4 then Some(Limiter) else None)
          case _ => None)
        case 'o' => (if |e| <= 3 then None else
          match e[3]
          case 't' => (if |e| == 4 then Some(Dynamics) else None)
          case _ => None)
        case 'p' => (if |e| <= 3 then None else
          match e[3]
          case 'd' => (if |e| == 4 then Some(PhaseDistortion) else None)
          case 'h' => (if |e| == 4 then Some(Phaser) else None)
          case 's' => (if |e| == 4 then Some(PitchShifter) else None)
          case _ => None)
        case 'q' => (if |e| <= 3 then None else
          match e[3]
          case 'e' => (if |e| == 4 then Some(ThreeBandEq) else None)
          case _ => None)
        case 'r' => (if |e| <= 3 then None else
          match e[3]
          case 'e' => (if |e| == 4 then Some(Resonator) else None)
          case 'm' => (if |e| == 4 then Some(RingMod) else None)
          case 'r' => (if |e| == 4 then Some(Reverser) else None)
          case 'v' => (if |e| == 4 then Some(Reverb) else None)
          case _ => None)
        case 's' => (if |e| <= 3 then None else
          match e[3]
          case 't' => (if |e| == 4 then Some(Stereo) else None)
          case _ => None)
        case 't' => (if |e| <= 3 then None else
          match e[3]
          case 'g' => (if |e| == 4 then Some(TranceGate) else None)
          case 'r' => (if |e| == 4 then Some(TransientShaper) else None)
          case 's' => (if |e| == 4 then Some(TapeStop) else None)
          case _ => None)
        case 'u' => (if |e| <= 3 then None else
          match e[3]
          case 'n' => (if |e| == 4 then Some(Ensemble) else None)
          case _ => None)
        case 'v' => (if |e| <= 3 then None else
          match e[3]
          case 'f' => (if |e| == 4 then Some(FormatFilter) else None)
          case _ => None)
        case _ => None)
      case _ => None)
    case 'm' => (if |e| <= 1 then None else
      match e[1]
      case 'p' => (if |e| <= 2 then None else
        match e[2]
        case '3' => (if |e| == 3 then Some(Sample) else None)
        case _ => None)
      case 'u' => (if |e| <= 2 then None else
        match e[2]
        case 'l' => (if |e| <= 3 then None else
          match e[3]
          case 't' => (if |e| <= 4 then None else
            match e[4]
            case 'i' => (if |e| <= 5 then None else
              match e[5]
              case 'p' => (if |e| <= 6 then None else
                match e[6]
                case 'a' => (if |e| <= 7 then None else
                  match e[7]
                  case 's' => (if |e| <= 8 then None else
                    match e[8]
                    case 's' => (if |e| == 9 then Some(MultipassPreset) else None)
                    case _ => None)
                  case _ => None)
                case _ => None)
              case _ => None)
            case _ => None)
          case _ => None)
        case _ => None)
      case _ => None)
    case 'p' => (if |e| <= 1 then None else
      match e[1]
      case 'h' => (if |e| <= 2 then None else
        match e[2]
        case 'a' => (if |e| <= 3 then None else
          match e[3]
          case 's' => (if |e| <= 4 then None else
            match e[4]
            case 'e' => (if |e| <= 5 then None else
              match e[5]
              case 'p' => (if |e| <= 6 then None else
                match e[6]
                case 'l' => (if |e| <= 7 then None else
                  match e[7]
                  case 'a' => (if |e| <= 8 then None else
                    match e[8]
                    case 'n' => (if |e| <= 9 then None else
                      match e[9]
                      case 't' => (if |e| == 10 then Some(PhasePlantPreset) else None)
                      case _ => None)
                    case _ => None)
                  case _ => None)
                case _ => None)
              case _ => None)
            case _ => None)
          case _ => None)
        case _ => None)
      case 'n' => (if |e| <= 2 then None else
        match e[2]
        case 'g' => (if |e| == 3 then Some(Background) else None)
        case _ => None)
      case _ => None)
    case 's' => (if |e| <= 1 then None else
      match e[1]
      case 'n' => (if |e| <= 2 then None else
        match e[2]
        case 'a' => (if |e| <= 3 then None else
          match e[3]
          case 'p' => (if |e| <= 4 then None else
            match e[4]
            case 'h' => (if |e| <= 5 then None else
              match e[5]
              case 'e' => (if |e| <= 6 then None else
                match e[6]
                case 'a' => (if |e| <= 7 then None else
                  match e[7]
                  case 'p' => (if |e| == 8 then Some(SnapHeapPreset) else None)
                  case _ => None)
                case _ => None)
              case _ => None)
            case _ => None)
          case _ => None)
        case _ => None)
      case _ => None)
    case 'w' => (if |e| <= 1 then None else
      match e[1]
      case 'a' => (if |e| <= 2 then None else
        match e[2]
        case 'v' => (if |e| == 3 then Some(Sample) else None)
        case _ => None)
      case _ => None)
    case _ => None
  }

  lemma ExtensionOwner(k: ItemKind)
    ensures forall i :: 0 <= i < |Extensions(k)| ==> KindOfExtension(Extensions(k)[i]) == Some(k)
  {
    if Index(k) < 6 {
      ExtensionOwnerFirst(k);
    } else if Index(k) < 24 {
      ExtensionOwnerMiddle(k);
    } else {
      ExtensionOwnerLast(k);
    }
  }

  /** ExtensionOwner for the root kinds and the presets. */
  lemma ExtensionOwnerFirst(k: ItemKind)
    requires Index(k) < 6
    ensures forall i :: 0 <= i < |Extensions(k)| ==> KindOfExtension(Extensions(k)[i]) == Some(k)
  {
    match k
    case Background =>
    case Metadata =>
    case Sample =>
    case MultipassPreset =>
    case PhasePlantPreset =>
    case SnapHeapPreset =>
    case _ =>
      assert false;
  }

  /** ExtensionOwner for the first effects. */
  lemma ExtensionOwnerMiddle(k: ItemKind)
    requires 6 <= Index(k) < 24
    ensures forall i :: 0 <= i < |Extensions(k)| ==> KindOfExtension(Extensions(k)[i]) == Some(k)
  {
    match k
    case ThreeBandEq =>
    case Bitcrush =>
    case CarveEq =>
    case Chorus =>
    case CombFilter =>
    case Compressor =>
    case Convolver =>
    case Delay =>
    case Disperser =>
    case Distortion =>
    case Dynamics =>
    case Ensemble =>
    case Faturator =>
    case Filter =>
    case Flanger =>
    case FormatFilter =>
    case FrequencyShifter =>
    case Gain =>
    case _ =>
      assert false;
  }

  /** ExtensionOwner for the remaining effects. */
  lemma ExtensionOwnerLast(k: ItemKind)
    requires 24 <= Index(k)
    ensures forall i :: 0 <= i < |Extensions(k)| ==> KindOfExtension(Extensions(k)[i]) == Some(k)
  {
    match k
    case Gate =>
    case Haas =>
    case LadderFilter =>
    case Limiter =>
    case NonlinearFilter =>
    case PhaseDistortion =>
    case Phaser =>
    case PitchShifter =>
    case Resonator =>
    case Reverb =>
    case Reverser =>
    case RingMod =>
    case SliceEq =>
    case Stereo =>
    case TapeStop =>
    case TranceGate =>
    case TransientShaper =>
    case _ =>
      assert false;
  }

  /**
   * No two kinds share an extension, even ignoring ASCII case, so the
   * first-match search of `from` finds the only kind with the extension and
   * the `all()` order does not change the result.
   */
  lemma ExtensionsDisjoint(a: ItemKind, b: ItemKind, ext: seq<byte>)
    requires HasExtension(a, ext) && HasExtension(b, ext)
    ensures a == b
  {
    var i :| 0 <= i < |Extensions(a)| && EqIgnoreAsciiCase(AsciiBytes(Extensions(a)[i]), ext);
    var j :| 0 <= j < |Extensions(b)| && EqIgnoreAsciiCase(AsciiBytes(Extensions(b)[j]), ext);
    var x, y := Extensions(a)[i], Extensions(b)[j];
    ExtensionsAreLowerAscii(a);
    ExtensionsAreLowerAscii(b);
    SameLowerWord(x, y, ext);
    SharedExtension(a, b, i, j);
  }

  /** Two lower-case words that both equal ext ignoring ASCII case are the same word. */
  lemma SameLowerWord(x: string, y: string, ext: seq<byte>)
    requires IsLowerAsciiWord(x) && IsLowerAsciiWord(y)
    requires EqIgnoreAsciiCase(AsciiBytes(x), ext) && EqIgnoreAsciiCase(AsciiBytes(y), ext)
    ensures x == y
  {
    LowerWordBytes(x);
    LowerWordBytes(y);
    forall n | 0 <= n < |x| ensures x[n] == y[n] {
      assert AsciiBytes(x)[n] == AsciiBytes(y)[n];
      assert AsciiBytes(x)[n] == x[n] as int && AsciiBytes(y)[n] == y[n] as int;
    }
  }

  lemma SharedExtension(a: ItemKind, b: ItemKind, i: nat, j: nat)
    requires i < |Extensions(a)| && j < |Extensions(b)| && Extensions(a)[i] == Extensions(b)[j]
    ensures a == b
  {
    ExtensionOwner(a);
    ExtensionOwner(b);
  }

  /**
   * So any file whose extension some kind lists, and which is not named
   * "index.json" or "background", is classified as exactly that kind.
   */
  lemma FromFindsTheOwner(path: seq<byte>, k: ItemKind)
    requires !EqIgnoreAsciiCase(FileName(path).GetOr([]), AsciiBytes(METADATA_FILE_NAME))
    requires !EqIgnoreAsciiCase(FileName(path).GetOr([]), AsciiBytes(BACKGROUND_FILE_STEM))
    requires Extension(path).Some? && HasExtension(k, Extension(path).value)
    ensures From(path) == Some(k)
  {
    var ext := Extension(path).value;
    AllListsEveryKind(k);
    FindByExtensionSpec(All(), ext);
    var r := FindByExtension(All(), ext);
    assert r.Some?;
    ExtensionsDisjoint(r.value, k, ext);
  }

  // ---------------------------------------------------------------------
  // The metadata record and bank identifiers

  type u32 = n: int | 0 <= n < 0x1_0000_0000

  /** A JSON value kept verbatim among a record's unrecognised fields. */
  datatype JsonValue =
    | JsonNull
    | JsonBool(b: bool)
    | JsonNumber(literal: string)
    | JsonString(s: string)
    | JsonArray(elements: seq<JsonValue>)
    | JsonObject(members: map<string, JsonValue>)

  /** The record stored in "index.json". */
  datatype Metadata = MetadataRecord(
    version: Option<u32>,
    id: string,
    name: string,
    author: string,
    description: string,
    hash: Option<string>,
    extra: map<string, JsonValue>)

  /** `Metadata::default()`. */
  const DEFAULT_METADATA: Metadata := MetadataRecord(None, "", "", "", "", None, map[])

  predicate IsAsciiAlphanumeric(c: char)
  {
    'a' <= c <= 'z' || 'A' <= c <= 'Z' || '0' <= c <= '9'
  }

  /** `char::to_ascii_lowercase`, used by `sanitize_id`; `Bytes.ToAsciiLower` is the same map on bytes. */
  function ToAsciiLowercase(c: char): char
  {
    if 'A' <= c <= 'Z' then (c as int + 32) as char else c
  }

  /** A character a bank id may hold: a lower-case letter, a digit or a dot. */
  predicate IsIdChar(c: char)
  {
    'a' <= c <= 'z' || '0' <= c <= '9' || c == '.'
  }

  /**
   * `Metadata::sanitize_id`: keep the alphanumeric characters and dots,
   * lower-cased. The result holds only id characters and is no longer than
   * the input.
   */
  function SanitizeId(s: string): (r: string)
    ensures |r| <= |s|
    ensures forall i :: 0 <= i < |r| ==> IsIdChar(r[i])
  {
    if s == [] then ""
    else
      var head := if IsAsciiAlphanumeric(s[0]) || s[0] == '.' then [ToAsciiLowercase(s[0])] else "";
      head + SanitizeId(s[1..])
  }

  /** Sanitizing works character by character: it distributes over concatenation. */
  lemma {:induction false} SanitizeIdConcat(a: string, b: string)
    ensures SanitizeId(a + b) == SanitizeId(a) + SanitizeId(b)
  {
    if a == [] {
      assert a + b == b;
    } else {
      assert (a + b)[0] == a[0] && (a + b)[1..] == a[1..] + b;
      SanitizeIdConcat(a[1..], b);
    }
  }

  /** A string of id characters is left as it is. */
  lemma {:induction false} SanitizeIdKeepsIds(s: string)
    requires forall i :: 0 <= i < |s| ==> IsIdChar(s[i])
    ensures SanitizeId(s) == s
  {
    if s != [] {
      SanitizeIdKeepsIds(s[1..]);
    }
  }

  /** Sanitizing twice is sanitizing once. */
  lemma SanitizeIdIdempotent(s: string)
    ensures SanitizeId(SanitizeId(s)) == SanitizeId(s)
  {
    SanitizeIdKeepsIds(SanitizeId(s));
  }

  // ---------------------------------------------------------------------
  // Locations

  /** Number of bytes a location takes on disk: three u64 fields. */
  const LOCATION_BLOCK_SIZE: nat := 24

  /** One entry of the location table. */
  datatype Location = Location(fileNameOffset: u64, dataOffset: u64, dataSize: u64) {
    /**
     * `data_end`: one past the last payload byte. As a mathematical sum it
     * may exceed u64; the source's u64 addition would then overflow.
     */
    function DataEnd(): nat
    {
      dataOffset + dataSize
    }
  }

  /** A location as written: name offset, data offset, data size. */
  function EncodeLocation(loc: Location): (r: seq<byte>)
    ensures |r| == LOCATION_BLOCK_SIZE
  {
    LE64(loc.fileNameOffset) + LE64(loc.dataOffset) + LE64(loc.dataSize)
  }

  /** A location as read: three little-endian u64 values. */
  function DecodeLocation(b: seq<byte>): Location
    requires |b| == LOCATION_BLOCK_SIZE
  {
    Location(DecodeLE64(b[0..8]), DecodeLE64(b[8..16]), DecodeLE64(b[16..24]))
  }

  /** Reading back a written location gives the same location. */
  lemma LocationRoundTrip(loc: Location)
    ensures DecodeLocation(EncodeLocation(loc)) == loc
  {
    var b := EncodeLocation(loc);
    assert b[0..8] == LE64(loc.fileNameOffset);
    assert b[8..16] == LE64(loc.dataOffset);
    assert b[16..24] == LE64(loc.dataSize);
    LE64RoundTrip(loc.fileNameOffset);
    LE64RoundTrip(loc.dataOffset);
    LE64RoundTrip(loc.dataSize);
  }
}
