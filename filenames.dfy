/**
 * The ROM path, the base path derived from it (`S9xSetRomFile`) and the
 * sibling file names built from the base path (`S9xGetFilename`).
 */
module Filenames {
  import opened Wrappers
  import opened CString

  /** The file kinds `S9xGetFilename` is asked for; `Unknown` is any other tag. */
  datatype FileType = Rom | Sram | Freeze | Cheat | Ips | Screenshot | Sdd1Dat | Unknown

  /** The stored ROM path: `strndup(path, PATH_MAX)`. */
  function RomFileOf(path: string): (r: string)
    ensures |r| <= PATH_MAX && |r| <= |path| && r == path[..|r|]
    ensures |path| <= PATH_MAX ==> r == path
    ensures |path| > PATH_MAX ==> |r| == PATH_MAX
  {
    TruncateTo(path, PATH_MAX)
  }

  /** The base path: the ROM path cut just before its last '.', or all of it. */
  function BasePathOf(rom: string): (r: string)
    ensures '.' !in rom ==> r == rom
    ensures '.' in rom ==> |r| < |rom| && rom == r + "." + rom[|r| + 1..] && '.' !in rom[|r| + 1..]
  {
    match LastIndexOf(rom, '.')
    case None => rom
    case Some(i) =>
      assert rom == rom[..i] + "." + rom[i + 1..];
      rom[..i]
  }

  /** The extension `S9xGetFilename` appends for each non-ROM file kind. */
  function Extension(t: FileType): (r: string)
    requires t != Rom
    ensures |r| >= 3
    ensures '.' in r <==> t == Freeze
  {
    match t
    case Sram => "srm"
    case Freeze => "frz.gz"
    case Cheat => "cht"
    case Ips => "ips"
    case Screenshot => "png"
    case Sdd1Dat => "dat"
    case Unknown => "???"
  }

  /**
   * `S9xGetFilename`: the ROM path itself for `Rom`; otherwise
   * `snprintf(filename, PATH_MAX, "%s.%s", basePath, ext)`, which keeps at most
   * PATH_MAX - 1 characters. With no ROM loaded the pointers are NULL: the
   * ROM kind answers NULL and the others have no defined result (`None`).
   */
  function GetFilename(romFile: Option<string>, basePath: Option<string>, t: FileType): (r: Option<string>)
    ensures t == Rom ==> r == romFile
    ensures t != Rom ==> (r.Some? <==> basePath.Some?)
    ensures t != Rom && r.Some? ==>
      var full := basePath.value + "." + Extension(t);
      |r.value| < PATH_MAX && |r.value| <= |full| && r.value == full[..|r.value|] &&
      (|full| < PATH_MAX ==> r.value == full) &&
      (|full| >= PATH_MAX ==> |r.value| == PATH_MAX - 1)
  {
    if t == Rom then romFile
    else match basePath
      case None => None
      case Some(base) => Some(TruncateTo(base + "." + Extension(t), PATH_MAX - 1))
  }

  /** The extensions differ between kinds, so the sibling files never collide. */
  lemma SiblingsDistinct(base: string, t: FileType, u: FileType)
    requires t != Rom && u != Rom && t != u
    requires |base| + 7 < PATH_MAX
    ensures GetFilename(None, Some(base), t) != GetFilename(None, Some(base), u)
  {
    var a, b := base + "." + Extension(t), base + "." + Extension(u);
    assert a[|base| + 1..] == Extension(t) && b[|base| + 1..] == Extension(u);
  }

  /** Cutting `base + "." + ext` at its last '.' gives `base` back when `ext` has no dot. */
  lemma CutExtension(base: string, ext: string)
    requires '.' !in ext
    ensures BasePathOf(base + "." + ext) == base
  {
    LastIndexOfAppend(base, '.', ext);
    assert (base + "." + ext)[..|base|] == base;
  }

  /**
   * Cutting a sibling name at its last '.' gives back the base path whenever
   * the extension has no dot; for the freeze file, whose extension is
   * "frz.gz", it takes two cuts.
   */
  lemma SiblingBasePath(base: string, t: FileType)
    requires t != Rom
    requires |base| + 7 < PATH_MAX
    ensures var name := GetFilename(None, Some(base), t).value;
      if t == Freeze then BasePathOf(BasePathOf(name)) == base
      else BasePathOf(name) == base
  {
    var ext := Extension(t);
    assert GetFilename(None, Some(base), t).value == base + "." + ext;
    if t == Freeze {
      assert base + "." + ext == (base + ".frz") + "." + "gz";
      CutExtension(base + ".frz", "gz");
      assert base + ".frz" == base + "." + "frz";
      CutExtension(base, "frz");
    } else {
      assert '.' !in ext;
      CutExtension(base, ext);
    }
  }
}
