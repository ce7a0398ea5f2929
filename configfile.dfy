/** The configuration file classes of a bundle: list, mapping and INI files, the domain
    regex list with its per-encoding cache, and the patch order with its patches directory.
    One class stands for the whole hierarchy; `kind` says which subclass an object is. */
module ConfigFiles {
  import opened Base
  import opened Text
  import opened Layers
  import opened ListFormat
  import opened MappingFormat
  import opened IniFormat

  const PRUNING_LIST := "pruning.list"
  const DOMAIN_REGEX_LIST := "domain_regex.list"
  const DOMAIN_SUBSTITUTION_LIST := "domain_substitution.list"
  const EXTRA_DEPS_INI := "extra_deps.ini"
  const GN_FLAGS_MAP := "gn_flags.map"
  const BASEBUNDLEMETA_INI := "basebundlemeta.ini"
  const PATCH_ORDER_LIST := "patch_order.list"
  const PATCHES_DIR := "patches"
  const VERSION_INI := "version.ini"

  /** The concrete configuration classes. */
  datatype FileKind = PlainList | DomainRegex | PatchOrder | Mapping | ExtraDepsFile | VersionFile | BaseBundleMetaFile
  {
    /** Subclasses of `ListConfigFile`: never cached. */
    predicate IsList() { PlainList? || DomainRegex? || PatchOrder? }
    /** Subclasses of `IniConfigFile`. */
    predicate IsIni() { ExtraDepsFile? || VersionFile? || BaseBundleMetaFile? }

    /** The schema `_parse_data` validates against: each INI class has its own, and the
        other classes have none. */
    function Schema(): (r: IniSchema)
      ensures IsIni() <==> !r.AnyIni?
    {
      match this
      case ExtraDepsFile => ExtraDepsSchema(OPTIONAL_KEYS_AS_WRITTEN)
      case VersionFile => VersionSchema
      case BaseBundleMetaFile => BaseBundleMetaSchema
      case _ => AnyIni
    }
  }

  /** `_FILE_DEF`: the class of each file a bundle directory may hold; `None` marks a file
      that is handled elsewhere. */
  const FILE_DEF: map<string, Option<FileKind>> := map[
    BASEBUNDLEMETA_INI := None,
    PRUNING_LIST := Some(PlainList),
    DOMAIN_REGEX_LIST := Some(DomainRegex),
    DOMAIN_SUBSTITUTION_LIST := Some(PlainList),
    EXTRA_DEPS_INI := Some(ExtraDepsFile),
    GN_FLAGS_MAP := Some(Mapping),
    PATCH_ORDER_LIST := Some(PatchOrder),
    PATCHES_DIR := None,
    VERSION_INI := Some(VersionFile)]

  /** The files a bundle turns into configuration objects: every known name except the
      metadata file and the patches directory. */
  lemma FileDefKinds()
    ensures |FILE_DEF| == 9
    ensures forall n :: n in FILE_DEF && FILE_DEF[n].Some? <==>
      n in {PRUNING_LIST, DOMAIN_REGEX_LIST, DOMAIN_SUBSTITUTION_LIST, EXTRA_DEPS_INI, GN_FLAGS_MAP, PATCH_ORDER_LIST, VERSION_INI}
    ensures FILE_DEF[PATCH_ORDER_LIST] == Some(PatchOrder) && FILE_DEF[BASEBUNDLEMETA_INI] == None
  {
    assert |FILE_DEF.Keys| == 9;
  }

  /** Every file name of `_FILE_DEF` is non-empty. */
  lemma FileDefNonEmpty(n: string)
    requires n in FILE_DEF
    ensures n != ""
  {
    assert n in FILE_DEF.Keys;
  }

  /** What a cached class's `_parse_data` returns: the mapping's dict or the merged INI. */
  datatype ParsedData = MapData(dict: Dict) | IniData(ini: Ini)

  /** Python truthiness: a dict is true when non-empty; a ConfigParser always holds the
      DEFAULT section and is always true. */
  predicate Truthy(d: ParsedData)
  {
    match d
    case MapData(dict) => |dict.keys| > 0
    case IniData(_) => true
  }

  /** `_parse_data` of the cached classes. */
  function ParseData(fs: FileSystem, kind: FileKind, paths: seq<Path>): (r: Result<ParsedData>)
    requires kind.Mapping? || kind.IsIni()
    ensures kind.Mapping? ==> (r.Success? <==> MappingOf(fs, paths).Success?)
    ensures kind.Mapping? && r.Success? ==> r.value == MapData(MappingOf(fs, paths).value)
    ensures kind.IsIni() ==> (r.Success? <==> ParseIni(fs, paths, kind.Schema()).Success?)
    ensures kind.IsIni() && r.Success? ==> r.value == IniData(ParseIni(fs, paths, kind.Schema()).value)
    ensures r.Success? ==> Fits(kind, r.value)
  {
    if kind.Mapping? then
      var d :- MappingOf(fs, paths);
      MappingOfValid(fs, paths);
      Success(MapData(d))
    else
      var ini :- ParseIni(fs, paths, kind.Schema());
      Success(IniData(ini))
  }

  /** The parsed data has the shape its class produces, and a mapping's dict is well formed. */
  predicate Fits(kind: FileKind, d: ParsedData)
  {
    && (kind.Mapping? ==> d.MapData? && d.dict.Valid())
    && (kind.IsIni() ==> d.IniData?)
  }

  /** As written, the `extra_deps.ini` schema allows only single letters besides the
      required and hash keys, so layers whose merged sections set `strip_leading_dirs`
      raise SchemaError. */
  lemma {:induction false} ExtraDepsRefusesStripLeadingDirs(fs: FileSystem, paths: seq<Path>, s: string)
    requires IniLayers(fs, paths).Success? && s in IniLayers(fs, paths).value
    requires "strip_leading_dirs" in IniLayers(fs, paths).value[s]
    ensures ParseData(fs, ExtraDepsFile, paths) == Failure(SchemaError(paths))
  {
    var allowed := set k | k in REQUIRED_KEYS + OPTIONAL_KEYS_AS_WRITTEN + HASHES;
    forall i | 0 <= i < |OPTIONAL_KEYS_AS_WRITTEN|
      ensures OPTIONAL_KEYS_AS_WRITTEN[i] != "strip_leading_dirs"
    {
      assert |OPTIONAL_KEYS_AS_WRITTEN[i]| == 1;
    }
    assert "strip_leading_dirs" !in allowed;
    assert !ExtraDepsSectionOk(IniLayers(fs, paths).value[s], OPTIONAL_KEYS_AS_WRITTEN);
  }

  /** `key in self` on the parsed data: a mapping key or an INI section name. */
  predicate DataContains(d: ParsedData, item: string)
  {
    match d
    case MapData(dict) => item in dict.values
    case IniData(ini) => item in ini
  }

  /** `DomainRegexPair`; the pattern is kept as text, its compilation is not modelled. */
  datatype RegexPair = RegexPair(pattern: string, replacement: string)

  /** `lines[i]` is the first line that does not hold exactly one '#'. */
  predicate FirstMalformed(lines: seq<string>, i: int)
  {
    0 <= i < |lines| && Count(lines[i], '#') != 1 && forall j :: 0 <= j < i ==> Count(lines[j], '#') == 1
  }

  /** Every line holds exactly one `#`. */
  predicate Splittable(lines: seq<string>)
  {
    forall i :: 0 <= i < |lines| ==> Count(lines[i], '#') == 1
  }

  lemma SplittableSnoc(lines: seq<string>)
    requires lines != []
    ensures Splittable(lines) <==> Splittable(lines[..|lines| - 1]) && Count(lines[|lines| - 1], '#') == 1
  {
    var front := lines[..|lines| - 1];
    assert forall i :: 0 <= i < |front| ==> front[i] == lines[i];
  }

  /** `_compile_encode_regex` over the lines in order: each must split on '#' into exactly two
      parts, and the first line that does not is the error. */
  function RegexPairs(lines: seq<string>): (r: Result<seq<RegexPair>>)
    ensures r.Success? <==> Splittable(lines)
    ensures r.Success? ==> |r.value| == |lines|
    ensures r.Success? ==> forall i :: 0 <= i < |lines| ==> lines[i] == r.value[i].pattern + "#" + r.value[i].replacement
    ensures r.Failure? ==> exists i :: FirstMalformed(lines, i) && r.error == UnpackError(lines[i])
  {
    if lines == [] then Success([])
    else
      var front := lines[..|lines| - 1];
      var last := lines[|lines| - 1];
      assert forall i :: 0 <= i < |front| ==> front[i] == lines[i];
      SplittableSnoc(lines);
      match RegexPairs(front)
      case Failure(e) => Failure(e)
      case Success(pairs) =>
        match SplitPair(last, '#')
        case Failure(e) =>
          assert Count(lines[|lines| - 1], '#') != 1;
          Failure(e)
        case Success(pr) => Success(pairs + [RegexPair(pr.0, pr.1)])
  }

  /** `tuple(map(_compile_encode_regex, self, ...))`: the list is read lazily, so a malformed
      line is reported before a later layer that cannot be opened. */
  function CompileRegexPairs(s: Stream): (r: Result<seq<RegexPair>>)
    ensures r.Success? <==> RegexPairs(s.items).Success? && s.failure.None?
    ensures RegexPairs(s.items).Failure? ==> r == RegexPairs(s.items)
    ensures RegexPairs(s.items).Success? && s.failure.Some? ==> r == Failure(s.failure.value)
  {
    var pairs :- RegexPairs(s.items);
    if s.failure.Some? then Failure(s.failure.value) else Success(pairs)
  }

  /** The text a domain regex line is written as. */
  function RegexLine(p: RegexPair): string
  {
    p.pattern + "#" + p.replacement
  }

  /** Lines written from pairs whose parts hold no '#' read back as the same pairs. */
  lemma {:induction false} RegexPairsRoundTrip(pairs: seq<RegexPair>)
    requires forall i :: 0 <= i < |pairs| ==> '#' !in pairs[i].pattern && '#' !in pairs[i].replacement
    ensures RegexPairs(seq(|pairs|, i requires 0 <= i < |pairs| => RegexLine(pairs[i]))) == Success(pairs)
  {
    var lines := seq(|pairs|, i requires 0 <= i < |pairs| => RegexLine(pairs[i]));
    if pairs != [] {
      var n := |pairs|;
      RegexPairsRoundTrip(pairs[..n - 1]);
      assert lines[..n - 1] == seq(n - 1, i requires 0 <= i < n - 1 => RegexLine(pairs[..n - 1][i]));
      SplitPairOfItem(pairs[n - 1].pattern, pairs[n - 1].replacement, '#');
      assert pairs[..n - 1] + [pairs[n - 1]] == pairs;
    }
  }

  /** The patches directory `_get_patches_dir` resolves: the remembered one, or else a
      `patches` directory beside the patch order file, which must be a directory. */
  function PatchesDirOf(fs: FileSystem, remembered: Option<Path>, path: Path): (r: Result<Path>)
    ensures remembered.Some? ==> r == Success(remembered.value)
    ensures remembered.None? && fs.IsDir(Join(Parent(path), PATCHES_DIR)) ==> r == Success(Join(Parent(path), PATCHES_DIR))
    ensures remembered.None? && !fs.IsDir(Join(Parent(path), PATCHES_DIR)) ==> r == Failure(NotADirectory(Join(Parent(path), PATCHES_DIR)))
  {
    if remembered.Some? then Success(remembered.value)
    else
      var dir := Join(Parent(path), PATCHES_DIR);
      if fs.IsDir(dir) then Success(dir) else Failure(NotADirectory(dir))
  }

  /** What consuming `patch_iter` yields: the patch paths produced and the error that ended it. */
  datatype PathStream = PathStream(paths: seq<Path>, failure: Option<Error>)

  function PatchPaths(dir: Path, items: seq<string>): (r: seq<Path>)
    ensures |r| == |items| && forall i :: 0 <= i < |items| ==> r[i] == Join(dir, items[i])
  {
    seq(|items|, i requires 0 <= i < |items| => Join(dir, items[i]))
  }

  class ConfigFile {
    const path: Path
    const name: string
    const kind: FileKind
    /** `_path_order`. */
    const order: LayeredPaths
    /** `_read_cache` of the cached classes. */
    var readCache: Option<ParsedData>
    /** `DomainRegexList._compiled_regex`, keyed by encoding. */
    var compiledRegex: map<string, seq<RegexPair>>
    /** `PatchesConfig._patches_dir`. */
    var patchesDir: Option<Path>

    ghost predicate Valid()
      reads this, order
    {
      order.Valid() && (readCache.Some? ==> Fits(kind, readCache.value))
    }

    /** Nothing has been read, compiled or resolved yet. */
    predicate Pristine()
      reads this
    {
      readCache == None && compiledRegex == map[] && patchesDir == None
    }

    /** The body of `_ConfigABC.__init__` once the path is known to exist: an empty name
        falls back to the path's own name. */
    constructor (path: Path, name: string, kind: FileKind)
      ensures Valid() && fresh(order)
      ensures this.path == path && this.name == (if name != "" then name else Name(path)) && this.kind == kind
      ensures order.paths == [path] && readCache == None && compiledRegex == map[] && patchesDir == None
    {
      this.path := path;
      this.name := if name != "" then name else Name(path);
      this.kind := kind;
      order := new LayeredPaths(path);
      readCache := None;
      compiledRegex := map[];
      patchesDir := None;
    }

    /** The data `_config_data` hands out: the cache while it holds a true value, else a new parse. */
    ghost function Current(fs: FileSystem): (r: Result<ParsedData>)
      requires Valid() && (kind.Mapping? || kind.IsIni())
      reads this, order
      ensures r.Success? ==> Fits(kind, r.value)
    {
      if readCache.Some? && Truthy(readCache.value) then Success(readCache.value)
      else ParseData(fs, kind, order.paths)
    }

    /** `_CacheConfigMixin._config_data`: a true cached value is returned as is (even if the
        layers changed since); otherwise the layers are parsed and a successful result replaces
        the cache. */
    method ConfigData(fs: FileSystem) returns (r: Result<ParsedData>)
      requires Valid() && (kind.Mapping? || kind.IsIni())
      modifies this
      ensures Valid()
      ensures r == old(Current(fs))
      ensures readCache == if r.Success? then Some(r.value) else old(readCache)
      ensures compiledRegex == old(compiledRegex) && patchesDir == old(patchesDir)
    {
      if readCache.Some? && Truthy(readCache.value) {
        return Success(readCache.value);
      }
      if kind.Mapping? {
        var m := ParseMapping(fs, order.paths);
        if m.Failure? {
          return Failure(m.error);
        }
        MappingOfValid(fs, order.paths);
        r := Success(MapData(m.value));
      } else {
        var ini := LoadIni(fs, order.paths, kind.Schema());
        if ini.Failure? {
          return Failure(ini.error);
        }
        r := Success(IniData(ini.value));
      }
      readCache := Some(r.value);
    }

    /** `__contains__`: a list item (the search reads layers only until the item is found),
        a mapping key or an INI section. */
    method Contains(fs: FileSystem, item: string) returns (r: Result<bool>)
      requires Valid()
      modifies this
      ensures Valid()
      ensures kind.IsList() ==> r == ListContains(fs, order.paths, item) && readCache == old(readCache)
      ensures !kind.IsList() && (kind.Mapping? || kind.IsIni()) ==>
        var d := old(Current(fs));
        (r.Success? <==> d.Success?) && (r.Success? ==> r.value == DataContains(d.value, item)) &&
        readCache == if d.Success? then Some(d.value) else old(readCache)
      ensures compiledRegex == old(compiledRegex) && patchesDir == old(patchesDir)
    {
      if kind.IsList() {
        return ListContains(fs, order.paths, item);
      }
      var d := ConfigData(fs);
      if d.Failure? {
        return Failure(d.error);
      }
      return Success(DataContains(d.value, item));
    }

    /** `MappingConfigFile.__getitem__`: the value of a key, or a KeyError. */
    method GetValue(fs: FileSystem, key: string) returns (r: Result<string>)
      requires Valid() && kind.Mapping?
      modifies this
      ensures Valid()
      ensures var d := old(Current(fs));
        && (d.Failure? ==> r == Failure(d.error))
        && (d.Success? && key in d.value.dict.values ==> r == Success(d.value.dict.values[key]))
        && (d.Success? && key !in d.value.dict.values ==> r == Failure(KeyError(key)))
        && readCache == if d.Success? then Some(d.value) else old(readCache)
      ensures compiledRegex == old(compiledRegex) && patchesDir == old(patchesDir)
    {
      var d := ConfigData(fs);
      if d.Failure? {
        return Failure(d.error);
      }
      var values := d.value.dict.values;
      if key !in values {
        return Failure(KeyError(key));
      }
      return Success(values[key]);
    }

    /** `IniConfigFile.__getitem__` (and the section behind `ExtraDepsIni.__getitem__`): a
        section of the merged INI, or a KeyError. */
    method GetSection(fs: FileSystem, section: string) returns (r: Result<Section>)
      requires Valid() && kind.IsIni()
      modifies this
      ensures Valid()
      ensures var d := old(Current(fs));
        && (d.Failure? ==> r == Failure(d.error))
        && (d.Success? && section in d.value.ini ==> r == Success(d.value.ini[section]))
        && (d.Success? && section !in d.value.ini ==> r == Failure(KeyError(section)))
        && readCache == if d.Success? then Some(d.value) else old(readCache)
      ensures compiledRegex == old(compiledRegex) && patchesDir == old(patchesDir)
    {
      var d := ConfigData(fs);
      if d.Failure? {
        return Failure(d.error);
      }
      var ini := d.value.ini;
      if section !in ini {
        return Failure(KeyError(section));
      }
      return Success(ini[section]);
    }

    /** The whole merged INI, as the INI subclasses' properties read it. */
    method IniContents(fs: FileSystem) returns (r: Result<Ini>)
      requires Valid() && kind.IsIni()
      modifies this
      ensures Valid()
      ensures var d := old(Current(fs));
        && (d.Failure? ==> r == Failure(d.error))
        && (d.Success? ==> r == Success(d.value.ini))
        && readCache == if d.Success? then Some(d.value) else old(readCache)
      ensures compiledRegex == old(compiledRegex) && patchesDir == old(patchesDir)
    {
      var d := ConfigData(fs);
      if d.Failure? {
        return Failure(d.error);
      }
      return Success(d.value.ini);
    }

    /** `__iter__` of lists (every item) and mappings (keys in insertion order). */
    method Keys(fs: FileSystem) returns (r: Result<seq<string>>)
      requires Valid() && (kind.IsList() || kind.Mapping?)
      modifies this
      ensures Valid()
      ensures kind.IsList() ==> r == ParseList(fs, order.paths) && readCache == old(readCache)
      ensures kind.Mapping? ==> var d := old(Current(fs));
        && (d.Failure? ==> r == Failure(d.error))
        && (d.Success? ==> r == Success(d.value.dict.keys))
        && readCache == if d.Success? then Some(d.value) else old(readCache)
      ensures compiledRegex == old(compiledRegex) && patchesDir == old(patchesDir)
    {
      if kind.IsList() {
        return ParseList(fs, order.paths);
      }
      var d := ConfigData(fs);
      if d.Failure? {
        return Failure(d.error);
      }
      return Success(d.value.dict.keys);
    }

    /** `get_regex_pairs`: compiled once per encoding; a failed compilation caches nothing. */
    method GetRegexPairs(fs: FileSystem, encoding: string) returns (r: Result<seq<RegexPair>>)
      requires kind.DomainRegex?
      modifies this
      ensures encoding in old(compiledRegex) ==>
        r == Success(old(compiledRegex)[encoding]) && compiledRegex == old(compiledRegex)
      ensures encoding !in old(compiledRegex) ==>
        r == CompileRegexPairs(LineStream(fs, order.paths)) &&
        compiledRegex == if r.Success? then old(compiledRegex)[encoding := r.value] else old(compiledRegex)
      ensures readCache == old(readCache) && patchesDir == old(patchesDir)
    {
      if encoding !in compiledRegex {
        var pairs := CompileRegexPairs(LineStream(fs, order.paths));
        if pairs.Failure? {
          return pairs;
        }
        compiledRegex := compiledRegex[encoding := pairs.value];
      }
      return Success(compiledRegex[encoding]);
    }

    /** `set_patches_dir`: only an existing directory is accepted. */
    method SetPatchesDir(fs: FileSystem, dir: Path) returns (r: Outcome)
      requires kind.PatchOrder?
      modifies this
      ensures fs.IsDir(dir) ==> r == Pass && patchesDir == Some(dir)
      ensures !fs.IsDir(dir) ==> r == Fail(NotADirectory(dir)) && patchesDir == old(patchesDir)
      ensures readCache == old(readCache) && compiledRegex == old(compiledRegex)
    {
      if !fs.IsDir(dir) {
        return Fail(NotADirectory(dir));
      }
      patchesDir := Some(dir);
      return Pass;
    }

    /** `_get_patches_dir`: the directory is resolved once and remembered. */
    method GetPatchesDir(fs: FileSystem) returns (r: Result<Path>)
      requires kind.PatchOrder?
      modifies this
      ensures r == PatchesDirOf(fs, old(patchesDir), path)
      ensures patchesDir == if r.Success? then Some(r.value) else old(patchesDir)
      ensures readCache == old(readCache) && compiledRegex == old(compiledRegex)
    {
      if patchesDir.None? {
        var dir := Join(Parent(path), PATCHES_DIR);
        if !fs.IsDir(dir) {
          return Failure(NotADirectory(dir));
        }
        patchesDir := Some(dir);
      }
      return Success(patchesDir.value);
    }

    /** `patch_iter`, consumed to the end: every item joined to the patches directory. The
        directory is looked up at the first item only, so an empty order needs none; an
        unreadable layer ends the stream after the items before it. */
    method PatchIter(fs: FileSystem) returns (r: PathStream)
      requires kind.PatchOrder?
      modifies this
      ensures var s := LineStream(fs, order.paths);
        var d := PatchesDirOf(fs, old(patchesDir), path);
        && (s.items == [] ==> r == PathStream([], s.failure) && patchesDir == old(patchesDir))
        && (s.items != [] && d.Failure? ==> r == PathStream([], Some(d.error)) && patchesDir == old(patchesDir))
        && (s.items != [] && d.Success? ==> r == PathStream(PatchPaths(d.value, s.items), s.failure) && patchesDir == Some(d.value))
      ensures readCache == old(readCache) && compiledRegex == old(compiledRegex)
    {
      var s := LineStream(fs, order.paths);
      ghost var d := PatchesDirOf(fs, patchesDir, path);
      var out: seq<Path> := [];
      var i := 0;
      while i < |s.items|
        invariant 0 <= i <= |s.items|
        invariant i == 0 ==> patchesDir == old(patchesDir) && out == []
        invariant i > 0 ==> d.Success? && patchesDir == Some(d.value)
        invariant i > 0 ==> out == PatchPaths(d.value, s.items[..i])
        invariant readCache == old(readCache) && compiledRegex == old(compiledRegex)
      {
        var dir := GetPatchesDir(fs);
        if dir.Failure? {
          return PathStream([], Some(dir.error));
        }
        assert s.items[..i + 1] == s.items[..i] + [s.items[i]];
        out := out + [Join(dir.value, s.items[i])];
        i := i + 1;
      }
      assert i > 0 ==> s.items[..i] == s.items;
      return PathStream(out, s.failure);
    }
  }

  /** `config_class(path)`: the path must exist. */
  method NewConfigFile(fs: FileSystem, path: Path, name: string, kind: FileKind) returns (r: Result<ConfigFile>)
    ensures r.Failure? <==> !fs.Exists(path)
    ensures r.Failure? ==> r.error == FileNotFound(path)
    ensures r.Success? ==> fresh(r.value) && fresh(r.value.order) && r.value.Valid()
    ensures r.Success? ==> r.value.path == path && r.value.kind == kind && r.value.order.paths == [path]
    ensures r.Success? ==> r.value.name == (if name != "" then name else Name(path))
    ensures r.Success? ==> r.value.readCache == None && r.value.compiledRegex == map[] && r.value.patchesDir == None
  {
    if !fs.Exists(path) {
      return Failure(FileNotFound(path));
    }
    var f := new ConfigFile(path, name, kind);
    return Success(f);
  }
}
