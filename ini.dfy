/** `IniConfigFile` and its three subclasses: INI layers merged in path order (later
    options override earlier ones, section by section), validated once against the
    file's schema, and the derived views over the merged sections: the base bundle's
    `depends`, the version string and the extra-deps entries. */
module IniFormat {
  import opened Base
  import opened Text
  import opened Layers
  import opened MappingFormat

  function SectionOr(ini: Ini, s: string): Section
  {
    if s in ini then ini[s] else map[]
  }

  /** `parser.read_file` of one more layer: new sections are added, options already read
      are overridden. */
  function MergeIni(acc: Ini, layer: Ini): (r: Ini)
    ensures r.Keys == acc.Keys + layer.Keys
    ensures forall s :: s in r ==> r[s] == SectionOr(acc, s) + SectionOr(layer, s)
  {
    map s | s in acc.Keys + layer.Keys :: SectionOr(acc, s) + SectionOr(layer, s)
  }

  /** Every layer in path order read into one parser; the first unreadable layer aborts. */
  function IniLayers(fs: FileSystem, paths: seq<Path>): (r: Result<Ini>)
    ensures r.Success? <==> forall i :: 0 <= i < |paths| ==> ReadIni(fs, paths[i]).Success?
    ensures r.Failure? ==> exists i :: 0 <= i < |paths| && ReadIni(fs, paths[i]) == Failure(r.error)
  {
    if paths == [] then Success(map[])
    else match IniLayers(fs, paths[..|paths| - 1])
      case Failure(e) => Failure(e)
      case Success(acc) =>
        match ReadIni(fs, paths[|paths| - 1])
        case Failure(e) => Failure(e)
        case Success(layer) => Success(MergeIni(acc, layer))
  }

  /** Last layer wins: an option takes its value from the latest layer that sets it. */
  lemma {:induction false} IniLastWins(fs: FileSystem, paths: seq<Path>, i: nat, s: string, k: string)
    requires IniLayers(fs, paths).Success?
    requires i < |paths| && ReadIni(fs, paths[i]).Success?
    requires s in ReadIni(fs, paths[i]).value && k in ReadIni(fs, paths[i]).value[s]
    requires forall j :: i < j < |paths| && ReadIni(fs, paths[j]).Success? ==> k !in SectionOr(ReadIni(fs, paths[j]).value, s)
    ensures s in IniLayers(fs, paths).value && k in IniLayers(fs, paths).value[s]
    ensures IniLayers(fs, paths).value[s][k] == ReadIni(fs, paths[i]).value[s][k]
  {
    var n := |paths|;
    var front := paths[..n - 1];
    var acc := IniLayers(fs, front).value;
    var layer := ReadIni(fs, paths[n - 1]).value;
    assert IniLayers(fs, paths) == Success(MergeIni(acc, layer));
    if i < n - 1 {
      assert front[i] == paths[i];
      forall j | i < j < |front| && ReadIni(fs, front[j]).Success?
        ensures k !in SectionOr(ReadIni(fs, front[j]).value, s)
      {
        assert front[j] == paths[j];
      }
      IniLastWins(fs, front, i, s, k);
      assert k !in SectionOr(layer, s);
    }
    MergeLookup(acc, layer, s, k);
  }

  /** One merge step: an option the new layer sets takes its value, any other keeps the
      value read so far. */
  lemma MergeLookup(acc: Ini, layer: Ini, s: string, k: string)
    requires k in SectionOr(acc, s) || k in SectionOr(layer, s)
    ensures s in MergeIni(acc, layer) && k in MergeIni(acc, layer)[s]
    ensures MergeIni(acc, layer)[s][k] == if k in SectionOr(layer, s) then layer[s][k] else acc[s][k]
  {
    assert MergeIni(acc, layer)[s] == SectionOr(acc, s) + SectionOr(layer, s);
  }

  // The schemas. Each lists the sections it expects; a section or option it does not list
  // fails validation, as do a missing required option and an empty value.

  const BASEBUNDLE := "basebundle"
  const VERSION := "version"
  const HASHES: seq<string> := ["md5", "sha1", "sha256", "sha512"]
  const REQUIRED_KEYS: seq<string> := ["version", "url", "download_name"]
  /** `_optional_keys = ('strip_leading_dirs')` is a string, not a tuple: spreading it gives
      its characters. */
  const OPTIONAL_KEYS_AS_WRITTEN: seq<string> := Characters("strip_leading_dirs")
  /** The one-element tuple `('strip_leading_dirs',)` the name promises. */
  const OPTIONAL_KEYS_INTENDED: seq<string> := ["strip_leading_dirs"]

  function Characters(s: string): (r: seq<string>)
    ensures |r| == |s| && forall i :: 0 <= i < |r| ==> r[i] == [s[i]]
  {
    seq(|s|, i requires 0 <= i < |s| => [s[i]])
  }

  /** `_passthrough_properties = (*_required_keys, *_optional_keys)`. */
  function Passthrough(optional: seq<string>): seq<string>
  {
    REQUIRED_KEYS + optional
  }

  datatype IniSchema = AnyIni | BaseBundleMetaSchema | ExtraDepsSchema(optional: seq<string>) | VersionSchema

  predicate NonEmptyValues(sec: Section)
  {
    forall k :: k in sec ==> sec[k] != ""
  }

  predicate OnlyKeys(sec: Section, allowed: set<string>)
  {
    forall k :: k in sec ==> k in allowed
  }

  predicate ExtraDepsSectionOk(sec: Section, optional: seq<string>)
  {
    && (forall i :: 0 <= i < |REQUIRED_KEYS| ==> REQUIRED_KEYS[i] in sec)
    && (exists i :: 0 <= i < |HASHES| && HASHES[i] in sec)
    && OnlyKeys(sec, set k | k in REQUIRED_KEYS + optional + HASHES)
    && NonEmptyValues(sec)
  }

  predicate Conforms(schema: IniSchema, ini: Ini)
  {
    match schema
    case AnyIni => true
    case BaseBundleMetaSchema =>
      && ini.Keys == {BASEBUNDLE}
      && "display_name" in ini[BASEBUNDLE]
      && OnlyKeys(ini[BASEBUNDLE], {"display_name", "depends"})
      && NonEmptyValues(ini[BASEBUNDLE])
    case ExtraDepsSchema(optional) =>
      && ini.Keys != {}
      && forall s :: s in ini ==> s != "" && ExtraDepsSectionOk(ini[s], optional)
    case VersionSchema =>
      && ini.Keys == {VERSION}
      && "chromium_version" in ini[VERSION] && "release_revision" in ini[VERSION]
      && OnlyKeys(ini[VERSION], {"chromium_version", "release_revision", "release_extra"})
      && NonEmptyValues(ini[VERSION])
  }

  /** `IniConfigFile._parse_data`: merge all layers, then validate the merged result once; a
      violation names every contributing path. */
  function ParseIni(fs: FileSystem, paths: seq<Path>, schema: IniSchema): (r: Result<Ini>)
    ensures r.Success? <==> IniLayers(fs, paths).Success? && Conforms(schema, IniLayers(fs, paths).value)
    ensures r.Success? ==> r.value == IniLayers(fs, paths).value
    ensures IniLayers(fs, paths).Success? && !Conforms(schema, IniLayers(fs, paths).value) ==>
      r == Failure(SchemaError(paths))
  {
    match IniLayers(fs, paths)
    case Failure(e) => Failure(e)
    case Success(ini) => if Conforms(schema, ini) then Success(ini) else Failure(SchemaError(paths))
  }

  /** The loop of `IniConfigFile._parse_data`: read every layer into one parser, then validate. */
  method LoadIni(fs: FileSystem, paths: seq<Path>, schema: IniSchema) returns (r: Result<Ini>)
    ensures r == ParseIni(fs, paths, schema)
  {
    var parsed: Ini := map[];
    var i := 0;
    while i < |paths|
      invariant 0 <= i <= |paths|
      invariant IniLayers(fs, paths[..i]) == Success(parsed)
    {
      assert paths[..i + 1][..i] == paths[..i];
      var layer := ReadIni(fs, paths[i]);
      if layer.Failure? {
        IniLayersFailureStays(fs, paths, i + 1);
        assert paths[..|paths|] == paths;
        return Failure(layer.error);
      }
      parsed := MergeIni(parsed, layer.value);
      i := i + 1;
    }
    assert paths[..i] == paths;
    if !Conforms(schema, parsed) {
      return Failure(SchemaError(paths));
    }
    return Success(parsed);
  }

  lemma {:induction false} IniLayersFailureStays(fs: FileSystem, paths: seq<Path>, i: nat)
    requires i <= |paths| && IniLayers(fs, paths[..i]).Failure?
    ensures IniLayers(fs, paths) == IniLayers(fs, paths[..i])
  {
    if i < |paths| {
      assert paths[..|paths| - 1][..i] == paths[..i];
      IniLayersFailureStays(fs, paths[..|paths| - 1], i);
    } else {
      assert paths[..i] == paths;
    }
  }

  // BaseBundleMetaIni

  /** `display_name`: the option of the `basebundle` section; a missing section or option is
      a KeyError. */
  function DisplayName(ini: Ini): (r: Result<string>)
    ensures r.Success? <==> BASEBUNDLE in ini && "display_name" in ini[BASEBUNDLE]
    ensures r.Success? ==> r.value == ini[BASEBUNDLE]["display_name"]
    ensures BASEBUNDLE !in ini ==> r == Failure(KeyError(BASEBUNDLE))
  {
    if BASEBUNDLE !in ini then Failure(KeyError(BASEBUNDLE))
    else if "display_name" !in ini[BASEBUNDLE] then Failure(KeyError("display_name"))
    else Success(ini[BASEBUNDLE]["display_name"])
  }

  /** Metadata that passed its schema always names a non-empty display name. */
  lemma DisplayNameOfValid(ini: Ini)
    requires Conforms(BaseBundleMetaSchema, ini)
    ensures DisplayName(ini).Success? && DisplayName(ini).value != ""
  {
  }

  /** `depends`: the comma-separated list, each piece stripped; empty when the option is absent. */
  function Depends(ini: Ini): (r: Result<seq<string>>)
    ensures r.Success? <==> BASEBUNDLE in ini
    ensures BASEBUNDLE in ini && "depends" !in ini[BASEBUNDLE] ==> r == Success([])
    ensures BASEBUNDLE in ini && "depends" in ini[BASEBUNDLE] ==>
      |r.value| == Count(ini[BASEBUNDLE]["depends"], ',') + 1
    ensures r.Success? ==> forall i :: 0 <= i < |r.value| ==>
      ',' !in r.value[i] && (r.value[i] == "" || (!IsSpace(r.value[i][0]) && !IsSpace(r.value[i][|r.value[i]| - 1])))
  {
    if BASEBUNDLE !in ini then Failure(KeyError(BASEBUNDLE))
    else if "depends" in ini[BASEBUNDLE] then
      var pieces := Split(ini[BASEBUNDLE]["depends"], ',');
      Success(seq(|pieces|, i requires 0 <= i < |pieces| => Strip(pieces[i])))
    else Success([])
  }

  lemma StripKeepsOut(s: string, c: char)
    requires c !in s
    ensures c !in Strip(s)
  {
  }

  /** A `depends` value written by joining names with ',' reads back as those names, stripped. */
  lemma DependsOfJoined(ini: Ini, names: seq<string>)
    requires |names| > 0 && forall i :: 0 <= i < |names| ==> ',' !in names[i]
    requires BASEBUNDLE in ini && "depends" in ini[BASEBUNDLE]
    requires ini[BASEBUNDLE]["depends"] == JoinWith(names, ',')
    ensures Depends(ini) == Success(seq(|names|, i requires 0 <= i < |names| => Strip(names[i])))
  {
    SplitJoin(names, ',');
  }

  /** Names that carry no commas and no surrounding whitespace come back unchanged. */
  lemma DependsRoundTrip(ini: Ini, names: seq<string>)
    requires |names| > 0
    requires forall i :: 0 <= i < |names| ==>
      ',' !in names[i] && names[i] != "" && !IsSpace(names[i][0]) && !IsSpace(names[i][|names[i]| - 1])
    requires BASEBUNDLE in ini && "depends" in ini[BASEBUNDLE]
    requires ini[BASEBUNDLE]["depends"] == JoinWith(names, ',')
    ensures Depends(ini) == Success(names)
  {
    DependsOfJoined(ini, names);
    forall i | 0 <= i < |names|
      ensures Strip(names[i]) == names[i]
    {
      StripOfStripped(names[i]);
    }
    assert seq(|names|, i requires 0 <= i < |names| => Strip(names[i])) == names;
  }

  // VersionIni

  /** `version_string`: `chromium_version-release_revision`, then `~release_extra` when
      that option is set and non-empty. */
  function VersionString(ini: Ini): (r: Result<string>)
    ensures VERSION !in ini ==> r == Failure(KeyError(VERSION))
  {
    if VERSION !in ini then Failure(KeyError(VERSION))
    else
      var sec := ini[VERSION];
      if "chromium_version" !in sec then Failure(KeyError("chromium_version"))
      else if "release_revision" !in sec then Failure(KeyError("release_revision"))
      else
        var base := sec["chromium_version"] + "-" + sec["release_revision"];
        if "release_extra" in sec && sec["release_extra"] != "" then Success(base + "~" + sec["release_extra"])
        else Success(base)
  }

  /** A version file that passed its schema always has a version string, of the Debian-like form. */
  lemma VersionStringOfValid(ini: Ini)
    requires Conforms(VersionSchema, ini)
    ensures VersionString(ini).Success?
    ensures var sec := ini[VERSION];
      VersionString(ini).value ==
        sec["chromium_version"] + "-" + sec["release_revision"] +
        (if "release_extra" in sec then "~" + sec["release_extra"] else "")
  {
  }

  lemma VersionStringExamples()
    ensures VersionString(map[VERSION := map["chromium_version" := "90.0", "release_revision" := "1"]])
      == Success("90.0-1")
    ensures VersionString(map[VERSION := map["chromium_version" := "90.0", "release_revision" := "1",
                                             "release_extra" := "extra"]])
      == Success("90.0-1~extra")
  {
    assert "90.0" + "-" + "1" == "90.0-1";
    assert "90.0-1" + "~" + "extra" == "90.0-1~extra";
  }

  // ExtraDepsIni

  /** The hash names of `hashes`, in order, whose value in `sec` is set and non-empty. */
  function PresentHashes(sec: Section, hashes: seq<string>): (r: seq<string>)
    ensures forall k :: k in r <==> k in hashes && k in sec && sec[k] != ""
    ensures NoDup(hashes) ==> NoDup(r)
  {
    if hashes == [] then []
    else
      var front := PresentHashes(sec, hashes[..|hashes| - 1]);
      var h := hashes[|hashes| - 1];
      assert forall k :: k in hashes <==> k in hashes[..|hashes| - 1] || k == h;
      if h in sec && sec[h] != "" then front + [h] else front
  }

  /** The `hashes` attribute: the loop over `_hashes` that keeps each set, non-empty value. */
  method Hashes(sec: Section, hashes: seq<string>) returns (d: Dict)
    requires NoDup(hashes)
    ensures d.Valid()
    ensures d.keys == PresentHashes(sec, hashes)
    ensures forall k :: k in d.values ==> k in sec && d.values[k] == sec[k]
  {
    d := EmptyDict;
    var i := 0;
    while i < |hashes|
      invariant 0 <= i <= |hashes|
      invariant d.Valid()
      invariant d.keys == PresentHashes(sec, hashes[..i])
      invariant forall k :: k in d.values ==> k in sec && d.values[k] == sec[k]
    {
      assert hashes[..i + 1][..i] == hashes[..i];
      var name := hashes[i];
      assert name !in hashes[..i];
      if name in sec && sec[name] != "" {
        d := d.Put(name, sec[name]);
      }
      i := i + 1;
    }
    assert hashes[..i] == hashes;
  }

  /** What an attribute read on an extra-deps entry gives. */
  datatype AttrValue = NoValue | StrValue(text: string) | HashesValue(hashes: Dict)

  /** `_ExtraDepsSection.__getattr__`: a passthrough name reads its option (absent gives None),
      `hashes` builds the checksum dict, and any other name falls off the end to None. */
  method SectionAttr(sec: Section, name: string, passthrough: seq<string>, hashes: seq<string>) returns (r: AttrValue)
    requires NoDup(hashes)
    ensures name in passthrough ==> r == if name in sec then StrValue(sec[name]) else NoValue
    ensures name !in passthrough && name != "hashes" ==> r == NoValue
    ensures name !in passthrough && name == "hashes" ==>
      r.HashesValue? && r.hashes.Valid() && r.hashes.keys == PresentHashes(sec, hashes) &&
      forall k :: k in r.hashes.values ==> k in sec && r.hashes.values[k] == sec[k]
  {
    if name in passthrough {
      r := if name in sec then StrValue(sec[name]) else NoValue;
    } else if name == "hashes" {
      var d := Hashes(sec, hashes);
      r := HashesValue(d);
    } else {
      r := NoValue;
    }
  }

  /** A section with only `sha256` set has exactly that one checksum. */
  lemma OnlySha256(sec: Section)
    requires "sha256" in sec && sec["sha256"] != ""
    requires "md5" !in sec && "sha1" !in sec && "sha512" !in sec
    ensures PresentHashes(sec, HASHES) == ["sha256"]
  {
    assert HASHES[..3] == ["md5", "sha1", "sha256"];
    assert ["md5", "sha1", "sha256"][..2] == ["md5", "sha1"];
    assert ["md5", "sha1"][..1] == ["md5"];
    assert ["md5"][..0] == [];
    assert PresentHashes(sec, ["md5"]) == [];
    assert PresentHashes(sec, ["md5", "sha1"]) == [];
    assert PresentHashes(sec, ["md5", "sha1", "sha256"]) == ["sha256"];
  }

  /** As written, `strip_leading_dirs` is not a passthrough name (so reading it always gives
      None) while its single letters are, and the schema refuses a section that sets it. */
  lemma StripLeadingDirsAsWritten()
    ensures "strip_leading_dirs" !in Passthrough(OPTIONAL_KEYS_AS_WRITTEN)
    ensures "s" in Passthrough(OPTIONAL_KEYS_AS_WRITTEN)
    ensures !ExtraDepsSectionOk(SampleSection(), OPTIONAL_KEYS_AS_WRITTEN)
  {
    assert OPTIONAL_KEYS_AS_WRITTEN[0] == "s";
    assert Passthrough(OPTIONAL_KEYS_AS_WRITTEN)[3] == "s";
    assert "strip_leading_dirs" in SampleSection();
  }

  /** With the intended one-element tuple, `strip_leading_dirs` is passed through and accepted. */
  lemma StripLeadingDirsIntended()
    ensures "strip_leading_dirs" in Passthrough(OPTIONAL_KEYS_INTENDED)
    ensures "s" !in Passthrough(OPTIONAL_KEYS_INTENDED)
    ensures ExtraDepsSectionOk(SampleSection(), OPTIONAL_KEYS_INTENDED)
  {
    assert Passthrough(OPTIONAL_KEYS_INTENDED)[3] == "strip_leading_dirs";
    assert HASHES[2] == "sha256";
  }

  /** An extra-deps section that sets `strip_leading_dirs`. */
  function SampleSection(): Section
  {
    map["version" := "1.0", "url" := "https://example.org/a.tar.xz", "download_name" := "a.tar.xz",
        "strip_leading_dirs" := "a-1.0", "sha256" := "00"]
  }
}
