# Layered configuration bundles of buildkit

This project models the configuration layer of ungoogled-chromium's buildkit
(`buildkit/config.py`) in Dafny and proves properties of the model.

A *config bundle* is a directory of configuration files. Its `basebundlemeta.ini`
names the base bundles it depends on. Every configuration object keeps a path
order: a de-duplicated sequence of layers, most basic first. Reading an object
merges its layers:

- list files are concatenated;
- in mapping files and INI files the last layer wins.

Loading a bundle does three things:

- it discovers the base bundles breadth first;
- it puts each new base bundle's directory in front of the path order;
- it scans every directory of the path order and creates one configuration object
  per known file name, layering every later occurrence of that name after the first.

The model is organised by concern:

| module (file) | what it holds |
|---|---|
| `Base` (`base.dfy`) | paths as component sequences, the filesystem as a map from path to entry, the exceptions, `Result` |
| `Text` (`text.dfy`) | `str.split`, `str.strip`, line splitting and the writers' line joining |
| `Layers` (`layers.dfy`) | `_ConfigABC`'s path order, a class with a `seq<Path>` field |
| `ListFormat` (`listfile.dfy`) | `ListConfigFile` |
| `MappingFormat` (`mapping.dfy`) | `MappingConfigFile`, with an insertion-ordered dict |
| `IniFormat` (`ini.dfy`) | the INI merge, the schemas, `BaseBundleMetaIni`, `VersionIni`, `ExtraDepsIni` |
| `ConfigFiles` (`configfile.dfy`) | `_FILE_DEF`, and one class `ConfigFile` whose `kind` says which subclass an object is; it has the caches (`_read_cache`, `_compiled_regex`, `_patches_dir`) as fields |
| `Bundles` (`bundle.dfy`) | `ConfigBundle`: `_parse_data`, `from_base_name`, `get_dependencies`, `__getitem__`, `__contains__` |

Where the code does something by changing state, the model is imperative, and
each method is proved against a specification function:

- `update_first_path` and `update_last_path`;
- caching;
- the loop of `from_base_name` and the creation of the objects in `_parse_data`.

What is pure in the code is modelled by functions and lemmas:

- merging;
- `depends`;
- `version_string`;
- the regex split.

Modelling choices:

- **Breadth first, not depth first.** `from_base_name` fills its deque with
  `appendleft` and drains it with `pop()`. That makes it first in, first out, so
  base bundles are explored breadth first in order of discovery. The model follows
  the code. `BfsExample` pins the order down: a bundle `a` that depends on `b, c`,
  where `b` depends on `d`, is explored `a, b, c, d`. A depth-first reading would
  give `a, b, d, c`.
- **The duplicate error cannot happen.** The `Duplicate base config bundle
  dependency` `ValueError` is unreachable. A name is queued only when
  `update_first_path` returns True for its directory, so only when that directory
  was not yet in the path order. Once queued, the name's directory is in the order,
  so the name is never queued again (`LayoutHas`, `EnqueueNoDup`). This argument does
  not need distinct names to have distinct directories. The model keeps that branch
  as a proved dead branch of `Discover`.
- **Text.** A text file's lines are split on `'\n'` only. Lists and mappings keep
  the non-empty lines.
- **INI files.** An INI file is given already parsed: its entry holds the sections
  configparser would produce, or nothing when configparser rejects the text. Layers
  merge key by key, and the last layer wins; the merge is `MergeIni`.
- **Schemas.** A schema is a predicate on the merged INI:
  - required keys must be present;
  - unknown keys are refused;
  - values must be non-empty.
- **Caching follows Python truthiness.** A mapping is cached while it has keys, a
  ConfigParser always, and a bundle's dict while it is non-empty. A true cached
  value is returned even if the layers changed since; the model keeps this
  staleness. Lists are never cached.
- **Inputs rather than globals.** `get_resources_dir()` and `CONFIG_BUNDLES_DIR`
  come from `buildkit/common.py`, which is not part of this model. They become the
  parameters `resourcesDir` and `bundlesDirName` of `FromBaseName`.

## Model

| member | source | states |
|---|---|---|
| Layers.AddPath | buildkit/config.py:66-100 | a path already in the order gives False and leaves the order unchanged, without looking at the filesystem; otherwise a missing path is `FileNotFoundError`; otherwise an existing new path gives True, and the path is put first or last |
| Layers.AddPathIdempotent | buildkit/config.py:66-100 | adding a path that was just added returns False and changes nothing, even once the path has been removed from the filesystem, at either end |
| Layers.LayeredPaths.constructor | buildkit/config.py:63-64 | the path order starts as the object's own path |
| Layers.LayeredPaths.UpdateFirstPath | buildkit/config.py:74-87 | the new order and the result are what `AddPath` gives, putting the path first; the order is either unchanged or has the path in front; on `FileNotFoundError` the order is unchanged; no duplicates ever |
| Layers.LayeredPaths.UpdateLastPath | buildkit/config.py:88-101 | the same as `UpdateFirstPath`, with the path put last |
| Text.Split | buildkit/config.py:234 | `str.split(c)` gives one piece more than there are separators, and no piece contains the separator |
| Text.SplitJoin | buildkit/config.py:234 | splitting pieces that were joined with a separator they do not contain gives back the pieces |
| Text.JoinSplit | buildkit/config.py:396 | joining the pieces of a split with the separator gives back the text |
| Text.Strip | buildkit/config.py:396 | `str.strip()` begins and ends with a non-space (or is empty, exactly when the text is all space), and is the text between the first and last non-space |
| Text.StripIdempotent | buildkit/config.py:396 | stripping twice is stripping once |
| Text.WriteLines | buildkit/config.py:206-208 | `'%s\n' % x` per item: the text is empty exactly when there are no items, and otherwise ends with a line break |
| Text.LinesOfWriteLines | buildkit/config.py:192-208 | the lines of `entry\n` written per item are the items, when none is empty or holds a line break |
| ListFormat.LineStream | buildkit/config.py:192-196 | `_line_generator` yields only non-empty lines |
| ListFormat.ParseList | buildkit/config.py:198-200 | iterating the list succeeds exactly when every layer can be read, and the error is then one layer's read error; no item is empty |
| ListFormat.ListContains | buildkit/config.py:188-190 | `item in self` is True exactly when a layer read so far lists the item, and is an error exactly when the item is not found before a layer that cannot be opened |
| ListFormat.ListMerge | buildkit/config.py:192-204 | the list is the concatenation of every layer's non-empty lines in layer order, with nothing removed as a duplicate |
| ListFormat.LineStreamAppend | buildkit/config.py:192-196 | reading the layers `p1 + p2` yields `p1`'s items then `p2`'s, and stops at `p1`'s error if it has one |
| ListFormat.ListRoundTrip | buildkit/config.py:192-208 | a list written by `write` reads back as the same list, when no entry is empty or holds a line break |
| ListFormat.ListMergeExample | buildkit/config.py:192-204 | the layers `a, b` and `c` merge to `a, b, c` |
| MappingFormat.Dict.Put | buildkit/config.py:235 | `new_dict[key] = value`: the value is replaced, and a new key goes to the end of the insertion order |
| MappingFormat.SplitPair | buildkit/config.py:234 | `key, value = line.split('=')` succeeds exactly when the line has one `=`, otherwise it raises the unpacking `ValueError`; on success the line is `key=value` |
| MappingFormat.ParseMapping | buildkit/config.py:228-236 | the nested loop over layers and lines computes `MappingOf`: the first unreadable layer or malformed line is the error |
| MappingFormat.ParseLines | buildkit/config.py:233-235 | the inner loop over one layer's lines computes `PutLines`: each `key=value` is stored in turn, and the first line without exactly one `=` is the error |
| MappingFormat.PutLinesValid | buildkit/config.py:233-235 | storing lines keeps a dict well formed: every key once, each with a value |
| MappingFormat.MappingOfValid | buildkit/config.py:228-236 | a parsed mapping (`MappingOf`, which `ParseMapping` computes) is a well-formed dict, so `write` applies to it |
| MappingFormat.PutLinesValues | buildkit/config.py:228-236 | the lines of a layer overwrite what earlier layers gave: the result is the earlier dict updated with the layer's own values |
| MappingFormat.PutLinesFailure | buildkit/config.py:233-234 | parsing the (non-empty) lines of a layer fails exactly when one of them does not hold exactly one `=` |
| MappingFormat.MappingLastWins | buildkit/config.py:228-236 | a key's value is the one in the last layer that defines it |
| MappingFormat.WriteMapping | buildkit/config.py:238-241 | the written text is empty exactly when the dict has no keys, and otherwise ends with a line break |
| MappingFormat.MappingRoundTrip | buildkit/config.py:228-241 | the `key=value` lines `write` produces parse back to the same dict, keys in the same order, when no key or value holds `=` or a line break |
| IniFormat.IniLayers | buildkit/config.py:168-171 | reading the layers succeeds exactly when every layer can be read and parsed; otherwise the error is one layer's |
| IniFormat.MergeIni | buildkit/config.py:168-171 | reading a further INI layer adds its sections, and its keys override the earlier ones, section by section |
| IniFormat.IniLastWins | buildkit/config.py:168-171 | a key of a section has the value of the last layer that defines it |
| IniFormat.ParseIni | buildkit/config.py:163-178 | the merged INI of all layers, or the first layer's read or parse error, or a `SchemaError` naming the layers when the merge does not satisfy the class's schema |
| IniFormat.LoadIni | buildkit/config.py:168-178 | the loop over the layers computes `ParseIni` |
| IniFormat.DisplayName | buildkit/config.py:382-387 | `self['basebundle']['display_name']`, a `KeyError` without the section |
| IniFormat.DisplayNameOfValid | buildkit/config.py:375-387 | metadata that passes its schema has a non-empty display name |
| IniFormat.Depends | buildkit/config.py:389-398 | a `KeyError` without the `basebundle` section; no dependencies without `depends`; otherwise one name per comma-separated piece, stripped and free of commas |
| IniFormat.DependsOfJoined | buildkit/config.py:395-396 | `depends` on pieces joined by commas gives each piece stripped, in order |
| IniFormat.DependsRoundTrip | buildkit/config.py:395-396 | names without commas or surrounding space, joined by commas, read back as the same names |
| IniFormat.VersionString | buildkit/config.py:540-548 | a `KeyError` without the `version` section |
| IniFormat.VersionStringOfValid | buildkit/config.py:515-548 | for a valid `version.ini`: `chromium_version-release_revision`, followed by `~release_extra` exactly when `release_extra` is given |
| IniFormat.VersionStringExamples | buildkit/config.py:540-548 | `90.0` and `1` give `90.0-1`; with the extra `extra`, `90.0-1~extra` |
| IniFormat.Characters | buildkit/config.py:430-431 | unpacking a string gives its single characters |
| IniFormat.PresentHashes | buildkit/config.py:450-456 | a hash name is kept exactly when it is one of the hashes and the section gives it a non-empty value; kept in the order of `_hashes`, without duplicates |
| IniFormat.Hashes | buildkit/config.py:450-456 | the loop builds a dict whose keys are the present hashes, in order, and whose values are the section's |
| IniFormat.SectionAttr | buildkit/config.py:447-456 | a passthrough name gives the section's value or `None`; `hashes` gives the hash dict; any other name gives `None` |
| IniFormat.OnlySha256 | buildkit/config.py:450-456 | a section with only `sha256` has the hashes `sha256` alone |
| IniFormat.StripLeadingDirsAsWritten | buildkit/config.py:430-449 | as written, the passthrough holds the letters of `strip_leading_dirs` and not the key itself, and a section using `strip_leading_dirs` fails the schema |
| IniFormat.StripLeadingDirsIntended | buildkit/config.py:430-449 | with a one-element tuple, the passthrough holds `strip_leading_dirs`, holds no single letter, and the same section passes the schema |
| ConfigFiles.FileDefKinds | buildkit/config.py:550-560 | nine file names are known; every name except `basebundlemeta.ini` and `patches` has a class; `patch_order.list` is a patches config |
| ConfigFiles.FileKind.Schema | buildkit/config.py:430-439 | exactly the INI classes have a schema of their own; for `extra_deps.ini` it is the schema as written, whose consequence `ExtraDepsRefusesStripLeadingDirs` states |
| ConfigFiles.ParseData | buildkit/config.py:163-178 | a mapping file parses exactly when `MappingOf` succeeds, to its merged and well-formed dict; an INI file exactly when the merged INI of its layers passes its class's schema |
| ConfigFiles.ExtraDepsRefusesStripLeadingDirs | buildkit/config.py:430-439 | an `extra_deps.ini` whose merged section sets `strip_leading_dirs` fails with `SchemaError` naming the layers, as the code is written |
| ConfigFiles.RegexPairs | buildkit/config.py:411-413 | splitting every line on `#` succeeds exactly when each line has one `#`; each line is its pattern, `#`, its replacement; otherwise the error is the first malformed line's |
| ConfigFiles.CompileRegexPairs | buildkit/config.py:415-423 | the tuple of pairs is built only when the whole list can be read and every line splits |
| ConfigFiles.RegexPairsRoundTrip | buildkit/config.py:411-413 | `pattern#replacement` lines split back into the same pairs, when neither part holds `#` |
| ConfigFiles.PatchesDirOf | buildkit/config.py:485-492 | a remembered patches directory is used as is; otherwise `patches` next to the patch order, which must be a directory |
| ConfigFiles.PatchPaths | buildkit/config.py:494-501 | each entry of the patch order joined to the patches directory, in order |
| ConfigFiles.ConfigFile.constructor | buildkit/config.py:46-64 | an empty name falls back to the path's name; the path order is the path alone; nothing is cached |
| ConfigFiles.NewConfigFile | buildkit/config.py:55-56 | a missing path is `FileNotFoundError`; otherwise a fresh object with nothing cached |
| ConfigFiles.ConfigFile.ConfigData | buildkit/config.py:129-138 | a true cached value is returned as is; otherwise the layers are parsed, and a successful result becomes the cache |
| ConfigFiles.ConfigFile.Contains | buildkit/config.py:153-157 | `__contains__`: for lists, the search through the layers, never cached; for mappings, keys; for INI files, sections |
| ConfigFiles.ConfigFile.GetValue | buildkit/config.py:216-222 | a mapping's value for a key, or `KeyError` |
| ConfigFiles.ConfigFile.IniContents | buildkit/config.py:145-161 | the whole merged INI through the cache: the cached value if true, otherwise the parse, whose success becomes the cache |
| ConfigFiles.ConfigFile.GetSection | buildkit/config.py:145-151 | an INI file's section, or `KeyError` |
| ConfigFiles.ConfigFile.Keys | buildkit/config.py:198-200 | iterating a list gives every item of every layer, or the first read error; iterating a mapping gives its keys in insertion order |
| ConfigFiles.ConfigFile.GetRegexPairs | buildkit/config.py:415-423 | the pairs of an encoding already compiled are returned as they were; otherwise they are computed from the list and remembered for that encoding when they could be built |
| ConfigFiles.ConfigFile.SetPatchesDir | buildkit/config.py:475-483 | a directory is remembered; anything else is `NotADirectoryError`, and nothing changes |
| ConfigFiles.ConfigFile.GetPatchesDir | buildkit/config.py:485-492 | the result is `PatchesDirOf`, and a successful default is remembered |
| ConfigFiles.ConfigFile.PatchIter | buildkit/config.py:494-501 | the patch paths of all entries in order; the directory is resolved (and remembered) only when there is a first entry; a failure to resolve it ends the iteration before anything is yielded |
| Bundles.ScanName | buildkit/config.py:311-322 | one entry never removes an object a bundle already has, and adds at most the object of its own name |
| Bundles.ScanNames | buildkit/config.py:310-322 | one directory keeps every object, and adds objects only for names it lists |
| Bundles.ScanDirs | buildkit/config.py:302-324 | every object has the class `_FILE_DEF` gives its name |
| Bundles.ScanDirsKnown | buildkit/config.py:309-320 | a bundle parses only when every layer is a directory and every name listed in any layer is in `_FILE_DEF` |
| Bundles.ScanDirsLayers | buildkit/config.py:302-324 | over distinct layers, the objects are exactly the names with a class that occur in some layer; each is created from its first occurrence and layered over all its occurrences in layer order |
| Bundles.ScanNamesLayers | buildkit/config.py:310-322 | one directory adds its entry as the last layer of each existing object, and creates an object for every new name with a class |
| Bundles.AddLayer | buildkit/config.py:312-313 | `update_last_path` on the object already holding the name: the object's layers become what `AddPath` gives with the path put last, the others are unchanged, and the error is `AddPath`'s |
| Bundles.ScanEntry | buildkit/config.py:311-322 | the objects after one entry are the ones `ScanName` describes; an existing object stays the same object and a new one is fresh; no two objects share a path order |
| Bundles.ScanDirectory | buildkit/config.py:310-322 | the loop over one directory's entries builds what `ScanNames` describes |
| Bundles.ConfigBundle.ParseFiles | buildkit/config.py:302-324 | the nested loops build fresh, separate, pristine objects whose classes and layers are `ScanDirs`, or fail with its error |
| Bundles.ParsedUsable | buildkit/config.py:302-324 | freshly parsed objects are what a bundle keeps in its cache: separate path orders, each object valid and of the class its name gives |
| Bundles.ConfigBundle.Load | buildkit/config.py:129-138 | the uncached half of `_config_data`: the bundle is parsed as `ScanDirs` describes, into fresh objects, and a success becomes the cache, keeping the bundle's invariant that cached objects are usable |
| Bundles.ConfigBundle.ConfigData | buildkit/config.py:129-138 | a non-empty cached dict is returned as is; otherwise the bundle is parsed, and a successful result becomes the cache |
| Bundles.ConfigBundle.Get | buildkit/config.py:285-292 | the object of a file name, or `KeyError`; the object returned is valid, so its own methods can be called, has the class `_FILE_DEF` gives the name, and is a cached object or a fresh one |
| Bundles.ConfigBundle.Contains | buildkit/config.py:294-300 | whether the bundle has a file of that name |
| Bundles.ConfigBundle.GetDependencies | buildkit/config.py:279-283 | one name per layer but the last, each the name of its layer's directory, in path order |
| Bundles.DependencyNames | buildkit/config.py:279-283 | one name for every layer but the last |
| Bundles.DependencyNamesOfLayout | buildkit/config.py:279-283 | `get_dependencies` of a bundle built from a discovery order lists every base bundle, the latest discovered first |
| Bundles.Layout | buildkit/config.py:258-272 | one layer per discovered bundle |
| Bundles.LayoutIndex | buildkit/config.py:258-272 | the path order is the discovery order reversed, with the bundle's own directory last |
| Bundles.LayoutHas | buildkit/config.py:268-272 | a discovered bundle's directory is a layer, whether or not another name shares that directory |
| Bundles.LayoutMember | buildkit/config.py:268-272 | a bundle's directory is a layer exactly when the bundle was discovered |
| Bundles.LayoutNoDup | buildkit/config.py:258-272 | a discovery order without duplicates gives a path order without duplicates |
| Bundles.JoinInjective | buildkit/config.py:258-272 | distinct bundle names give distinct directories |
| Bundles.Enqueue | buildkit/config.py:270-272 | the inner loop only appends to the discovery order |
| Bundles.EnqueueCovers | buildkit/config.py:270-272 | after the inner loop every listed dependency has been discovered |
| Bundles.EnqueueFrom | buildkit/config.py:270-272 | the inner loop queues only names that its bundle's `depends` lists |
| Bundles.EnqueueNoDup | buildkit/config.py:270-272 | the inner loop never queues a bundle twice |
| Bundles.EnqueueMeasure | buildkit/config.py:270-272 | each newly queued bundle brings a directory of the filesystem that was not a layer, so the loop terminates |
| Bundles.BfsRound | buildkit/config.py:261-272 | one round of the outer loop either ends exploration with its error or continues from the next pending bundle |
| Bundles.Bfs | buildkit/config.py:261-272 | the `while` loop's specification: exploration only appends to the discovery order |
| Bundles.BfsNoDup | buildkit/config.py:261-272 | no bundle is discovered twice |
| Bundles.BfsClosed | buildkit/config.py:261-272 | when exploration ends, every discovered bundle's dependencies have been read and are all discovered |
| Bundles.BfsDiscoveredFrom | buildkit/config.py:261-272 | only dependencies are discovered: every bundle after the first is listed in the `depends` of a bundle explored before it |
| Bundles.BfsExample | buildkit/config.py:258-272 | `a` depending on `b, c` and `b` on `d` are explored as `a, b, c, d` |
| Bundles.FromBaseNameResult | buildkit/config.py:247-277 | a loaded bundle comes first in discovery order, has no bundle twice and is closed under `depends`; its path order has every directory once and its own directory last; when no directory lists a name twice, its files are exactly the names with a class, layered over their occurrences in path order |
| Bundles.FromBaseNameOnlyBases | buildkit/config.py:258-272 | the converse of closure: every bundle a loaded bundle discovers after itself is listed by one discovered before it, so the path order holds only the bundle and its transitive bases |
| Bundles.FromBaseNameSpec | buildkit/config.py:247-277 | a missing bundle directory is `FileNotFoundError`; a loaded bundle is discovered first, its files are what scanning its path order gives, and when it has a patch order the patches directory is a directory |
| Bundles.MetaDepends | buildkit/config.py:266-269 | a missing metadata file is `FileNotFoundError`; dependencies are read only from a metadata file that parses and passes its schema |
| Bundles.ReadDepends | buildkit/config.py:266-269 | the metadata file is opened (`FileNotFoundError` if missing), parsed, validated, and its `depends` read |
| Bundles.ConfigBundle.constructor | buildkit/config.py:46-64 | the bundle's path order is its own directory; nothing is cached |
| Bundles.ConfigBundle.EnqueueDep | buildkit/config.py:270-271 | one dependency: the path order is updated as `update_first_path` does, and the step of `Enqueue` it takes is the one recorded, including its error |
| Bundles.ConfigBundle.Visit | buildkit/config.py:267-271 | one round of the loop: the bundle's `depends` are read and the new ones queued; the round is the step `Bfs` takes from the same state, keeps the queue free of repeats, and leaves no more filesystem paths outside the path order than before (fewer when anything is queued) |
| Bundles.ConfigBundle.EnqueueAll | buildkit/config.py:270-272 | the inner loop puts each new dependency first in the path order and returns the queued names, as `Enqueue` describes |
| Bundles.ConfigBundle.Discover | buildkit/config.py:258-272 | the `while` loop over the pending queue, with the set of known names, builds the path order `Bfs` describes, or fails with its error |
| Bundles.ConfigBundle.PointPatches | buildkit/config.py:273-276 | `set_patches_dir` on the cached patch order: it succeeds exactly when the path is a directory, remembers it, and leaves every object's class and layers as they were |
| Bundles.ConfigBundle.AttachPatches | buildkit/config.py:273-276 | the bundle is parsed and cached; a patch order, when there is one, is pointed at the patches directory, which must be a directory; a bundle without a patch order is left as it is |
| Bundles.ConfigBundle.FromBaseName | buildkit/config.py:247-277 | a missing bundle directory is `FileNotFoundError`; otherwise the bundle, its path order, its cached files and its patches directory are those `FromBaseNameSpec` gives, and every error is the one it names |

## Left out

- Writing: `IniConfigFile.write`, `ConfigBundle.write`, and the copying of patches in `PatchesConfig.write` are file I/O and are not modelled. `WriteLines` and `WriteMapping` model only the text that `ListConfigFile.write` and `MappingConfigFile.write` produce.
- configparser and the `schema` package are foreign libraries. An INI file is given as the sections configparser would produce, and each schema is a predicate. The `DEFAULT` section, interpolation, key case folding and the order of `sections()` are not modelled. `IniConfigFile.__iter__` is left out for that reason.
- `re.compile` and the encoding step of `DomainRegexList` are foreign calls. A pair keeps its pattern and replacement as text, and the encoding is only the key of the cache.
- `str.splitlines` splits on more than `'\n'`. The model splits on `'\n'` only.
- `pathlib` normalisation is not modelled. A path is a sequence of components; joining an empty name gives the same path; a `/` inside a name is not split.
- The `None` guard of `_ConfigABC._config_data` (buildkit/config.py:107-115) is not modelled, because no parser in the model can return `None`.
- Logging is left out.
- `get_resources_dir()` and `CONFIG_BUNDLES_DIR` come from `buildkit/common.py`, which is not part of this model. They become parameters.
- Generators are consumed whole. `PathStream` and `Stream` keep what was yielded before an error, but the model does not capture a caller that stops early. It also does not capture files that change while a generator is suspended.
- The bundle's properties (`pruning`, `patches`, ...) are `Get` with a fixed name, and have no member of their own.
- `_ExtraDepsSection` is not a separate object. `SectionAttr` answers one attribute lookup on the section it wraps.
- `ExtraDepsIni.__getitem__`: the section is looked up with `GetSection` and then wrapped by `SectionAttr`. The two are not combined into one member.
- The model follows the code as written: `extra_deps.ini` is checked against the schema built from `OPTIONAL_KEYS_AS_WRITTEN`. The corrected keys (`OPTIONAL_KEYS_INTENDED`) appear only in the corrected half of the finding below, `StripLeadingDirsIntended`.
- MappingFormat.ParseMapping: its contract ties it to `MappingOf` only. That a parsed mapping is a well-formed dict is the lemma `MappingOfValid`, which a caller applies to the result.
- Bundles.ScanName: its own contract only says that objects are never dropped and that at most the entry's own name is added. The full layering is stated by `ScanNamesLayers` and `ScanDirsLayers`, which assume that a directory lists each name once, as `iterdir` does.

## Findings

| source | as written | input that shows it | evidently intended | confidence | as-written member | corrected member |
|---|---|---|---|---|---|---|
| buildkit/config.py:430-431 | `_optional_keys = ('strip_leading_dirs')` is a plain string, so `_passthrough_properties` holds its single letters and not `strip_leading_dirs` | an `extra_deps.ini` section with `version`, `url`, `download_name`, `sha256` and `strip_leading_dirs`: the schema refuses the key, and the attribute `strip_leading_dirs` would give `None`, while the attribute `s` is passed through | the one-element tuple `('strip_leading_dirs',)` | high, not executed | IniFormat.StripLeadingDirsAsWritten | IniFormat.StripLeadingDirsIntended |
