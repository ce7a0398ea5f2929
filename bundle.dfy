/** `ConfigBundle`: a directory of configuration files layered over the directories of the
    base bundles it depends on. */
module Bundles {
  import opened Base
  import opened Layers
  import opened IniFormat
  import opened ConfigFiles

  /** The abstract state of one configuration object a bundle creates: its class, the path
      it was created from and its layered paths. */
  datatype FileEntry = FileEntry(kind: FileKind, path: Path, paths: seq<Path>)

  /** One entry `n` of directory `dir` in `_parse_data`: a name already seen adds its path as
      the last layer; an unknown name rejects the directory; a name without a class is skipped;
      a new name creates its object, whose path must exist. */
  function ScanName(fs: FileSystem, files: map<string, FileEntry>, dir: Path, n: string): (r: Result<map<string, FileEntry>>)
    ensures r.Success? ==> files.Keys <= r.value.Keys <= files.Keys + {n}
  {
    var p := Join(dir, n);
    if n in files then
      var added :- AddPath(fs, files[n].paths, p, false);
      Success(files[n := files[n].(paths := added.1)])
    else if n !in FILE_DEF then Failure(UnknownFiles(dir))
    else if FILE_DEF[n].None? then Success(files)
    else if !fs.Exists(p) then Failure(FileNotFound(p))
    else Success(files[n := FileEntry(FILE_DEF[n].value, p, [p])])
  }

  /** The entries of one directory in listing order. */
  function ScanNames(fs: FileSystem, files: map<string, FileEntry>, dir: Path, names: seq<string>): (r: Result<map<string, FileEntry>>)
    ensures r.Success? ==> files.Keys <= r.value.Keys
    ensures r.Success? ==> forall n :: n in r.value ==> n in files || n in names
  {
    if names == [] then Success(files)
    else
      var acc :- ScanNames(fs, files, dir, names[..|names| - 1]);
      ScanName(fs, acc, dir, names[|names| - 1])
  }

  /** `_parse_data`: every directory of the path order, in order. Each object it creates
      has the class `_FILE_DEF` gives its name. */
  function ScanDirs(fs: FileSystem, dirs: seq<Path>): (r: Result<map<string, FileEntry>>)
    ensures r.Success? ==> KindsFollowFileDef(r.value)
  {
    if dirs == [] then Success(map[])
    else
      var files :- ScanDirs(fs, dirs[..|dirs| - 1]);
      var names :- Listing(fs, dirs[|dirs| - 1]);
      var r := ScanNames(fs, files, dirs[|dirs| - 1], names);
      if r.Success? then
        ScanNamesKinds(fs, files, dirs[|dirs| - 1], names);
        r
      else r
  }

  lemma {:induction false} ScanNamesFailureStays(fs: FileSystem, files: map<string, FileEntry>, dir: Path, names: seq<string>, j: nat)
    requires j <= |names| && ScanNames(fs, files, dir, names[..j]).Failure?
    ensures ScanNames(fs, files, dir, names) == ScanNames(fs, files, dir, names[..j])
  {
    if j < |names| {
      assert names[..|names| - 1][..j] == names[..j];
      ScanNamesFailureStays(fs, files, dir, names[..|names| - 1], j);
    } else {
      assert names[..j] == names;
    }
  }

  lemma {:induction false} ScanDirsFailureStays(fs: FileSystem, dirs: seq<Path>, i: nat)
    requires i <= |dirs| && ScanDirs(fs, dirs[..i]).Failure?
    ensures ScanDirs(fs, dirs) == ScanDirs(fs, dirs[..i])
  {
    if i < |dirs| {
      assert dirs[..|dirs| - 1][..i] == dirs[..i];
      ScanDirsFailureStays(fs, dirs[..|dirs| - 1], i);
    } else {
      assert dirs[..i] == dirs;
    }
  }

  lemma ScanNamesStep(fs: FileSystem, files: map<string, FileEntry>, dir: Path, names: seq<string>, j: nat, acc: map<string, FileEntry>)
    requires j < |names| && ScanNames(fs, files, dir, names[..j]) == Success(acc)
    ensures ScanNames(fs, files, dir, names[..j + 1]) == ScanName(fs, acc, dir, names[j])
  {
    assert names[..j + 1][..j] == names[..j];
  }

  lemma ScanDirsStep(fs: FileSystem, dirs: seq<Path>, i: nat, files: map<string, FileEntry>)
    requires i < |dirs| && ScanDirs(fs, dirs[..i]) == Success(files)
    ensures Listing(fs, dirs[i]).Failure? ==> ScanDirs(fs, dirs[..i + 1]) == Failure(Listing(fs, dirs[i]).error)
    ensures Listing(fs, dirs[i]).Success? ==>
      ScanDirs(fs, dirs[..i + 1]) == ScanNames(fs, files, dirs[i], Listing(fs, dirs[i]).value)
  {
    assert dirs[..i + 1][..i] == dirs[..i];
  }

  /** The abstract state of the objects a bundle holds. */
  ghost function Abs(m: map<string, ConfigFile>): map<string, FileEntry>
    reads set n | n in m :: m[n]
    reads set n | n in m :: m[n].order
  {
    map n | n in m :: FileEntry(m[n].kind, m[n].path, m[n].order.paths)
  }

  /** The objects have pairwise distinct path orders, so updating one leaves the others alone. */
  predicate Separate(m: map<string, ConfigFile>)
  {
    forall a, b :: a in m && b in m && a != b ==> m[a].order != m[b].order
  }

  /** Every object is in a usable state, named after its key, and untouched. */
  ghost predicate Healthy(m: map<string, ConfigFile>)
    reads set n | n in m :: m[n]
    reads set n | n in m :: m[n].order
  {
    forall n :: n in m ==> m[n].order.Valid() && m[n].Pristine() && m[n].name == n
  }

  /** What a bundle keeps of its cached objects: their path orders are their own, and each
      object is usable and has the class its file name gives. */
  ghost predicate Usable(m: map<string, ConfigFile>)
    reads set n | n in m :: m[n]
    reads set n | n in m :: m[n].order
  {
    && Separate(m)
    && forall n :: n in m ==> m[n].Valid() && n in FILE_DEF && FILE_DEF[n] == Some(m[n].kind)
  }

  /** Freshly parsed objects are usable. */
  lemma ParsedUsable(fs: FileSystem, dirs: seq<Path>, m: map<string, ConfigFile>)
    requires ScanDirs(fs, dirs).Success? && Abs(m) == ScanDirs(fs, dirs).value
    requires Separate(m) && Healthy(m)
    ensures Usable(m)
  {
    forall n | n in m
      ensures m[n].Valid() && n in FILE_DEF && FILE_DEF[n] == Some(m[n].kind)
    {
      assert Abs(m)[n].kind == m[n].kind;
    }
  }

  /** A name seen before: its object takes the path as its last layer. */
  method AddLayer(fs: FileSystem, files: map<string, ConfigFile>, n: string, p: Path) returns (r: Outcome)
    requires n in files && Separate(files) && Healthy(files)
    modifies files[n].order
    ensures var a := AddPath(fs, old(Abs(files))[n].paths, p, false);
      && (r.Pass? <==> a.Success?)
      && (r.Fail? ==> r.error == a.error)
      && (r.Pass? ==> Abs(files) == old(Abs(files))[n := old(Abs(files))[n].(paths := a.value.1)])
      && Healthy(files)
  {
    var added := files[n].order.UpdateLastPath(fs, p);
    if added.Failure? {
      return Fail(added.error);
    }
    return Pass;
  }

  /** One step of `_parse_data`'s inner loop, on the objects themselves. */
  method ScanEntry(fs: FileSystem, files: map<string, ConfigFile>, dir: Path, n: string) returns (r: Result<map<string, ConfigFile>>)
    requires Separate(files) && Healthy(files)
    modifies set k | k in files :: files[k].order
    ensures r.Success? <==> ScanName(fs, old(Abs(files)), dir, n).Success?
    ensures r.Failure? ==> r.error == ScanName(fs, old(Abs(files)), dir, n).error
    ensures r.Success? ==> Abs(r.value) == ScanName(fs, old(Abs(files)), dir, n).value
    ensures r.Success? ==> Separate(r.value) && Healthy(r.value)
    ensures r.Success? ==> forall k :: k in files ==> k in r.value && r.value[k] == files[k]
    ensures r.Success? ==> forall k :: k in r.value && k !in files ==> fresh(r.value[k]) && fresh(r.value[k].order)
  {
    var p := Join(dir, n);
    if n in files {
      var o := AddLayer(fs, files, n, p);
      if o.Fail? {
        return Failure(o.error);
      }
      return Success(files);
    } else if n !in FILE_DEF {
      return Failure(UnknownFiles(dir));
    } else if FILE_DEF[n].None? {
      return Success(files);
    }
    var created := NewConfigFile(fs, p, "", FILE_DEF[n].value);
    if created.Failure? {
      return Failure(created.error);
    }
    assert Name(p) == n;
    assert Abs(files[n := created.value]) == Abs(files)[n := FileEntry(FILE_DEF[n].value, p, [p])];
    return Success(files[n := created.value]);
  }

  /** The inner loop of `_parse_data`: the entries of one directory in listing order. */
  method ScanDirectory(fs: FileSystem, files: map<string, ConfigFile>, dir: Path, names: seq<string>) returns (r: Result<map<string, ConfigFile>>)
    requires Separate(files) && Healthy(files)
    modifies set k | k in files :: files[k].order
    ensures r.Success? <==> ScanNames(fs, old(Abs(files)), dir, names).Success?
    ensures r.Failure? ==> r.error == ScanNames(fs, old(Abs(files)), dir, names).error
    ensures r.Success? ==> Abs(r.value) == ScanNames(fs, old(Abs(files)), dir, names).value
    ensures r.Success? ==> Separate(r.value) && Healthy(r.value)
    ensures r.Success? ==> forall k :: k in files ==> k in r.value && r.value[k] == files[k]
    ensures r.Success? ==> forall k :: k in r.value && k !in files ==> fresh(r.value[k]) && fresh(r.value[k].order)
  {
    ghost var start := Abs(files);
    var current := files;
    var j := 0;
    while j < |names|
      invariant 0 <= j <= |names|
      invariant Separate(current) && Healthy(current)
      invariant forall k :: k in files ==> k in current && current[k] == files[k]
      invariant forall k :: k in current && k !in files ==> fresh(current[k]) && fresh(current[k].order)
      invariant ScanNames(fs, start, dir, names[..j]) == Success(Abs(current))
    {
      ScanNamesStep(fs, start, dir, names, j, Abs(current));
      var next := ScanEntry(fs, current, dir, names[j]);
      if next.Failure? {
        ScanNamesFailureStays(fs, start, dir, names, j + 1);
        return Failure(next.error);
      }
      current := next.value;
      j := j + 1;
    }
    assert names[..j] == names;
    return Success(current);
  }

  /** The names of every layer but the last, the bundle's own directory. */
  function DependencyNames(paths: seq<Path>): (r: seq<string>)
    ensures |paths| > 0 ==> |r| == |paths| - 1
    ensures forall i :: 0 <= i < |r| ==> i < |paths| && r[i] == Name(paths[i])
  {
    if paths == [] then [] else seq(|paths| - 1, i requires 0 <= i < |paths| - 1 => Name(paths[i]))
  }

  /** The classes of the objects agree with `_FILE_DEF`. */
  predicate KindsFollowFileDef(files: map<string, FileEntry>)
  {
    forall n :: n in files ==> n in FILE_DEF && FILE_DEF[n] == Some(files[n].kind)
  }

  lemma ScanNameKinds(fs: FileSystem, files: map<string, FileEntry>, dir: Path, n: string)
    requires KindsFollowFileDef(files) && ScanName(fs, files, dir, n).Success?
    ensures KindsFollowFileDef(ScanName(fs, files, dir, n).value)
  {
  }

  lemma {:induction false} ScanNamesKinds(fs: FileSystem, files: map<string, FileEntry>, dir: Path, names: seq<string>)
    requires KindsFollowFileDef(files) && ScanNames(fs, files, dir, names).Success?
    ensures KindsFollowFileDef(ScanNames(fs, files, dir, names).value)
  {
    if names != [] {
      var front := names[..|names| - 1];
      ScanNamesKinds(fs, files, dir, front);
      ScanNameKinds(fs, ScanNames(fs, files, dir, front).value, dir, names[|names| - 1]);
    }
  }

  lemma {:induction false} ScanNamesKnown(fs: FileSystem, files: map<string, FileEntry>, dir: Path, names: seq<string>)
    requires KindsFollowFileDef(files) && ScanNames(fs, files, dir, names).Success?
    ensures forall n :: n in names ==> n in FILE_DEF
  {
    if names != [] {
      var front := names[..|names| - 1];
      ScanNamesKnown(fs, files, dir, front);
      ScanNamesKinds(fs, files, dir, front);
      assert names == front + [names[|names| - 1]];
    }
  }

  /** A bundle parses only when every layer is a directory and every name any layer lists is
      in `_FILE_DEF`: one unknown file anywhere rejects the whole bundle. */
  lemma {:induction false} ScanDirsKnown(fs: FileSystem, dirs: seq<Path>)
    requires ScanDirs(fs, dirs).Success?
    ensures forall i :: 0 <= i < |dirs| ==> fs.IsDir(dirs[i])
    ensures forall i, n :: 0 <= i < |dirs| && fs.IsDir(dirs[i]) && n in fs.entries[dirs[i]].names ==> n in FILE_DEF
  {
    if dirs != [] {
      var front, d := dirs[..|dirs| - 1], dirs[|dirs| - 1];
      ScanDirsKnown(fs, front);
      ScanNamesKnown(fs, ScanDirs(fs, front).value, d, Listing(fs, d).value);
      assert forall i :: 0 <= i < |dirs| - 1 ==> dirs[i] == front[i];
    }
  }

  /** Reference layering: the paths of the entries named `n`, one per directory of `dirs`
      that lists it, in directory order. */
  function Occurrences(fs: FileSystem, dirs: seq<Path>, n: string): seq<Path>
  {
    if dirs == [] then []
    else
      var d := dirs[|dirs| - 1];
      Occurrences(fs, dirs[..|dirs| - 1], n) + (if fs.IsDir(d) && n in fs.entries[d].names then [Join(d, n)] else [])
  }

  /** Every occurrence lies directly inside one of the directories. */
  lemma {:induction false} OccurrencesInside(fs: FileSystem, dirs: seq<Path>, n: string)
    requires n != ""
    ensures forall p :: p in Occurrences(fs, dirs, n) ==> |p| > 0 && p[..|p| - 1] in dirs
  {
    if dirs != [] {
      var front := dirs[..|dirs| - 1];
      OccurrencesInside(fs, front, n);
      assert forall d :: d in front ==> d in dirs;
    }
  }

  /** One entry: its object gains the entry's path as its last layer, or is created from it. */
  lemma ScanNameLayer(fs: FileSystem, acc: map<string, FileEntry>, dir: Path, m: string)
    requires ScanName(fs, acc, dir, m).Success? && KindsFollowFileDef(acc)
    requires m in acc ==> Join(dir, m) !in acc[m].paths
    ensures m in FILE_DEF
    ensures var r := ScanName(fs, acc, dir, m).value;
      && (forall n :: n in r <==> n in acc || (n == m && FILE_DEF[m].Some?))
      && (forall n :: n in r && n != m ==> r[n] == acc[n])
      && (m in r ==> r[m].paths == (if m in acc then acc[m].paths else []) + [Join(dir, m)])
      && (m in r ==> r[m].path == (if m in acc then acc[m].path else Join(dir, m)))
  {
  }

  /** One directory of `_parse_data`, when it lists no name twice and holds none of the
      objects' paths yet: an object that exists gains this directory's entry as its last
      layer, and a new object with a class is created for every name not seen before. */
  lemma {:induction false} ScanNamesLayers(fs: FileSystem, files: map<string, FileEntry>, dir: Path, names: seq<string>)
    requires ScanNames(fs, files, dir, names).Success? && NoDup(names) && KindsFollowFileDef(files)
    requires forall n :: n in files ==> Join(dir, n) !in files[n].paths
    ensures forall n :: n in names ==> n in FILE_DEF
    ensures var r := ScanNames(fs, files, dir, names).value;
      forall n :: n in r <==> n in files || (n in names && FILE_DEF[n].Some?)
    ensures var r := ScanNames(fs, files, dir, names).value;
      forall n :: n in r ==>
        && r[n].paths == (if n in files then files[n].paths else []) + (if n in names then [Join(dir, n)] else [])
        && r[n].path == (if n in files then files[n].path else Join(dir, n))
  {
    if names != [] {
      var front, last := names[..|names| - 1], names[|names| - 1];
      assert names == front + [last];
      assert NoDup(front) && last !in front;
      ScanNamesLayers(fs, files, dir, front);
      var acc := ScanNames(fs, files, dir, front).value;
      ScanNamesKinds(fs, files, dir, front);
      assert ScanNames(fs, files, dir, names) == ScanName(fs, acc, dir, last);
      assert last in acc ==> acc[last] == files[last];
      ScanNameLayer(fs, acc, dir, last);
      var r := ScanName(fs, acc, dir, last).value;
      forall n | n in r
        ensures r[n].paths == (if n in files then files[n].paths else []) + (if n in names then [Join(dir, n)] else [])
        ensures r[n].path == (if n in files then files[n].path else Join(dir, n))
      {
        if n != last {
          assert r[n] == acc[n];
          assert n in names <==> n in front;
        }
      }
    }
  }

  /** `_parse_data` over a path order without duplicates whose directories list no name twice:
      exactly the names with a class that occur somewhere become objects, each created from its
      first occurrence and layered over all of them in directory order. */
  lemma {:induction false} ScanDirsLayers(fs: FileSystem, dirs: seq<Path>)
    requires ScanDirs(fs, dirs).Success? && NoDup(dirs)
    requires forall i :: 0 <= i < |dirs| && fs.IsDir(dirs[i]) ==> NoDup(fs.entries[dirs[i]].names)
    ensures var r := ScanDirs(fs, dirs).value;
      forall n :: n in r <==> n in FILE_DEF && FILE_DEF[n].Some? && Occurrences(fs, dirs, n) != []
    ensures var r := ScanDirs(fs, dirs).value;
      forall n :: n in r ==> r[n].paths == Occurrences(fs, dirs, n) && r[n].path == Occurrences(fs, dirs, n)[0]
  {
    if dirs != [] {
      var front, d := dirs[..|dirs| - 1], dirs[|dirs| - 1];
      assert NoDup(front) && d !in front;
      ScanDirsLayers(fs, front);
      var files := ScanDirs(fs, front).value;
      var names := Listing(fs, d).value;
      assert ScanDirs(fs, dirs) == ScanNames(fs, files, d, names);
      assert KindsFollowFileDef(files);
      forall n | n in files
        ensures Join(d, n) !in files[n].paths
      {
        FileDefNonEmpty(n);
        OccurrencesInside(fs, front, n);
      }
      ScanNamesLayers(fs, files, d, names);
    }
  }

  // from_base_name: breadth-first discovery of the base bundles.

  /** The path order after the bundles `enq` were discovered in that order: the bundle
      itself first, and every later discovery put in front (`update_first_path`). */
  function Layout(bd: Path, enq: seq<string>): (r: seq<Path>)
    ensures |r| == |enq|
  {
    if enq == [] then [] else [Join(bd, enq[|enq| - 1])] + Layout(bd, enq[..|enq| - 1])
  }

  /** The order is the discovery order reversed. */
  lemma {:induction false} LayoutIndex(bd: Path, enq: seq<string>)
    ensures forall i :: 0 <= i < |enq| ==> Layout(bd, enq)[|enq| - 1 - i] == Join(bd, enq[i])
  {
    if enq != [] {
      var front := enq[..|enq| - 1];
      LayoutIndex(bd, front);
      assert forall i :: 0 <= i < |front| ==> front[i] == enq[i];
    }
  }

  lemma JoinInjective(p: Path, a: string, b: string)
    requires Join(p, a) == Join(p, b)
    ensures a == b
  {
    if a != "" && b != "" {
      assert Join(p, a)[|p|] == Join(p, b)[|p|];
    }
  }

  /** A discovered bundle's directory is in the path order. Unlike the converse, this holds
      whether or not distinct names can share a directory. */
  lemma LayoutHas(bd: Path, enq: seq<string>, x: string)
    requires x in enq
    ensures Join(bd, x) in Layout(bd, enq)
  {
    LayoutIndex(bd, enq);
    var i :| 0 <= i < |enq| && enq[i] == x;
    assert Layout(bd, enq)[|enq| - 1 - i] == Join(bd, x);
  }

  /** A bundle's directory is in the path order exactly when the bundle was discovered. */
  lemma LayoutMember(bd: Path, enq: seq<string>, x: string)
    ensures x in enq <==> Join(bd, x) in Layout(bd, enq)
  {
    var l := Layout(bd, enq);
    LayoutIndex(bd, enq);
    if Join(bd, x) in l {
      var j :| 0 <= j < |l| && l[j] == Join(bd, x);
      JoinInjective(bd, enq[|enq| - 1 - j], x);
    }
    if x in enq {
      var i :| 0 <= i < |enq| && enq[i] == x;
      assert l[|enq| - 1 - i] == Join(bd, x);
    }
  }

  ghost function PathSet(bd: Path, enq: seq<string>): set<Path>
  {
    set p | p in Layout(bd, enq)
  }

  /** The paths of the filesystem that are not yet layers: discovery only ever shrinks it. */
  ghost function Measure(fs: FileSystem, bd: Path, enq: seq<string>): nat
  {
    |fs.Paths() - PathSet(bd, enq)|
  }

  lemma LayoutAppend(bd: Path, enq: seq<string>, d: string)
    ensures Layout(bd, enq + [d]) == [Join(bd, d)] + Layout(bd, enq)
  {
    assert (enq + [d])[..|enq|] == enq;
  }

  lemma MeasureStep(fs: FileSystem, bd: Path, enq: seq<string>, d: string)
    requires fs.Exists(Join(bd, d)) && Join(bd, d) !in Layout(bd, enq)
    ensures Measure(fs, bd, enq + [d]) == Measure(fs, bd, enq) - 1
  {
    var p := Join(bd, d);
    LayoutAppend(bd, enq, d);
    var before, after := PathSet(bd, enq), PathSet(bd, enq + [d]);
    assert after == before + {p} by {
      forall x
        ensures x in after <==> x in before || x == p
      {
        assert x in [p] + Layout(bd, enq) <==> x == p || x in Layout(bd, enq);
      }
    }
    var rest := fs.Paths() - before;
    assert p in rest;
    assert fs.Paths() - after == rest - {p};
  }

  /** The inner loop of `from_base_name`: each dependency whose directory is not yet a layer
      is put first and queued; a new directory must exist. */
  function Enqueue(fs: FileSystem, bd: Path, enq: seq<string>, deps: seq<string>): (r: Result<seq<string>>)
    ensures r.Success? ==> |enq| <= |r.value| && r.value[..|enq|] == enq
  {
    if deps == [] then Success(enq)
    else
      var e :- Enqueue(fs, bd, enq, deps[..|deps| - 1]);
      var d := deps[|deps| - 1];
      var a :- AddPath(fs, Layout(bd, e), Join(bd, d), true);
      if a.0 then
        assert (e + [d])[..|enq|] == e[..|enq|];
        Success(e + [d])
      else Success(e)
  }

  /** Every bundle the inner loop queues brings a new directory of the filesystem. */
  lemma {:induction false} EnqueueMeasure(fs: FileSystem, bd: Path, enq: seq<string>, deps: seq<string>)
    requires Enqueue(fs, bd, enq, deps).Success?
    ensures Measure(fs, bd, Enqueue(fs, bd, enq, deps).value) <= Measure(fs, bd, enq)
    ensures |Enqueue(fs, bd, enq, deps).value| > |enq| ==> Measure(fs, bd, Enqueue(fs, bd, enq, deps).value) < Measure(fs, bd, enq)
  {
    if deps != [] {
      var front := deps[..|deps| - 1];
      EnqueueMeasure(fs, bd, enq, front);
      var e := Enqueue(fs, bd, enq, front).value;
      var d := deps[|deps| - 1];
      if Enqueue(fs, bd, enq, deps).value != e {
        MeasureStep(fs, bd, e, d);
      }
    }
  }

  /** The path of a bundle's metadata file. */
  function MetaPath(bd: Path, x: string): Path
  {
    Join(Join(bd, x), BASEBUNDLEMETA_INI)
  }

  /** `BaseBundleMetaIni(...).depends` for bundle `x`: the file must exist, parse and pass
      its schema. */
  function MetaDepends(fs: FileSystem, bd: Path, x: string): (r: Result<seq<string>>)
    ensures !fs.Exists(MetaPath(bd, x)) ==> r == Failure(FileNotFound(MetaPath(bd, x)))
    ensures r.Success? ==> IniLayers(fs, [MetaPath(bd, x)]).Success?
    ensures r.Success? ==> Conforms(BaseBundleMetaSchema, IniLayers(fs, [MetaPath(bd, x)]).value)
  {
    var meta := MetaPath(bd, x);
    if !fs.Exists(meta) then Failure(FileNotFound(meta))
    else
      var ini :- ParseIni(fs, [meta], BaseBundleMetaSchema);
      Depends(ini)
  }

  /** The outer loop of `from_base_name`, reading each bundle's dependencies with `depsOf`
      (`MetaDepends` on the filesystem). The deque is used first in, first out
      (`appendleft`, then `pop` from the other end), so bundles are explored in the order they
      were discovered; `enq[k..]` is what is still pending. */
  function Bfs(fs: FileSystem, bd: Path, depsOf: string -> Result<seq<string>>, enq: seq<string>, k: nat): (r: Result<seq<string>>)
    requires k <= |enq|
    ensures r.Success? ==> |enq| <= |r.value| && r.value[..|enq|] == enq
    decreases Measure(fs, bd, enq), |enq| - k
  {
    if k == |enq| then Success(enq)
    else
      var deps :- depsOf(enq[k]);
      var next :- Enqueue(fs, bd, enq, deps);
      EnqueueMeasure(fs, bd, enq, deps);
      var r := Bfs(fs, bd, depsOf, next, k + 1);
      if r.Success? then
        PrefixOfPrefix(enq, next, r.value);
        r
      else r
  }

  lemma {:induction false} EnqueueFailureStays(fs: FileSystem, bd: Path, enq: seq<string>, deps: seq<string>, j: nat)
    requires j <= |deps| && Enqueue(fs, bd, enq, deps[..j]).Failure?
    ensures Enqueue(fs, bd, enq, deps) == Enqueue(fs, bd, enq, deps[..j])
  {
    if j < |deps| {
      assert deps[..|deps| - 1][..j] == deps[..j];
      EnqueueFailureStays(fs, bd, enq, deps[..|deps| - 1], j);
    } else {
      assert deps[..j] == deps;
    }
  }

  lemma EnqueueStep(fs: FileSystem, bd: Path, enq: seq<string>, deps: seq<string>, j: nat, e: seq<string>)
    requires j < |deps| && Enqueue(fs, bd, enq, deps[..j]) == Success(e)
    ensures var a := AddPath(fs, Layout(bd, e), Join(bd, deps[j]), true);
      && (a.Failure? ==> Enqueue(fs, bd, enq, deps[..j + 1]) == Failure(a.error))
      && (a.Success? ==> Enqueue(fs, bd, enq, deps[..j + 1]) == Success(if a.value.0 then e + [deps[j]] else e))
  {
    assert deps[..j + 1][..j] == deps[..j];
  }

  /** The inner loop's step on the path order: the order `update_first_path` leaves is the
      layout of the discovery order `Enqueue` reaches. */
  lemma EnqueueAdvance(fs: FileSystem, bd: Path, enq: seq<string>, deps: seq<string>, j: nat, out: seq<string>, added: bool, paths: seq<Path>)
    requires j < |deps| && Enqueue(fs, bd, enq, deps[..j]) == Success(enq + out)
    requires AddPath(fs, Layout(bd, enq + out), Join(bd, deps[j]), true) == Success((added, paths))
    ensures var out' := if added then out + [deps[j]] else out;
      Enqueue(fs, bd, enq, deps[..j + 1]) == Success(enq + out') && paths == Layout(bd, enq + out')
  {
    EnqueueStep(fs, bd, enq, deps, j, enq + out);
    if added {
      LayoutAppend(bd, enq + out, deps[j]);
      assert enq + out + [deps[j]] == enq + (out + [deps[j]]);
    }
  }

  /** A bundle is never queued twice. */
  lemma {:induction false} EnqueueNoDup(fs: FileSystem, bd: Path, enq: seq<string>, deps: seq<string>)
    requires NoDup(enq) && Enqueue(fs, bd, enq, deps).Success?
    ensures NoDup(Enqueue(fs, bd, enq, deps).value)
  {
    if deps != [] {
      var front := deps[..|deps| - 1];
      var d := deps[|deps| - 1];
      EnqueueNoDup(fs, bd, enq, front);
      var e := Enqueue(fs, bd, enq, front).value;
      var a := AddPath(fs, Layout(bd, e), Join(bd, d), true).value;
      assert Enqueue(fs, bd, enq, deps) == Success(if a.0 then e + [d] else e);
      if d in e {
        LayoutHas(bd, e, d);
      }
    }
  }

  /** After the inner loop every dependency named is discovered. */
  lemma {:induction false} EnqueueCovers(fs: FileSystem, bd: Path, enq: seq<string>, deps: seq<string>)
    requires Enqueue(fs, bd, enq, deps).Success?
    ensures forall d :: d in deps ==> d in Enqueue(fs, bd, enq, deps).value
  {
    if deps != [] {
      var front := deps[..|deps| - 1];
      var d := deps[|deps| - 1];
      EnqueueCovers(fs, bd, enq, front);
      var e := Enqueue(fs, bd, enq, front).value;
      var a := AddPath(fs, Layout(bd, e), Join(bd, d), true).value;
      assert Enqueue(fs, bd, enq, deps) == Success(if a.0 then e + [d] else e);
      if !a.0 {
        LayoutMember(bd, e, d);
      }
      assert forall x :: x in deps ==> x in front || x == d;
    }
  }

  /** One round of the outer loop. */
  lemma BfsStep(fs: FileSystem, bd: Path, depsOf: string -> Result<seq<string>>, enq: seq<string>, k: nat)
    requires k < |enq| && Bfs(fs, bd, depsOf, enq, k).Success?
    ensures depsOf(enq[k]).Success?
    ensures Enqueue(fs, bd, enq, depsOf(enq[k]).value).Success?
    ensures Bfs(fs, bd, depsOf, enq, k) == Bfs(fs, bd, depsOf, Enqueue(fs, bd, enq, depsOf(enq[k]).value).value, k + 1)
  {
  }

  /** One round of the outer loop, whatever its outcome: a failure reading the dependencies
      or queueing them ends the exploration with that error; otherwise exploration goes on
      from the next pending bundle, with fewer undiscovered directories or fewer pending
      bundles. */
  lemma BfsRound(fs: FileSystem, bd: Path, depsOf: string -> Result<seq<string>>, enq: seq<string>, k: nat)
    requires k < |enq|
    ensures depsOf(enq[k]).Failure? ==> Bfs(fs, bd, depsOf, enq, k) == Failure(depsOf(enq[k]).error)
    ensures depsOf(enq[k]).Success? && Enqueue(fs, bd, enq, depsOf(enq[k]).value).Failure? ==>
      Bfs(fs, bd, depsOf, enq, k) == Failure(Enqueue(fs, bd, enq, depsOf(enq[k]).value).error)
    ensures depsOf(enq[k]).Success? && Enqueue(fs, bd, enq, depsOf(enq[k]).value).Success? ==>
      var next := Enqueue(fs, bd, enq, depsOf(enq[k]).value).value;
      && Bfs(fs, bd, depsOf, enq, k) == Bfs(fs, bd, depsOf, next, k + 1)
      && Measure(fs, bd, next) <= Measure(fs, bd, enq)
      && (|next| > |enq| ==> Measure(fs, bd, next) < Measure(fs, bd, enq))
  {
    if depsOf(enq[k]).Success? && Enqueue(fs, bd, enq, depsOf(enq[k]).value).Success? {
      EnqueueMeasure(fs, bd, enq, depsOf(enq[k]).value);
    }
  }

  lemma DropAppend(a: seq<string>, b: seq<string>, n: nat)
    requires n <= |a|
    ensures (a + b)[n..] == a[n..] + b
  {
  }

  /** The bundles already explored after `k` rounds. */
  function Seen(enq: seq<string>, k: nat): set<string>
    requires k <= |enq|
  {
    set i | 0 <= i < k :: enq[i]
  }

  /** The next pending bundle was not explored before, when none is queued twice. */
  lemma SeenFresh(enq: seq<string>, k: nat)
    requires k < |enq| && NoDup(enq)
    ensures enq[k] !in Seen(enq, k)
  {
  }

  lemma SeenStep(enq: seq<string>, next: seq<string>, k: nat)
    requires k < |enq| <= |next| && next[..|enq|] == enq
    ensures Seen(next, k + 1) == Seen(enq, k) + {enq[k]}
  {
    assert forall i :: 0 <= i < k + 1 ==> next[i] == enq[i];
  }

  lemma PrefixOfPrefix(a: seq<string>, b: seq<string>, c: seq<string>)
    requires |a| <= |b| <= |c| && c[..|b|] == b && b[..|a|] == a
    ensures c[..|a|] == a
  {
    assert c[..|a|] == c[..|b|][..|a|];
  }

  /** No base bundle is listed twice. */
  lemma {:induction false} BfsNoDup(fs: FileSystem, bd: Path, depsOf: string -> Result<seq<string>>, enq: seq<string>, k: nat)
    requires k <= |enq| && NoDup(enq) && Bfs(fs, bd, depsOf, enq, k).Success?
    ensures NoDup(Bfs(fs, bd, depsOf, enq, k).value)
    decreases Measure(fs, bd, enq), |enq| - k
  {
    if k < |enq| {
      var deps := depsOf(enq[k]).value;
      EnqueueNoDup(fs, bd, enq, deps);
      EnqueueMeasure(fs, bd, enq, deps);
      BfsNoDup(fs, bd, depsOf, Enqueue(fs, bd, enq, deps).value, k + 1);
    }
  }

  /** Bundle `x` has readable metadata and every bundle it depends on is in `enq`. */
  predicate DepsWithin(depsOf: string -> Result<seq<string>>, x: string, enq: seq<string>)
  {
    depsOf(x).Success? && forall d :: d in depsOf(x).value ==> d in enq
  }

  /** The first `k` bundles of `enq` were explored: their dependencies are all in `enq`. */
  predicate ExploredWithin(depsOf: string -> Result<seq<string>>, enq: seq<string>, k: nat)
  {
    k <= |enq| && forall i :: 0 <= i < k ==> DepsWithin(depsOf, enq[i], enq)
  }

  lemma ExploredStep(depsOf: string -> Result<seq<string>>, enq: seq<string>, next: seq<string>, k: nat)
    requires k < |enq| <= |next| && next[..|enq|] == enq && ExploredWithin(depsOf, enq, k)
    requires depsOf(enq[k]).Success? && forall d :: d in depsOf(enq[k]).value ==> d in next
    ensures ExploredWithin(depsOf, next, k + 1)
  {
    forall i | 0 <= i < k + 1
      ensures DepsWithin(depsOf, next[i], next)
    {
      assert next[i] == enq[i];
      if i < k {
        assert DepsWithin(depsOf, enq[i], enq);
        forall d | d in depsOf(enq[i]).value
          ensures d in next
        {
          assert d in next[..|enq|];
        }
      }
    }
  }

  /** The discovered bundles are closed under `depends`: every one of them was explored. */
  lemma {:induction false} BfsClosed(fs: FileSystem, bd: Path, depsOf: string -> Result<seq<string>>, enq: seq<string>, k: nat)
    requires k <= |enq| && Bfs(fs, bd, depsOf, enq, k).Success?
    requires ExploredWithin(depsOf, enq, k)
    ensures ExploredWithin(depsOf, Bfs(fs, bd, depsOf, enq, k).value, |Bfs(fs, bd, depsOf, enq, k).value|)
    decreases Measure(fs, bd, enq), |enq| - k
  {
    if k < |enq| {
      BfsStep(fs, bd, depsOf, enq, k);
      var deps := depsOf(enq[k]).value;
      var next := Enqueue(fs, bd, enq, deps).value;
      EnqueueCovers(fs, bd, enq, deps);
      EnqueueMeasure(fs, bd, enq, deps);
      ExploredStep(depsOf, enq, next, k);
      BfsClosed(fs, bd, depsOf, next, k + 1);
    }
  }

  /** The inner loop queues only names its dependencies list. */
  lemma {:induction false} EnqueueFrom(fs: FileSystem, bd: Path, enq: seq<string>, deps: seq<string>)
    requires Enqueue(fs, bd, enq, deps).Success?
    ensures var e := Enqueue(fs, bd, enq, deps).value;
      forall i :: |enq| <= i < |e| ==> e[i] in deps
  {
    if deps != [] {
      var front := deps[..|deps| - 1];
      var d := deps[|deps| - 1];
      EnqueueFrom(fs, bd, enq, front);
      var e := Enqueue(fs, bd, enq, front).value;
      var a := AddPath(fs, Layout(bd, e), Join(bd, d), true).value;
      assert Enqueue(fs, bd, enq, deps) == Success(if a.0 then e + [d] else e);
      assert forall x :: x in front ==> x in deps;
    }
  }

  /** Bundle `y` is among the dependencies read from bundle `x`. */
  predicate ListedBy(depsOf: string -> Result<seq<string>>, x: string, y: string)
  {
    depsOf(x).Success? && y in depsOf(x).value
  }

  /** Every bundle of `enq` but the first is listed by one before it among the first `k`,
      that is, one already explored. */
  predicate DiscoveredFrom(depsOf: string -> Result<seq<string>>, enq: seq<string>, k: nat)
  {
    forall i :: 0 < i < |enq| ==> exists j :: 0 <= j < i && j < k && ListedBy(depsOf, enq[j], enq[i])
  }

  lemma DiscoveredStep(depsOf: string -> Result<seq<string>>, enq: seq<string>, next: seq<string>, k: nat)
    requires k < |enq| <= |next| && next[..|enq|] == enq && DiscoveredFrom(depsOf, enq, k)
    requires depsOf(enq[k]).Success? && forall i :: |enq| <= i < |next| ==> next[i] in depsOf(enq[k]).value
    ensures DiscoveredFrom(depsOf, next, k + 1)
  {
    forall i | 0 < i < |next|
      ensures exists j :: 0 <= j < i && j < k + 1 && ListedBy(depsOf, next[j], next[i])
    {
      if i < |enq| {
        assert next[i] == enq[i];
        var j :| 0 <= j < i && j < k && ListedBy(depsOf, enq[j], enq[i]);
        assert next[j] == enq[j];
      } else {
        assert next[k] == enq[k];
        assert ListedBy(depsOf, next[k], next[i]);
      }
    }
  }

  /** Only dependencies are discovered: every bundle after the first is listed in the
      `depends` of a bundle explored before it, so each is a transitive base of the first. */
  lemma {:induction false} BfsDiscoveredFrom(fs: FileSystem, bd: Path, depsOf: string -> Result<seq<string>>, enq: seq<string>, k: nat)
    requires k <= |enq| && Bfs(fs, bd, depsOf, enq, k).Success?
    requires DiscoveredFrom(depsOf, enq, k)
    ensures DiscoveredFrom(depsOf, Bfs(fs, bd, depsOf, enq, k).value, |Bfs(fs, bd, depsOf, enq, k).value|)
    decreases Measure(fs, bd, enq), |enq| - k
  {
    if k < |enq| {
      BfsStep(fs, bd, depsOf, enq, k);
      var deps := depsOf(enq[k]).value;
      var next := Enqueue(fs, bd, enq, deps).value;
      EnqueueFrom(fs, bd, enq, deps);
      EnqueueMeasure(fs, bd, enq, deps);
      DiscoveredStep(depsOf, enq, next, k);
      BfsDiscoveredFrom(fs, bd, depsOf, next, k + 1);
    } else {
      assert Bfs(fs, bd, depsOf, enq, k).value == enq;
      forall i | 0 < i < |enq|
        ensures exists j :: 0 <= j < i && j < |enq| && ListedBy(depsOf, enq[j], enq[i])
      {
        var j :| 0 <= j < i && j < k && ListedBy(depsOf, enq[j], enq[i]);
      }
    }
  }

  lemma EnqueueOne(fs: FileSystem, bd: Path, e: seq<string>, d: string)
    requires fs.Exists(Join(bd, d)) && d !in e
    ensures Enqueue(fs, bd, e, [d]) == Success(e + [d])
  {
    assert [d][..0] == [];
    LayoutMember(bd, e, d);
  }

  /** Breadth first, not depth first: with `a` depending on `b` and `c`, and `b` on `d`, the
      bundles are discovered as a, b, c, d (a stack would give a, b, d, c). */
  lemma BfsExample(fs: FileSystem, bd: Path, depsOf: string -> Result<seq<string>>)
    requires fs.Exists(Join(bd, "b")) && fs.Exists(Join(bd, "c")) && fs.Exists(Join(bd, "d"))
    requires depsOf("a") == Success(["b", "c"]) && depsOf("b") == Success(["d"])
    requires depsOf("c") == Success([]) && depsOf("d") == Success([])
    ensures Bfs(fs, bd, depsOf, ["a"], 0) == Success(["a", "b", "c", "d"])
  {
    var e1, e2, e3, e4 := ["a"], ["a", "b"], ["a", "b", "c"], ["a", "b", "c", "d"];
    assert "b" !in e1 && "c" !in e2 && "d" !in e3 by {
      assert "a"[0] != "b"[0] && "a"[0] != "c"[0] && "b"[0] != "c"[0];
      assert "a"[0] != "d"[0] && "b"[0] != "d"[0] && "c"[0] != "d"[0];
    }
    EnqueueOne(fs, bd, e1, "b");
    assert e1 + ["b"] == e2 && e2 + ["c"] == e3 && e3 + ["d"] == e4;
    assert ["b", "c"][..1] == ["b"];
    EnqueueStep(fs, bd, e1, ["b", "c"], 1, e2);
    LayoutMember(bd, e2, "c");
    assert ["b", "c"][..2] == ["b", "c"];
    assert Enqueue(fs, bd, e1, ["b", "c"]) == Success(e3);
    EnqueueOne(fs, bd, e3, "d");
    assert e1[0] == "a" && e3[1] == "b" && e4[2] == "c" && e4[3] == "d";
    assert Bfs(fs, bd, depsOf, e4, 3) == Bfs(fs, bd, depsOf, e4, 4);
    assert Bfs(fs, bd, depsOf, e4, 2) == Bfs(fs, bd, depsOf, e4, 3);
    assert Bfs(fs, bd, depsOf, e3, 1) == Bfs(fs, bd, depsOf, e4, 2);
    assert Bfs(fs, bd, depsOf, e1, 0) == Bfs(fs, bd, depsOf, e3, 1);
  }

  /** Each base bundle's dependencies as read from its metadata file. */
  function BaseDeps(fs: FileSystem, bd: Path): string -> Result<seq<string>>
  {
    x => MetaDepends(fs, bd, x)
  }

  /** `from_base_name`: the bundle's directory must exist; its base bundles are discovered
      breadth first; the resulting bundle is scanned once; and when it has a patch order, the
      shared patches directory of the resources must be a directory. The result is the
      discovery order and the bundle's files. */
  function FromBaseNameSpec(fs: FileSystem, resourcesDir: Path, bundlesDirName: string, name: string): (r: Result<(seq<string>, map<string, FileEntry>)>)
    ensures var own := Join(Join(resourcesDir, bundlesDirName), name);
      !fs.Exists(own) ==> r == Failure(FileNotFound(own))
    ensures r.Success? ==> |r.value.0| > 0 && r.value.0[0] == name
    ensures r.Success? ==> ScanDirs(fs, Layout(Join(resourcesDir, bundlesDirName), r.value.0)) == Success(r.value.1)
    ensures r.Success? && PATCH_ORDER_LIST in r.value.1 ==> fs.IsDir(Join(resourcesDir, PATCHES_DIR))
  {
    var bd := Join(resourcesDir, bundlesDirName);
    var own := Join(bd, name);
    if !fs.Exists(own) then Failure(FileNotFound(own))
    else
      var enq :- Bfs(fs, bd, BaseDeps(fs, bd), [name], 0);
      var files :- ScanBundle(fs, Layout(bd, enq), Join(resourcesDir, PATCHES_DIR));
      Success((enq, files))
  }

  /** The end of `from_base_name`: the bundle's directories are scanned, and when they hold a
      patch order, `patches` must be a directory. */
  function ScanBundle(fs: FileSystem, dirs: seq<Path>, patches: Path): Result<map<string, FileEntry>>
  {
    var files :- ScanDirs(fs, dirs);
    if PATCH_ORDER_LIST in files && !fs.IsDir(patches) then Failure(NotADirectory(patches))
    else Success(files)
  }

  /** `get_dependencies` of a bundle built from the discovery order `enq`: every base bundle,
      the most recently discovered first. */
  lemma DependencyNamesOfLayout(bd: Path, enq: seq<string>)
    requires |enq| > 0 && forall i :: 0 <= i < |enq| ==> enq[i] != ""
    ensures |DependencyNames(Layout(bd, enq))| == |enq| - 1
    ensures forall i :: 0 <= i < |enq| - 1 ==> DependencyNames(Layout(bd, enq))[i] == enq[|enq| - 1 - i]
  {
    LayoutIndex(bd, enq);
    forall i | 0 <= i < |enq| - 1
      ensures DependencyNames(Layout(bd, enq))[i] == enq[|enq| - 1 - i]
    {
      var x := enq[|enq| - 1 - i];
      assert Layout(bd, enq)[i] == Join(bd, x);
      NameParentOfJoin(bd, x);
    }
  }

  /** A discovery order without duplicates lays out each directory once. */
  lemma LayoutNoDup(bd: Path, enq: seq<string>)
    requires NoDup(enq)
    ensures NoDup(Layout(bd, enq))
  {
    var l := Layout(bd, enq);
    LayoutIndex(bd, enq);
    forall i, j | 0 <= i < j < |l|
      ensures l[i] != l[j]
    {
      if l[i] == l[j] {
        JoinInjective(bd, enq[|enq| - 1 - i], enq[|enq| - 1 - j]);
      }
    }
  }

  /** The converse of closure for `from_base_name`: no bundle is discovered unless one
      explored before it lists it, so the path order holds only the bundle and its bases. */
  lemma FromBaseNameOnlyBases(fs: FileSystem, resourcesDir: Path, bundlesDirName: string, name: string)
    requires FromBaseNameSpec(fs, resourcesDir, bundlesDirName, name).Success?
    ensures var enq := FromBaseNameSpec(fs, resourcesDir, bundlesDirName, name).value.0;
      DiscoveredFrom(BaseDeps(fs, Join(resourcesDir, bundlesDirName)), enq, |enq|)
  {
    var bd := Join(resourcesDir, bundlesDirName);
    BfsDiscoveredFrom(fs, bd, BaseDeps(fs, bd), [name], 0);
  }

  /** What a successful `from_base_name` promises: the bundle comes first in discovery order,
      no base bundle appears twice, every discovered bundle's metadata was read and its
      dependencies are all discovered too, and in the path order every directory appears once
      with the bundle's own directory last. When no directory lists a name twice, the bundle's
      files are exactly the names with a class found in its layers, each layered over its
      occurrences in path order. */
  lemma FromBaseNameResult(fs: FileSystem, resourcesDir: Path, bundlesDirName: string, name: string)
    requires FromBaseNameSpec(fs, resourcesDir, bundlesDirName, name).Success?
    ensures var (enq, files) := FromBaseNameSpec(fs, resourcesDir, bundlesDirName, name).value;
      var bd := Join(resourcesDir, bundlesDirName);
      && |enq| > 0 && enq[0] == name && NoDup(enq)
      && ExploredWithin(BaseDeps(fs, bd), enq, |enq|)
      && NoDup(Layout(bd, enq)) && Layout(bd, enq)[|enq| - 1] == Join(bd, name)
      && ((forall p :: p in fs.entries && fs.entries[p].Dir? ==> NoDup(fs.entries[p].names)) ==>
            && (forall n :: n in files <==> n in FILE_DEF && FILE_DEF[n].Some? && Occurrences(fs, Layout(bd, enq), n) != [])
            && (forall n :: n in files ==> files[n].paths == Occurrences(fs, Layout(bd, enq), n)))
  {
    FromBaseNameOrder(fs, resourcesDir, bundlesDirName, name);
    if forall p :: p in fs.entries && fs.entries[p].Dir? ==> NoDup(fs.entries[p].names) {
      FromBaseNameFiles(fs, resourcesDir, bundlesDirName, name);
    }
  }

  /** The discovery order and the path order of a bundle built by `from_base_name`. */
  lemma FromBaseNameOrder(fs: FileSystem, resourcesDir: Path, bundlesDirName: string, name: string)
    requires FromBaseNameSpec(fs, resourcesDir, bundlesDirName, name).Success?
    ensures var enq := FromBaseNameSpec(fs, resourcesDir, bundlesDirName, name).value.0;
      var bd := Join(resourcesDir, bundlesDirName);
      && |enq| > 0 && enq[0] == name && NoDup(enq)
      && ExploredWithin(BaseDeps(fs, bd), enq, |enq|)
      && NoDup(Layout(bd, enq)) && Layout(bd, enq)[|enq| - 1] == Join(bd, name)
  {
    var bd := Join(resourcesDir, bundlesDirName);
    assert FromBaseNameSpec(fs, resourcesDir, bundlesDirName, name).value.0 == Bfs(fs, bd, BaseDeps(fs, bd), [name], 0).value;
    BfsFromName(fs, bd, name);
  }

  /** The discovery order of a search started from `name` alone. */
  lemma BfsFromName(fs: FileSystem, bd: Path, name: string)
    requires Bfs(fs, bd, BaseDeps(fs, bd), [name], 0).Success?
    ensures var enq := Bfs(fs, bd, BaseDeps(fs, bd), [name], 0).value;
      && |enq| > 0 && enq[0] == name && NoDup(enq)
      && ExploredWithin(BaseDeps(fs, bd), enq, |enq|)
      && NoDup(Layout(bd, enq)) && Layout(bd, enq)[|enq| - 1] == Join(bd, name)
  {
    var depsOf := BaseDeps(fs, bd);
    var enq := Bfs(fs, bd, depsOf, [name], 0).value;
    BfsNoDup(fs, bd, depsOf, [name], 0);
    BfsClosed(fs, bd, depsOf, [name], 0);
    LayoutIndex(bd, enq);
    LayoutNoDup(bd, enq);
  }

  /** The files of a bundle built by `from_base_name`, when no directory lists a name twice. */
  lemma FromBaseNameFiles(fs: FileSystem, resourcesDir: Path, bundlesDirName: string, name: string)
    requires FromBaseNameSpec(fs, resourcesDir, bundlesDirName, name).Success?
    requires forall p :: p in fs.entries && fs.entries[p].Dir? ==> NoDup(fs.entries[p].names)
    ensures var (enq, files) := FromBaseNameSpec(fs, resourcesDir, bundlesDirName, name).value;
      var bd := Join(resourcesDir, bundlesDirName);
      && (forall n :: n in files <==> n in FILE_DEF && FILE_DEF[n].Some? && Occurrences(fs, Layout(bd, enq), n) != [])
      && (forall n :: n in files ==> files[n].paths == Occurrences(fs, Layout(bd, enq), n))
  {
    var bd := Join(resourcesDir, bundlesDirName);
    var (enq, files) := FromBaseNameSpec(fs, resourcesDir, bundlesDirName, name).value;
    FromBaseNameOrder(fs, resourcesDir, bundlesDirName, name);
    var dirs := Layout(bd, enq);
    assert ScanDirs(fs, dirs) == Success(files);
    ScanDirsLayers(fs, dirs);
  }

  /** `BaseBundleMetaIni(...).depends` for the bundle `x`, read through a fresh
      configuration object. */
  method ReadDepends(fs: FileSystem, bd: Path, x: string) returns (r: Result<seq<string>>)
    ensures r == MetaDepends(fs, bd, x)
  {
    var meta := NewConfigFile(fs, MetaPath(bd, x), "", BaseBundleMetaFile);
    if meta.Failure? {
      return Failure(meta.error);
    }
    var ini := meta.value.IniContents(fs);
    if ini.Failure? {
      return Failure(ini.error);
    }
    return Depends(ini.value);
  }

  class ConfigBundle {
    const path: Path
    const name: string
    /** `_path_order`: the directories of the base bundles, most basic first, then this one. */
    const order: LayeredPaths
    /** `_read_cache`: the dict of configuration objects. */
    var readCache: Option<map<string, ConfigFile>>

    /** The cached objects and their path orders. */
    ghost function Cached(): set<object>
      reads this
    {
      if readCache.None? then {} else
        (set n | n in readCache.value :: readCache.value[n] as object) +
        (set n | n in readCache.value :: readCache.value[n].order as object)
    }

    ghost predicate Valid()
      reads this, order, Cached()
    {
      && order.Valid() && |order.paths| > 0 && order.paths[|order.paths| - 1] == path
      && (readCache.Some? ==> Usable(readCache.value))
    }

    constructor (path: Path)
      ensures Valid() && fresh(order)
      ensures this.path == path && name == Name(path) && order.paths == [path] && readCache == None
    {
      this.path := path;
      name := Name(path);
      order := new LayeredPaths(path);
      readCache := None;
    }

    /** One round of the inner loop of `from_base_name`: `deps[j]` is put first in the path
        order unless its directory is already a layer. */
    method EnqueueDep(fs: FileSystem, bd: Path, deps: seq<string>, j: nat, ghost enq: seq<string>, ghost out: seq<string>) returns (r: Result<bool>)
      requires Valid() && readCache == None && j < |deps|
      requires Enqueue(fs, bd, enq, deps[..j]) == Success(enq + out) && order.paths == Layout(bd, enq + out)
      modifies order
      ensures Valid()
      ensures r.Failure? ==> Enqueue(fs, bd, enq, deps[..j + 1]) == Failure(r.error)
      ensures r.Success? ==> var out' := if r.value then out + [deps[j]] else out;
        Enqueue(fs, bd, enq, deps[..j + 1]) == Success(enq + out') && order.paths == Layout(bd, enq + out')
    {
      ghost var a := AddPath(fs, order.paths, Join(bd, deps[j]), true);
      r := order.UpdateFirstPath(fs, Join(bd, deps[j]));
      if r.Failure? {
        assert a == Failure(r.error);
        EnqueueStep(fs, bd, enq, deps, j, enq + out);
      } else {
        assert a == Success((r.value, order.paths));
        EnqueueAdvance(fs, bd, enq, deps, j, out, r.value, order.paths);
      }
    }

    /** The inner loop of `from_base_name`: every dependency whose directory is not yet a
        layer is put first in the path order. The result is the names newly queued, in order. */
    method EnqueueAll(fs: FileSystem, bd: Path, deps: seq<string>, ghost enq: seq<string>) returns (r: Result<seq<string>>)
      requires Valid() && readCache == None && order.paths == Layout(bd, enq)
      modifies order
      ensures Valid()
      ensures var e := Enqueue(fs, bd, enq, deps);
        && (r.Success? <==> e.Success?)
        && (r.Failure? ==> r.error == e.error)
        && (r.Success? ==> e.value == enq + r.value && order.paths == Layout(bd, enq + r.value))
    {
      var out: seq<string> := [];
      var j := 0;
      assert deps[..0] == [] && enq + [] == enq;
      while j < |deps|
        invariant 0 <= j <= |deps|
        invariant Enqueue(fs, bd, enq, deps[..j]) == Success(enq + out)
        invariant Valid() && order.paths == Layout(bd, enq + out)
      {
        var added := EnqueueDep(fs, bd, deps, j, enq, out);
        if added.Failure? {
          EnqueueFailureStays(fs, bd, enq, deps, j + 1);
          return Failure(added.error);
        }
        out := if added.value then out + [deps[j]] else out;
        j := j + 1;
      }
      assert deps[..j] == deps;
      return Success(out);
    }

    /** One round of the loop of `from_base_name`: the dependencies of `cur`, the `k`-th
        bundle discovered, are read, and those not yet layers are queued. */
    method Visit(fs: FileSystem, bd: Path, cur: string, ghost enq: seq<string>, ghost k: nat) returns (r: Result<seq<string>>)
      requires Valid() && readCache == None && k < |enq| && enq[k] == cur && NoDup(enq) && order.paths == Layout(bd, enq)
      modifies order
      ensures Valid()
      ensures r.Failure? ==> Bfs(fs, bd, BaseDeps(fs, bd), enq, k) == Failure(r.error)
      ensures r.Success? ==> var next := enq + r.value;
        && NoDup(next) && order.paths == Layout(bd, next)
        && Bfs(fs, bd, BaseDeps(fs, bd), enq, k) == Bfs(fs, bd, BaseDeps(fs, bd), next, k + 1)
        && Measure(fs, bd, next) <= Measure(fs, bd, enq)
        && (r.value != [] ==> Measure(fs, bd, next) < Measure(fs, bd, enq))
    {
      var deps := ReadDepends(fs, bd, cur);
      BfsRound(fs, bd, BaseDeps(fs, bd), enq, k);
      assert BaseDeps(fs, bd)(cur) == deps;
      if deps.Failure? {
        return Failure(deps.error);
      }
      r := EnqueueAll(fs, bd, deps.value, enq);
      if r.Success? {
        EnqueueNoDup(fs, bd, enq, deps.value);
      }
    }

    /** The loop of `from_base_name`: starting from the bundle `name` alone, each pending
        bundle in discovery order has its new dependencies put in front of the path order. */
    static method Discover(fs: FileSystem, bd: Path, name: string) returns (r: Result<ConfigBundle>)
      requires fs.Exists(Join(bd, name))
      ensures var spec := Bfs(fs, bd, BaseDeps(fs, bd), [name], 0);
        && (r.Success? <==> spec.Success?)
        && (r.Failure? ==> r.error == spec.error)
        && (r.Success? ==> fresh(r.value) && fresh(r.value.order) && r.value.Valid())
        && (r.Success? ==> r.value.path == Join(bd, name) && r.value.readCache == None)
        && (r.Success? ==> r.value.order.paths == Layout(bd, spec.value))
    {
      var own := Join(bd, name);
      var bundle := new ConfigBundle(own);
      ghost var depsOf := BaseDeps(fs, bd);
      var pending: seq<string> := [name];
      var known: set<string> := {};
      ghost var enq: seq<string> := [name];
      ghost var k: nat := 0;
      while pending != []
        invariant k <= |enq| && pending == enq[k..] && known == Seen(enq, k)
        invariant NoDup(enq)
        invariant fresh(bundle) && fresh(bundle.order)
        invariant bundle.Valid() && bundle.path == own && bundle.order.paths == Layout(bd, enq) && bundle.readCache == None
        invariant Bfs(fs, bd, depsOf, [name], 0) == Bfs(fs, bd, depsOf, enq, k)
        decreases Measure(fs, bd, enq), |enq| - k
      {
        var cur := pending[0];
        pending := pending[1..];
        assert pending == enq[k + 1..];
        SeenFresh(enq, k);
        if cur in known {
          assert false;
        }
        known := known + {cur};
        var added := bundle.Visit(fs, bd, cur, enq, k);
        if added.Failure? {
          return Failure(added.error);
        }
        ghost var enq0 := enq;
        DropAppend(enq0, added.value, k + 1);
        pending := pending + added.value;
        enq := enq + added.value;
        SeenStep(enq0, enq, k);
        k := k + 1;
        assert pending == enq[k..] && known == Seen(enq, k);
      }
      assert k == |enq|;
      assert Bfs(fs, bd, depsOf, enq, k) == Success(enq);
      return Success(bundle);
    }

    /** The end of `from_base_name`: the bundle is parsed, and its patch order, when it has
        one, is pointed at `patches`; `KeyError` for a missing patch order is ignored. */
    method AttachPatches(fs: FileSystem, patches: Path) returns (r: Outcome)
      requires Valid() && readCache == None
      modifies this
      ensures Valid()
      ensures var spec := ScanBundle(fs, order.paths, patches);
        && (r.Pass? <==> spec.Success?)
        && (r.Fail? ==> r.error == spec.error)
        && (r.Pass? ==> readCache.Some? && Abs(readCache.value) == spec.value)
        && (r.Pass? && PATCH_ORDER_LIST in spec.value ==> readCache.value[PATCH_ORDER_LIST].patchesDir == Some(patches))
    {
      var files := Load(fs);
      if files.Failure? {
        return Fail(files.error);
      }
      if PATCH_ORDER_LIST !in files.value {
        return Pass;
      }
      r := PointPatches(fs, patches);
    }

    /** `set_patches_dir` on the patch order of a parsed bundle. */
    method PointPatches(fs: FileSystem, patches: Path) returns (r: Outcome)
      requires Valid() && readCache.Some? && PATCH_ORDER_LIST in readCache.value
      modifies readCache.value[PATCH_ORDER_LIST]
      ensures Valid()
      ensures Abs(readCache.value) == old(Abs(readCache.value))
      ensures r.Pass? <==> fs.IsDir(patches)
      ensures r.Fail? ==> r.error == NotADirectory(patches)
      ensures r.Pass? ==> readCache.value[PATCH_ORDER_LIST].patchesDir == Some(patches)
    {
      var p := readCache.value[PATCH_ORDER_LIST];
      assert FILE_DEF[PATCH_ORDER_LIST] == Some(p.kind);
      r := p.SetPatchesDir(fs, patches);
    }

    /** `from_base_name`: the bundle of the base bundle `name` under the resources directory,
        with every base bundle it inherits from layered in front of it, and the patch order
        (when there is one) pointed at the shared patches directory. */
    static method FromBaseName(fs: FileSystem, resourcesDir: Path, bundlesDirName: string, name: string) returns (r: Result<ConfigBundle>)
      ensures var spec := FromBaseNameSpec(fs, resourcesDir, bundlesDirName, name);
        && (r.Success? <==> spec.Success?)
        && (r.Failure? ==> r.error == spec.error)
      ensures r.Success? ==>
        var spec := FromBaseNameSpec(fs, resourcesDir, bundlesDirName, name).value;
        && fresh(r.value) && r.value.Valid()
        && r.value.path == Join(Join(resourcesDir, bundlesDirName), name)
        && r.value.order.paths == Layout(Join(resourcesDir, bundlesDirName), spec.0)
        && r.value.readCache.Some? && Abs(r.value.readCache.value) == spec.1
        && (PATCH_ORDER_LIST in spec.1 ==>
              r.value.readCache.value[PATCH_ORDER_LIST].patchesDir == Some(Join(resourcesDir, PATCHES_DIR)))
    {
      var bd := Join(resourcesDir, bundlesDirName);
      var own := Join(bd, name);
      if !fs.Exists(own) {
        return Failure(FileNotFound(own));
      }
      var bundle :- Discover(fs, bd, name);
      var o := bundle.AttachPatches(fs, Join(resourcesDir, PATCHES_DIR));
      if o.Fail? {
        return Failure(o.error);
      }
      return Success(bundle);
    }

    /** `_parse_data`: creates one configuration object per known file name and layers every
        further occurrence of that name after it. */
    method ParseFiles(fs: FileSystem) returns (r: Result<map<string, ConfigFile>>)
      requires Valid()
      ensures r.Success? <==> ScanDirs(fs, order.paths).Success?
      ensures r.Failure? ==> r.error == ScanDirs(fs, order.paths).error
      ensures r.Success? ==> Abs(r.value) == ScanDirs(fs, order.paths).value
      ensures r.Success? ==> forall n :: n in r.value ==> fresh(r.value[n]) && fresh(r.value[n].order)
      ensures r.Success? ==> Separate(r.value) && Healthy(r.value)
    {
      var dirs := order.paths;
      var files: map<string, ConfigFile> := map[];
      var i := 0;
      while i < |dirs|
        invariant 0 <= i <= |dirs|
        invariant forall n :: n in files ==> fresh(files[n]) && fresh(files[n].order)
        invariant Separate(files) && Healthy(files)
        invariant ScanDirs(fs, dirs[..i]) == Success(Abs(files))
      {
        var listing := Listing(fs, dirs[i]);
        ScanDirsStep(fs, dirs, i, Abs(files));
        if listing.Failure? {
          ScanDirsFailureStays(fs, dirs, i + 1);
          return Failure(listing.error);
        }
        var next := ScanDirectory(fs, files, dirs[i], listing.value);
        if next.Failure? {
          ScanDirsFailureStays(fs, dirs, i + 1);
          return Failure(next.error);
        }
        files := next.value;
        i := i + 1;
      }
      assert dirs[..i] == dirs;
      return Success(files);
    }

    /** `_CacheConfigMixin._config_data` for a bundle: the dict is reused while non-empty. */
    method ConfigData(fs: FileSystem) returns (r: Result<map<string, ConfigFile>>)
      requires Valid()
      modifies this
      ensures Valid()
      ensures old(readCache).Some? && |old(readCache).value| > 0 ==>
        r == Success(old(readCache).value) && readCache == old(readCache)
      ensures !(old(readCache).Some? && |old(readCache).value| > 0) ==>
        && (r.Success? <==> ScanDirs(fs, order.paths).Success?)
        && (r.Failure? ==> r.error == ScanDirs(fs, order.paths).error && readCache == old(readCache))
        && (r.Success? ==> readCache == Some(r.value) && Abs(r.value) == ScanDirs(fs, order.paths).value)
        && (r.Success? ==> Separate(r.value) && Healthy(r.value))
        && (r.Success? ==> forall n :: n in r.value ==> fresh(r.value[n]) && fresh(r.value[n].order))
    {
      if readCache.Some? && |readCache.value| > 0 {
        return Success(readCache.value);
      }
      r := Load(fs);
    }

    /** The uncached half of `_config_data`: parse, and keep the result on success. */
    method Load(fs: FileSystem) returns (r: Result<map<string, ConfigFile>>)
      requires Valid()
      modifies this
      ensures Valid()
      ensures r.Success? <==> ScanDirs(fs, order.paths).Success?
      ensures r.Failure? ==> r.error == ScanDirs(fs, order.paths).error && readCache == old(readCache)
      ensures r.Success? ==> readCache == Some(r.value) && Abs(r.value) == ScanDirs(fs, order.paths).value
      ensures r.Success? ==> Separate(r.value) && Healthy(r.value)
      ensures r.Success? ==> forall n :: n in r.value ==> fresh(r.value[n]) && fresh(r.value[n].order)
    {
      r := ParseFiles(fs);
      if r.Success? {
        ParsedUsable(fs, order.paths, r.value);
        readCache := Some(r.value);
        assert Usable(readCache.value);
      }
    }

    /** `__getitem__`: the configuration object of a file name, or a KeyError. */
    method Get(fs: FileSystem, key: string) returns (r: Result<ConfigFile>)
      requires Valid()
      modifies this
      ensures Valid()
      ensures old(readCache).Some? && |old(readCache).value| > 0 ==>
        readCache == old(readCache) &&
        r == if key in readCache.value then Success(readCache.value[key]) else Failure(KeyError(key))
      ensures !(old(readCache).Some? && |old(readCache).value| > 0) ==>
        && (ScanDirs(fs, order.paths).Failure? ==> r == Failure(ScanDirs(fs, order.paths).error))
        && (ScanDirs(fs, order.paths).Success? ==> readCache.Some? && Abs(readCache.value) == ScanDirs(fs, order.paths).value)
        && (ScanDirs(fs, order.paths).Success? && key in ScanDirs(fs, order.paths).value ==> r == Success(readCache.value[key]))
        && (ScanDirs(fs, order.paths).Success? && key !in ScanDirs(fs, order.paths).value ==> r == Failure(KeyError(key)))
      ensures r.Success? ==> r.value.Valid() && key in FILE_DEF && FILE_DEF[key] == Some(r.value.kind)
      ensures r.Success? ==> r.value in old(Cached()) || fresh(r.value)
    {
      var files := ConfigData(fs);
      if files.Failure? {
        return Failure(files.error);
      }
      if key !in files.value {
        return Failure(KeyError(key));
      }
      return Success(files.value[key]);
    }

    /** `__contains__`: whether the bundle has a file of that name. */
    method Contains(fs: FileSystem, item: string) returns (r: Result<bool>)
      requires Valid()
      modifies this
      ensures Valid()
      ensures old(readCache).Some? && |old(readCache).value| > 0 ==>
        readCache == old(readCache) && r == Success(item in readCache.value)
      ensures !(old(readCache).Some? && |old(readCache).value| > 0) ==>
        && (ScanDirs(fs, order.paths).Failure? ==> r == Failure(ScanDirs(fs, order.paths).error))
        && (ScanDirs(fs, order.paths).Success? ==> r == Success(item in ScanDirs(fs, order.paths).value))
    {
      var files := ConfigData(fs);
      if files.Failure? {
        return Failure(files.error);
      }
      return Success(item in files.value);
    }

    /** `get_dependencies`: the names of the base bundles' directories, every layer of the
        path order but the bundle's own, most basic first. */
    function GetDependencies(): (r: seq<string>)
      reads this, order
      ensures |order.paths| > 0 ==> |r| == |order.paths| - 1
      ensures forall i :: 0 <= i < |r| ==> i < |order.paths| && r[i] == Name(order.paths[i])
    {
      DependencyNames(order.paths)
    }
  }
}
