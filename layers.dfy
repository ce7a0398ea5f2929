/** The layered path list every configuration object owns (`_ConfigABC._path_order`): an
    ordered deque of paths without duplicates, grown at either end. */
module Layers {
  import opened Base

  predicate NoDup<T(==)>(s: seq<T>)
  {
    forall i, j :: 0 <= i < j < |s| ==> s[i] != s[j]
  }

  /** `_check_path_add` followed by `appendleft` (first) or `append` (last): a known path is
      refused without looking at the filesystem, an unknown one must exist. The result is
      whether the path was added, and the new order. */
  function AddPath(fs: FileSystem, paths: seq<Path>, p: Path, first: bool): (r: Result<(bool, seq<Path>)>)
    ensures p in paths ==> r == Success((false, paths))
    ensures p !in paths && !fs.Exists(p) ==> r == Failure(FileNotFound(p))
    ensures p !in paths && fs.Exists(p) ==> r == Success((true, if first then [p] + paths else paths + [p]))
    ensures r.Success? && r.value.0 ==> p !in paths && fs.Exists(p)
    ensures r.Success? && r.value.0 ==> r.value.1 == if first then [p] + paths else paths + [p]
  {
    if p in paths then Success((false, paths))
    else if !fs.Exists(p) then Failure(FileNotFound(p))
    else Success((true, if first then [p] + paths else paths + [p]))
  }

  /** A path is added only when it is absent, so the layers stay free of repeats. */
  lemma AddPathNoDup(fs: FileSystem, paths: seq<Path>, p: Path, first: bool)
    requires NoDup(paths) && AddPath(fs, paths, p, first).Success?
    ensures NoDup(AddPath(fs, paths, p, first).value.1)
  {
  }

  /** Adding a path that was just added changes nothing, even after it stops existing. */
  lemma AddPathIdempotent(fs: FileSystem, fs': FileSystem, paths: seq<Path>, p: Path, first: bool, first': bool)
    requires AddPath(fs, paths, p, first).Success?
    ensures AddPath(fs', AddPath(fs, paths, p, first).value.1, p, first') ==
            Success((false, AddPath(fs, paths, p, first).value.1))
  {
  }

  class LayeredPaths {
    var paths: seq<Path>

    ghost predicate Valid()
      reads this
    {
      NoDup(paths)
    }

    /** `collections.deque()` seeded with the owner's own path. */
    constructor (p: Path)
      ensures Valid() && paths == [p]
    {
      paths := [p];
    }

    /** `update_first_path`. */
    method UpdateFirstPath(fs: FileSystem, p: Path) returns (r: Result<bool>)
      requires Valid()
      modifies this
      ensures Valid() && (paths == old(paths) || paths == [p] + old(paths))
      ensures r.Success? ==> AddPath(fs, old(paths), p, true) == Success((r.value, paths))
      ensures r.Failure? ==> AddPath(fs, old(paths), p, true) == Failure(r.error) && paths == old(paths)
    {
      if p in paths {
        return Success(false);
      }
      if !fs.Exists(p) {
        return Failure(FileNotFound(p));
      }
      paths := [p] + paths;
      return Success(true);
    }

    /** `update_last_path`. */
    method UpdateLastPath(fs: FileSystem, p: Path) returns (r: Result<bool>)
      requires Valid()
      modifies this
      ensures Valid()
      ensures r.Success? ==> AddPath(fs, old(paths), p, false) == Success((r.value, paths))
      ensures r.Failure? ==> AddPath(fs, old(paths), p, false) == Failure(r.error) && paths == old(paths)
    {
      if p in paths {
        return Success(false);
      }
      if !fs.Exists(p) {
        return Failure(FileNotFound(p));
      }
      paths := paths + [p];
      return Success(true);
    }
  }
}
