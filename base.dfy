/** Paths, the abstract filesystem the configuration code reads, and the error results
    that stand for the exceptions it raises. */
module Base {

  datatype Option<+T> = None | Some(value: T)

  /** A filesystem path as its sequence of components (a pathlib.Path). */
  type Path = seq<string>

  /** An INI file after configparser has read it: section name -> option name -> value. */
  type Section = map<string, string>
  type Ini = map<string, Section>

  /** `p / c` in pathlib: joining the empty string leaves the path as it is. */
  function Join(p: Path, c: string): (r: Path)
    ensures c == "" ==> r == p
    ensures c != "" ==> |r| == |p| + 1 && r[..|p|] == p && r[|p|] == c
  {
    if c == "" then p else p + [c]
  }

  /** `path.name`: the last component, or "" for the empty path. */
  function Name(p: Path): string
  {
    if p == [] then "" else p[|p| - 1]
  }

  /** `path.parent`: the path without its last component (the empty path is its own parent). */
  function Parent(p: Path): Path
  {
    if p == [] then [] else p[..|p| - 1]
  }

  lemma NameParentOfJoin(p: Path, c: string)
    requires c != ""
    ensures Name(Join(p, c)) == c && Parent(Join(p, c)) == p
  {
  }

  /** What one path of the filesystem holds: a directory with the names it lists, or a file
      with its text and, when configparser accepts that text, the INI it parses to. */
  datatype Entry = Dir(names: seq<string>) | File(text: string, ini: Option<Ini>)

  datatype FileSystem = FileSystem(entries: map<Path, Entry>)
  {
    predicate Exists(p: Path) { p in entries }
    predicate IsDir(p: Path) { p in entries && entries[p].Dir? }
    function Paths(): set<Path> { entries.Keys }
  }

  /** The exceptions of the configuration code. */
  datatype Error =
    | FileNotFound(path: Path)           // FileNotFoundError
    | IsADirectory(path: Path)           // IsADirectoryError, opening a directory as a file
    | NotADirectory(path: Path)          // NotADirectoryError
    | IniParseError(path: Path)          // configparser refusing a file's text
    | SchemaError(paths: seq<Path>)      // schema.SchemaError on merged INI layers
    | UnknownFiles(directory: Path)      // ValueError('Unknown files in config bundle: ...')
    | UnpackError(line: string)          // ValueError from unpacking a split into two names
    | KeyError(key: string)              // KeyError

  datatype Result<+T> = Success(value: T) | Failure(error: Error)
  {
    predicate IsFailure() { Failure? }
    function PropagateFailure<U>(): Result<U>
      requires Failure?
    {
      Failure(error)
    }
    function Extract(): T
      requires Success?
    {
      value
    }
  }

  datatype Outcome = Pass | Fail(error: Error)

  /** `path.open().read()`. */
  function ReadText(fs: FileSystem, p: Path): (r: Result<string>)
    ensures r.Success? <==> fs.Exists(p) && fs.entries[p].File?
    ensures r.Success? ==> r.value == fs.entries[p].text
    ensures !fs.Exists(p) ==> r == Failure(FileNotFound(p))
  {
    if p !in fs.entries then Failure(FileNotFound(p))
    else match fs.entries[p]
      case Dir(_) => Failure(IsADirectory(p))
      case File(text, _) => Success(text)
  }

  /** `parser.read_file(path.open())` for one layer. */
  function ReadIni(fs: FileSystem, p: Path): (r: Result<Ini>)
    ensures r.Success? <==> fs.Exists(p) && fs.entries[p].File? && fs.entries[p].ini.Some?
    ensures r.Success? ==> r.value == fs.entries[p].ini.value
    ensures !fs.Exists(p) ==> r == Failure(FileNotFound(p))
  {
    if p !in fs.entries then Failure(FileNotFound(p))
    else match fs.entries[p]
      case Dir(_) => Failure(IsADirectory(p))
      case File(_, None) => Failure(IniParseError(p))
      case File(_, Some(ini)) => Success(ini)
  }

  /** The names `directory.iterdir()` yields. */
  function Listing(fs: FileSystem, d: Path): (r: Result<seq<string>>)
    ensures r.Success? <==> fs.IsDir(d)
    ensures r.Success? ==> r.value == fs.entries[d].names
    ensures !fs.Exists(d) ==> r == Failure(FileNotFound(d))
  {
    if d !in fs.entries then Failure(FileNotFound(d))
    else match fs.entries[d]
      case Dir(names) => Success(names)
      case File(_, _) => Failure(NotADirectory(d))
  }
}
