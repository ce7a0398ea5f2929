/** `MappingConfigFile`: `key=value` lines merged through all layers, later layers overriding
    earlier ones key by key. */
module MappingFormat {
  import opened Base
  import opened Text
  import opened Layers

  /** A Python dict of strings: its keys in insertion order and their values. */
  datatype Dict = Dict(keys: seq<string>, values: map<string, string>)
  {
    predicate Valid()
    {
      NoDup(keys) && (forall k :: k in values ==> k in keys) && (forall k :: k in keys ==> k in values)
    }

    /** `d[k] = v`: a new key goes to the end, a known key keeps its place. */
    function Put(k: string, v: string): (d: Dict)
      ensures d.values == values[k := v]
      ensures k in values ==> d.keys == keys
      ensures k !in values ==> d.keys == keys + [k]
      ensures Valid() ==> d.Valid()
    {
      if k in values then Dict(keys, values[k := v]) else Dict(keys + [k], values[k := v])
    }
  }

  const EmptyDict: Dict := Dict([], map[])

  /** `a, b = line.split(sep)`: the line needs exactly one `sep` (`'='` in a mapping, `'#'` in a
      domain regex list). */
  function SplitPair(line: string, sep: char): (r: Result<(string, string)>)
    ensures r.Success? <==> Count(line, sep) == 1
    ensures r.Failure? ==> r.error == UnpackError(line)
    ensures r.Success? ==> line == r.value.0 + [sep] + r.value.1
  {
    var parts := Split(line, sep);
    JoinSplit(line, sep);
    if |parts| != 2 then Failure(UnpackError(line))
    else
      assert JoinWith(parts, sep) == parts[0] + [sep] + JoinWith(parts[1..], sep);
      Success((parts[0], parts[1]))
  }

  /** The lines of one layer stored into `d`, in order. */
  function PutLines(d: Dict, lines: seq<string>): Result<Dict>
  {
    if lines == [] then Success(d)
    else match PutLines(d, lines[..|lines| - 1])
      case Failure(e) => Failure(e)
      case Success(d') =>
        match SplitPair(lines[|lines| - 1], '=')
        case Failure(e) => Failure(e)
        case Success((k, v)) => Success(d'.Put(k, v))
  }

  /** The layers in path order stored into one dict, starting empty (`_parse_data`). */
  function MappingOf(fs: FileSystem, paths: seq<Path>): Result<Dict>
  {
    if paths == [] then Success(EmptyDict)
    else match MappingOf(fs, paths[..|paths| - 1])
      case Failure(e) => Failure(e)
      case Success(d) =>
        match ReadText(fs, paths[|paths| - 1])
        case Failure(e) => Failure(e)
        case Success(text) => PutLines(d, Lines(text))
  }

  /** Storing lines keeps a dict well formed: each key once, and with a value. */
  lemma {:induction false} PutLinesValid(d: Dict, lines: seq<string>)
    requires d.Valid() && PutLines(d, lines).Success?
    ensures PutLines(d, lines).value.Valid()
  {
    if lines != [] {
      PutLinesValid(d, lines[..|lines| - 1]);
    }
  }

  /** A parsed mapping is a well-formed dict, so it can be written back. */
  lemma {:induction false} MappingOfValid(fs: FileSystem, paths: seq<Path>)
    requires MappingOf(fs, paths).Success?
    ensures MappingOf(fs, paths).value.Valid()
  {
    if paths != [] {
      var front := paths[..|paths| - 1];
      MappingOfValid(fs, front);
      PutLinesValid(MappingOf(fs, front).value, Lines(ReadText(fs, paths[|paths| - 1]).value));
    }
  }

  /** The values one layer defines on its own. */
  function LayerValues(fs: FileSystem, p: Path): Result<map<string, string>>
  {
    match ReadText(fs, p)
    case Failure(e) => Failure(e)
    case Success(text) =>
      match PutLines(EmptyDict, Lines(text))
      case Failure(e) => Failure(e)
      case Success(d) => Success(d.values)
  }

  lemma {:induction false} PutLinesFailureStays(d: Dict, lines: seq<string>, j: nat)
    requires j <= |lines| && PutLines(d, lines[..j]).Failure?
    ensures PutLines(d, lines) == PutLines(d, lines[..j])
  {
    if j < |lines| {
      assert lines[..|lines| - 1][..j] == lines[..j];
      PutLinesFailureStays(d, lines[..|lines| - 1], j);
    } else {
      assert lines[..j] == lines;
    }
  }

  lemma {:induction false} MappingOfFailureStays(fs: FileSystem, paths: seq<Path>, i: nat)
    requires i <= |paths| && MappingOf(fs, paths[..i]).Failure?
    ensures MappingOf(fs, paths) == MappingOf(fs, paths[..i])
  {
    if i < |paths| {
      assert paths[..|paths| - 1][..i] == paths[..i];
      MappingOfFailureStays(fs, paths[..|paths| - 1], i);
    } else {
      assert paths[..i] == paths;
    }
  }

  lemma PutLinesStep(d: Dict, lines: seq<string>, j: nat, d': Dict)
    requires j < |lines| && PutLines(d, lines[..j]) == Success(d')
    ensures SplitPair(lines[j], '=').Failure? ==> PutLines(d, lines[..j + 1]) == Failure(SplitPair(lines[j], '=').error)
    ensures SplitPair(lines[j], '=').Success? ==>
      PutLines(d, lines[..j + 1]) == Success(d'.Put(SplitPair(lines[j], '=').value.0, SplitPair(lines[j], '=').value.1))
  {
    var upto := lines[..j + 1];
    assert upto[..|upto| - 1] == lines[..j] && upto[|upto| - 1] == lines[j];
  }

  lemma MappingOfStep(fs: FileSystem, paths: seq<Path>, i: nat, d: Dict)
    requires i < |paths| && MappingOf(fs, paths[..i]) == Success(d)
    ensures ReadText(fs, paths[i]).Failure? ==> MappingOf(fs, paths[..i + 1]) == Failure(ReadText(fs, paths[i]).error)
    ensures ReadText(fs, paths[i]).Success? ==>
      MappingOf(fs, paths[..i + 1]) == PutLines(d, Lines(ReadText(fs, paths[i]).value))
  {
    var upto := paths[..i + 1];
    assert upto[..|upto| - 1] == paths[..i] && upto[|upto| - 1] == paths[i];
  }

  /** `MappingConfigFile._parse_data`: the loops that fill `new_dict`. */
  method ParseMapping(fs: FileSystem, paths: seq<Path>) returns (r: Result<Dict>)
    ensures r == MappingOf(fs, paths)
  {
    var newDict := EmptyDict;
    var i := 0;
    while i < |paths|
      invariant 0 <= i <= |paths|
      invariant MappingOf(fs, paths[..i]) == Success(newDict)
    {
      MappingOfStep(fs, paths, i, newDict);
      var read := ReadText(fs, paths[i]);
      if read.Failure? {
        MappingOfFailureStays(fs, paths, i + 1);
        return Failure(read.error);
      }
      var put := ParseLines(newDict, Lines(read.value));
      if put.Failure? {
        MappingOfFailureStays(fs, paths, i + 1);
        return Failure(put.error);
      }
      newDict := put.value;
      i := i + 1;
    }
    assert paths[..i] == paths;
    return Success(newDict);
  }

  /** The inner loop of `ParseMapping`: one `key=value` line at a time into `d`. */
  method ParseLines(d: Dict, lines: seq<string>) returns (r: Result<Dict>)
    ensures r == PutLines(d, lines)
  {
    var newDict := d;
    var j := 0;
    while j < |lines|
      invariant 0 <= j <= |lines|
      invariant PutLines(d, lines[..j]) == Success(newDict)
    {
      PutLinesStep(d, lines, j, newDict);
      var parts := Split(lines[j], '=');
      if |parts| != 2 {
        assert SplitPair(lines[j], '=').Failure?;
        PutLinesFailureStays(d, lines, j + 1);
        return Failure(UnpackError(lines[j]));
      }
      newDict := newDict.Put(parts[0], parts[1]);
      j := j + 1;
    }
    assert lines[..j] == lines;
    return Success(newDict);
  }

  /** Storing lines into `d` gives `d`'s values overridden by those the lines define alone. */
  lemma {:induction false} PutLinesValues(d: Dict, lines: seq<string>)
    requires PutLines(d, lines).Success?
    ensures PutLines(EmptyDict, lines).Success?
    ensures PutLines(d, lines).value.values == d.values + PutLines(EmptyDict, lines).value.values
  {
    if lines != [] {
      var front := lines[..|lines| - 1];
      var pair := PutLinesLast(d, lines);
      PutLinesValues(d, front);
      var pair' := PutLinesLast(EmptyDict, lines);
      var mine := PutLines(EmptyDict, front).value.values;
      UnionUpdate(d.values, mine, pair.0, pair.1);
    }
  }

  lemma UnionUpdate(a: map<string, string>, b: map<string, string>, k: string, v: string)
    ensures (a + b)[k := v] == a + b[k := v]
  {
  }

  /** A successful `PutLines` is the one before its last line, then that line's pair stored. */
  lemma PutLinesLast(d: Dict, lines: seq<string>) returns (pair: (string, string))
    requires lines != [] && PutLines(d, lines).Success?
    ensures PutLines(d, lines[..|lines| - 1]).Success?
    ensures SplitPair(lines[|lines| - 1], '=') == Success(pair)
    ensures PutLines(d, lines).value.values == PutLines(d, lines[..|lines| - 1]).value.values[pair.0 := pair.1]
  {
    pair := SplitPair(lines[|lines| - 1], '=').value;
  }

  /** A layer's lines fail to parse exactly when one of them does not hold exactly one '='. */
  lemma {:induction false} PutLinesFailure(d: Dict, lines: seq<string>)
    ensures PutLines(d, lines).Failure? <==> exists i :: 0 <= i < |lines| && Count(lines[i], '=') != 1
  {
    if lines != [] {
      var n := |lines|;
      PutLinesFailure(d, lines[..n - 1]);
      if PutLines(d, lines[..n - 1]).Failure? {
        var i :| 0 <= i < n - 1 && Count(lines[..n - 1][i], '=') != 1;
        assert Count(lines[i], '=') != 1;
      } else {
        forall i | 0 <= i < n - 1
          ensures Count(lines[i], '=') == 1
        {
          assert lines[i] == lines[..n - 1][i];
        }
      }
    }
  }

  /** No layer after the `i`-th one that parses defines `k`. */
  predicate ShadowsNone(fs: FileSystem, paths: seq<Path>, i: nat, k: string)
  {
    forall j :: i < j < |paths| && LayerValues(fs, paths[j]).Success? ==> k !in LayerValues(fs, paths[j]).value
  }

  lemma ShadowsNoneFront(fs: FileSystem, paths: seq<Path>, i: nat, k: string)
    requires i < |paths| - 1 && ShadowsNone(fs, paths, i, k)
    ensures ShadowsNone(fs, paths[..|paths| - 1], i, k)
    ensures LayerValues(fs, paths[|paths| - 1]).Success? ==> k !in LayerValues(fs, paths[|paths| - 1]).value
  {
    var front := paths[..|paths| - 1];
    forall j | i < j < |front| && LayerValues(fs, front[j]).Success?
      ensures k !in LayerValues(fs, front[j]).value
    {
      assert front[j] == paths[j];
    }
  }

  /** Last layer wins: a key takes its value from the latest layer in path order that defines it. */
  lemma {:induction false} MappingLastWins(fs: FileSystem, paths: seq<Path>, i: nat, k: string)
    requires MappingOf(fs, paths).Success?
    requires i < |paths| && LayerValues(fs, paths[i]).Success? && k in LayerValues(fs, paths[i]).value
    requires ShadowsNone(fs, paths, i, k)
    ensures k in MappingOf(fs, paths).value.values
    ensures MappingOf(fs, paths).value.values[k] == LayerValues(fs, paths[i]).value[k]
  {
    var front := paths[..|paths| - 1];
    var own := MappingOfLast(fs, paths);
    if i < |paths| - 1 {
      ShadowsNoneFront(fs, paths, i, k);
      assert front[i] == paths[i];
      MappingLastWins(fs, front, i, k);
    }
  }

  /** The last layer of a parsed mapping overrides the layers before it with its own values. */
  lemma MappingOfLast(fs: FileSystem, paths: seq<Path>) returns (own: map<string, string>)
    requires |paths| > 0 && MappingOf(fs, paths).Success?
    ensures MappingOf(fs, paths[..|paths| - 1]).Success?
    ensures LayerValues(fs, paths[|paths| - 1]) == Success(own)
    ensures MappingOf(fs, paths).value.values == MappingOf(fs, paths[..|paths| - 1]).value.values + own
  {
    var prev := MappingOf(fs, paths[..|paths| - 1]).value;
    var lines := Lines(ReadText(fs, paths[|paths| - 1]).value);
    assert MappingOf(fs, paths) == PutLines(prev, lines);
    PutLinesValues(prev, lines);
    own := PutLines(EmptyDict, lines).value.values;
  }

  /** `'%s=%s\n' % item` for each item, in insertion order. */
  function ItemLines(d: Dict): (lines: seq<string>)
    requires d.Valid()
    ensures |lines| == |d.keys|
  {
    seq(|d.keys|, i requires 0 <= i < |d.keys| => d.keys[i] + "=" + d.values[d.keys[i]])
  }

  /** `MappingConfigFile.write`'s text. */
  function WriteMapping(d: Dict): (r: string)
    requires d.Valid()
    ensures d.keys == [] <==> r == ""
    ensures d.keys != [] ==> r[|r| - 1] == '\n'
  {
    WriteLines(ItemLines(d))
  }

  predicate Writable(s: string)
  {
    '=' !in s && '\n' !in s
  }

  /** `d` restricted to its first `n` keys. */
  function Prefix(d: Dict, n: nat): Dict
    requires d.Valid() && n <= |d.keys|
  {
    Dict(d.keys[..n], map k | k in d.keys[..n] :: d.values[k])
  }

  lemma SplitPairOfItem(k: string, v: string, sep: char)
    requires sep !in k && sep !in v
    ensures SplitPair(k + [sep] + v, sep) == Success((k, v))
  {
    assert JoinWith([k, v], sep) == k + [sep] + v by {
      assert [k, v][1..] == [v];
    }
    SplitJoin([k, v], sep);
  }

  lemma PrefixPut(d: Dict, n: nat)
    requires d.Valid() && 0 < n <= |d.keys|
    ensures Prefix(d, n - 1).Put(d.keys[n - 1], d.values[d.keys[n - 1]]) == Prefix(d, n)
  {
    var k := d.keys[n - 1];
    var before := Prefix(d, n - 1);
    assert k !in before.values;
    assert d.keys[..n] == d.keys[..n - 1] + [k];
  }

  lemma {:induction false} PutItemLines(d: Dict, n: nat)
    requires d.Valid() && n <= |d.keys|
    requires forall k :: k in d.values ==> Writable(k) && Writable(d.values[k])
    ensures PutLines(EmptyDict, ItemLines(d)[..n]) == Success(Prefix(d, n))
  {
    var lines := ItemLines(d);
    if n == 0 {
      assert lines[..0] == [];
      assert Prefix(d, 0) == EmptyDict;
    } else {
      PutItemLines(d, n - 1);
      var k := d.keys[n - 1];
      var v := d.values[k];
      assert lines[n - 1] == k + "=" + v;
      SplitPairOfItem(k, v, '=');
      PutLinesStep(EmptyDict, lines, n - 1, Prefix(d, n - 1));
      PrefixPut(d, n);
    }
  }

  /** Write-then-read of a mapping file gives back the same dict, keys in the same order, when
      no key or value holds '=' or a line break. */
  lemma MappingRoundTrip(d: Dict)
    requires d.Valid()
    requires forall k :: k in d.values ==> Writable(k) && Writable(d.values[k])
    ensures PutLines(EmptyDict, Lines(WriteMapping(d))) == Success(d)
  {
    var lines := ItemLines(d);
    ItemLinesSplittable(d);
    LinesOfWriteLines(lines);
    PutItemLines(d, |d.keys|);
    assert lines[..|d.keys|] == lines;
    PrefixWhole(d);
  }

  /** Every item line written is non-empty and holds no line break. */
  lemma ItemLinesSplittable(d: Dict)
    requires d.Valid()
    requires forall k :: k in d.values ==> Writable(k) && Writable(d.values[k])
    ensures forall i :: 0 <= i < |ItemLines(d)| ==> ItemLines(d)[i] != "" && '\n' !in ItemLines(d)[i]
  {
    var lines := ItemLines(d);
    forall i | 0 <= i < |lines|
      ensures lines[i] != "" && '\n' !in lines[i]
    {
      var k := d.keys[i];
      assert lines[i] == k + "=" + d.values[k];
      assert lines[i][|k|] == '=';
    }
  }

  lemma PrefixWhole(d: Dict)
    requires d.Valid()
    ensures Prefix(d, |d.keys|) == d
  {
    assert d.keys[..|d.keys|] == d.keys;
  }
}
