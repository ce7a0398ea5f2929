/** `ListConfigFile`: a newline-delimited list read through all layers of its path order.
    It is not cached: every iteration re-reads the layers. */
module ListFormat {
  import opened Base
  import opened Text

  /** What `_line_generator` yields: the items read so far and, if iteration stopped at a
      layer that could not be opened, that layer's error. */
  datatype Stream = Stream(items: seq<string>, failure: Option<Error>)

  /** One more layer of `_line_generator`: nothing more once a layer failed; otherwise the
      layer's non-empty lines, or its read error. */
  function Advance(s: Stream, t: Result<string>): Stream
  {
    if s.failure.Some? then s
    else if t.Failure? then Stream(s.items, Some(t.error))
    else Stream(s.items + Lines(t.value), None)
  }

  /** Every layer can be opened and read. */
  predicate Readable(fs: FileSystem, paths: seq<Path>)
  {
    forall i :: 0 <= i < |paths| ==> ReadText(fs, paths[i]).Success?
  }

  lemma ReadableSnoc(fs: FileSystem, paths: seq<Path>)
    requires paths != []
    ensures Readable(fs, paths) <==>
      Readable(fs, paths[..|paths| - 1]) && ReadText(fs, paths[|paths| - 1]).Success?
  {
    var front := paths[..|paths| - 1];
    assert forall i :: 0 <= i < |front| ==> front[i] == paths[i];
  }

  /** `_line_generator` over the layers in order: the non-empty lines of each, up to the first
      layer that cannot be read, whose error ends the stream. */
  function LineStream(fs: FileSystem, paths: seq<Path>): (s: Stream)
    ensures forall i :: 0 <= i < |s.items| ==> s.items[i] != ""
    ensures s.failure.None? <==> Readable(fs, paths)
    ensures s.failure.Some? ==> exists i :: 0 <= i < |paths| && ReadText(fs, paths[i]) == Failure(s.failure.value)
  {
    if paths == [] then Stream([], None)
    else
      var front := paths[..|paths| - 1];
      ReadableSnoc(fs, paths);
      assert forall i :: 0 <= i < |front| ==> front[i] == paths[i];
      Advance(LineStream(fs, front), ReadText(fs, paths[|paths| - 1]))
  }

  /** Iterating the whole list (`tuple(self)`, `write`): every item, or the first read error. */
  function ParseList(fs: FileSystem, paths: seq<Path>): (r: Result<seq<string>>)
    ensures r.Success? <==> Readable(fs, paths)
    ensures r.Failure? ==> exists i :: 0 <= i < |paths| && ReadText(fs, paths[i]) == Failure(r.error)
    ensures r.Success? ==> forall i :: 0 <= i < |r.value| ==> r.value[i] != ""
  {
    var s := LineStream(fs, paths);
    if s.failure.Some? then Failure(s.failure.value) else Success(s.items)
  }

  /** `item in self`: the search stops at the first match, so a layer after it is never opened. */
  function ListContains(fs: FileSystem, paths: seq<Path>, item: string): (r: Result<bool>)
    ensures r == Success(true) <==> item in LineStream(fs, paths).items
    ensures r.Failure? <==> item !in LineStream(fs, paths).items && LineStream(fs, paths).failure.Some?
  {
    var s := LineStream(fs, paths);
    if item in s.items then Success(true)
    else if s.failure.Some? then Failure(s.failure.value)
    else Success(false)
  }

  /** Reference merge: the layers' non-empty lines concatenated in layer order. */
  function ConcatLayers(texts: seq<string>): seq<string>
  {
    if texts == [] then [] else ConcatLayers(texts[..|texts| - 1]) + Lines(texts[|texts| - 1])
  }

  /** The list is the concatenation, in layer order, of every layer's non-empty lines:
      nothing is dropped as a duplicate and nothing is reordered. */
  lemma {:induction false} ListMerge(fs: FileSystem, paths: seq<Path>, texts: seq<string>)
    requires |texts| == |paths|
    requires forall i :: 0 <= i < |paths| ==> ReadText(fs, paths[i]) == Success(texts[i])
    ensures ParseList(fs, paths) == Success(ConcatLayers(texts))
  {
    if paths != [] {
      var n := |paths|;
      ListMerge(fs, paths[..n - 1], texts[..n - 1]);
    }
  }

  /** Reading one group of layers after another: the first group's stream if it stopped
      at an error, otherwise the items of both and the second group's outcome. */
  function Chain(s1: Stream, s2: Stream): Stream
  {
    if s1.failure.Some? then s1 else Stream(s1.items + s2.items, s2.failure)
  }

  lemma AdvanceChain(s1: Stream, s2: Stream, t: Result<string>)
    ensures Advance(Chain(s1, s2), t) == Chain(s1, Advance(s2, t))
  {
    if s1.failure.None? && s2.failure.None? && t.Success? {
      assert s1.items + s2.items + Lines(t.value) == s1.items + (s2.items + Lines(t.value));
    }
  }

  /** Reading layers `p1` then `p2` yields `p1`'s items followed by `p2`'s. */
  lemma {:induction false} LineStreamAppend(fs: FileSystem, p1: seq<Path>, p2: seq<Path>)
    ensures LineStream(fs, p1 + p2) == Chain(LineStream(fs, p1), LineStream(fs, p2))
  {
    if p2 == [] {
      assert p1 + p2 == p1;
    } else {
      var n := |p2|;
      var q, last := p2[..n - 1], p2[n - 1];
      var whole := p1 + p2;
      assert whole[..|whole| - 1] == p1 + q;
      assert whole[|whole| - 1] == last;
      LineStreamAppend(fs, p1, q);
      AdvanceChain(LineStream(fs, p1), LineStream(fs, q), ReadText(fs, last));
    }
  }

  /** A list file written by `write` reads back as the same list, when no entry is empty or
      holds a line break. */
  lemma ListRoundTrip(fs: FileSystem, p: Path, items: seq<string>)
    requires forall i :: 0 <= i < |items| ==> items[i] != "" && '\n' !in items[i]
    requires p in fs.entries && fs.entries[p].File? && fs.entries[p].text == WriteLines(items)
    ensures ParseList(fs, [p]) == Success(items)
  {
    assert [p][..0] == [];
    assert LineStream(fs, []) == Stream([], None);
    assert ReadText(fs, p) == Success(WriteLines(items));
    LinesOfWriteLines(items);
    assert [] + items == items;
    assert LineStream(fs, [p]) == Stream([] + Lines(WriteLines(items)), None);
  }

  /** Layers [a, b] then [c] merge to [a, b, c]. */
  lemma ListMergeExample(fs: FileSystem, p1: Path, p2: Path)
    requires p1 in fs.entries && fs.entries[p1].File? && fs.entries[p1].text == "a\nb\n"
    requires p2 in fs.entries && fs.entries[p2].File? && fs.entries[p2].text == "c\n"
    ensures ParseList(fs, [p1, p2]) == Success(["a", "b", "c"])
  {
    var t1, t2 := "a\nb\n", "c\n";
    ExampleLines();
    assert ReadText(fs, p1) == Success(t1) && ReadText(fs, p2) == Success(t2);
    ListMerge(fs, [p1, p2], [t1, t2]);
    ConcatTwoLayers(t1, t2);
    assert ["a", "b"] + ["c"] == ["a", "b", "c"];
  }

  lemma ExampleLines()
    ensures Lines("a\nb\n") == ["a", "b"] && Lines("c\n") == ["c"]
  {
    ExampleTexts();
    LinesOfWriteLines(["a", "b"]);
    LinesOfWriteLines(["c"]);
  }

  lemma ExampleTexts()
    ensures WriteLines(["a", "b"]) == "a\nb\n" && WriteLines(["c"]) == "c\n"
  {
    assert WriteLines(["c"]) == "c" + "\n" + WriteLines([]);
    assert WriteLines(["b"]) == "b" + "\n" + WriteLines([]);
    assert WriteLines(["a", "b"]) == "a" + "\n" + WriteLines(["b"]);
  }

  lemma ConcatTwoLayers(t1: string, t2: string)
    ensures ConcatLayers([t1, t2]) == Lines(t1) + Lines(t2)
  {
    assert [t1, t2][..1] == [t1] && [t1][..0] == [];
    assert ConcatLayers([t1, t2]) == ConcatLayers([t1]) + Lines(t2);
    assert ConcatLayers([t1]) == [] + Lines(t1);
    assert [] + Lines(t1) == Lines(t1);
  }
}
