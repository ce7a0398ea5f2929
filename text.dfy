/** The string operations the configuration parsers use: `str.split` on one character,
    `str.splitlines` (on '\n' only), `filter(len, ...)`, `str.strip` and the writers'
    line joining. */
module Text {

  /** Number of occurrences of `c` in `s`. */
  function Count(s: string, c: char): nat
  {
    if s == [] then 0 else (if s[0] == c then 1 else 0) + Count(s[1..], c)
  }

  /** `s.split(c)`: the pieces between occurrences of `c`, one more than there are `c`s. */
  function Split(s: string, c: char): (parts: seq<string>)
    ensures |parts| == Count(s, c) + 1
    ensures forall i :: 0 <= i < |parts| ==> c !in parts[i]
  {
    if s == [] then [""]
    else
      var rest := Split(s[1..], c);
      if s[0] == c then [""] + rest
      else
        assert forall i :: 1 <= i < |rest| ==> c !in rest[i];
        [[s[0]] + rest[0]] + rest[1..]
  }

  /** `c.join(parts)`. */
  function JoinWith(parts: seq<string>, c: char): string
  {
    if |parts| == 0 then ""
    else if |parts| == 1 then parts[0]
    else parts[0] + [c] + JoinWith(parts[1..], c)
  }

  lemma {:induction false} SplitPrefix(p: string, s: string, c: char)
    requires c !in p
    ensures Split(p + s, c) == [p + Split(s, c)[0]] + Split(s, c)[1..]
  {
    if p != [] {
      assert (p + s)[1..] == p[1..] + s;
      SplitPrefix(p[1..], s, c);
      assert [p[0]] + (p[1..] + Split(s, c)[0]) == p + Split(s, c)[0];
    } else {
      assert p + s == s;
      var parts := Split(s, c);
      assert parts == [parts[0]] + parts[1..];
      assert p + parts[0] == parts[0];
    }
  }

  /** Splitting undoes joining when no part contains the separator. */
  lemma {:induction false} SplitJoin(parts: seq<string>, c: char)
    requires |parts| > 0
    requires forall i :: 0 <= i < |parts| ==> c !in parts[i]
    ensures Split(JoinWith(parts, c), c) == parts
  {
    if |parts| == 1 {
      SplitPrefix(parts[0], "", c);
      assert parts[0] + "" == parts[0];
    } else {
      var tail := JoinWith(parts[1..], c);
      SplitJoin(parts[1..], c);
      assert parts[0] + [c] + tail == parts[0] + ([c] + tail);
      SplitPrefix(parts[0], [c] + tail, c);
      assert ([c] + tail)[1..] == tail;
      assert Split([c] + tail, c) == [""] + parts[1..];
      assert parts[0] + "" == parts[0];
    }
  }

  /** Joining undoes splitting. */
  lemma {:induction false} JoinSplit(s: string, c: char)
    ensures JoinWith(Split(s, c), c) == s
  {
    if s != [] {
      var rest := Split(s[1..], c);
      JoinSplit(s[1..], c);
      if s[0] == c {
        assert ([""] + rest)[1..] == rest;
      } else if |rest| == 1 {
      } else {
        assert ([[s[0]] + rest[0]] + rest[1..])[1..] == rest[1..];
        assert JoinWith(rest, c) == rest[0] + [c] + JoinWith(rest[1..], c);
      }
    }
  }

  /** `s.splitlines()` where '\n' is the only line break: a final '\n' ends the last line
      rather than starting an empty one. */
  function SplitLines(s: string): (lines: seq<string>)
    ensures forall i :: 0 <= i < |lines| ==> '\n' !in lines[i]
  {
    if s == "" then []
    else
      var parts := Split(s, '\n');
      if parts[|parts| - 1] == "" then parts[..|parts| - 1] else parts
  }

  /** `filter(len, lines)`. */
  function NonEmpty(lines: seq<string>): (r: seq<string>)
    ensures forall i :: 0 <= i < |r| ==> r[i] != "" && r[i] in lines
  {
    if lines == [] then []
    else (if lines[0] == "" then [] else [lines[0]]) + NonEmpty(lines[1..])
  }

  lemma {:induction false} NonEmptyOfNonEmpty(lines: seq<string>)
    requires forall i :: 0 <= i < |lines| ==> lines[i] != ""
    ensures NonEmpty(lines) == lines
  {
    if lines != [] {
      NonEmptyOfNonEmpty(lines[1..]);
    }
  }

  /** The non-empty lines of a file's text, the unit every list and mapping layer is read in. */
  function Lines(text: string): (r: seq<string>)
    ensures forall i :: 0 <= i < |r| ==> r[i] != "" && '\n' !in r[i]
  {
    NonEmpty(SplitLines(text))
  }

  /** `writelines('%s\n' % x for x in items)`: every item is followed by a line break, so
      the text is empty exactly when there are no items and otherwise ends a line. */
  function WriteLines(items: seq<string>): (r: string)
    ensures items == [] <==> r == ""
    ensures items != [] ==> r[|r| - 1] == '\n'
  {
    if items == [] then "" else items[0] + "\n" + WriteLines(items[1..])
  }

  lemma {:induction false} WriteLinesIsJoin(items: seq<string>)
    ensures WriteLines(items) == JoinWith(items + [""], '\n')
  {
    if items != [] {
      WriteLinesIsJoin(items[1..]);
      assert (items + [""])[1..] == items[1..] + [""];
      assert items[0] + "\n" + WriteLines(items[1..]) == items[0] + ['\n'] + WriteLines(items[1..]);
    }
  }

  /** Write-then-read of a list file gives back the items when none is empty or holds a line break. */
  lemma LinesOfWriteLines(items: seq<string>)
    requires forall i :: 0 <= i < |items| ==> items[i] != "" && '\n' !in items[i]
    ensures Lines(WriteLines(items)) == items
  {
    if items == [] {
    } else {
      WriteLinesIsJoin(items);
      var parts := items + [""];
      assert forall i :: 0 <= i < |parts| ==> '\n' !in parts[i];
      SplitJoin(parts, '\n');
      assert WriteLines(items) != "" by {
        assert WriteLines(items) == items[0] + "\n" + WriteLines(items[1..]);
      }
      assert parts[..|parts| - 1] == items;
      assert SplitLines(WriteLines(items)) == items;
      NonEmptyOfNonEmpty(items);
    }
  }

  /** The characters Python's `str.isspace` accepts. */
  predicate IsSpace(ch: char)
  {
    || ('\U{9}' <= ch <= '\U{D}') || ('\U{1C}' <= ch <= '\U{20}')
    || ch == '\U{85}' || ch == '\U{A0}' || ch == '\U{1680}' || ('\U{2000}' <= ch <= '\U{200A}')
    || ch == '\U{2028}' || ch == '\U{2029}' || ch == '\U{202F}' || ch == '\U{205F}' || ch == '\U{3000}'
  }

  /** Index of the first non-space character (|s| when there is none). */
  function StripStart(s: string): (i: nat)
    ensures i <= |s|
    ensures forall k :: 0 <= k < i ==> IsSpace(s[k])
    ensures i < |s| ==> !IsSpace(s[i])
  {
    if s == [] || !IsSpace(s[0]) then 0 else 1 + StripStart(s[1..])
  }

  /** One past the last non-space character (0 when there is none). */
  function StripEnd(s: string): (j: nat)
    ensures j <= |s|
    ensures forall k :: j <= k < |s| ==> IsSpace(s[k])
    ensures j > 0 ==> !IsSpace(s[j - 1])
  {
    if s == [] || !IsSpace(s[|s| - 1]) then |s| else StripEnd(s[..|s| - 1])
  }

  /** `s.strip()`: `s` without its leading and trailing whitespace. */
  function Strip(s: string): (r: string)
    ensures r == "" || (!IsSpace(r[0]) && !IsSpace(r[|r| - 1]))
    ensures r == "" <==> forall k :: 0 <= k < |s| ==> IsSpace(s[k])
    ensures r != "" ==> r == s[StripStart(s)..StripEnd(s)]
  {
    var i, j := StripStart(s), StripEnd(s);
    if i == |s| then "" else s[i..j]
  }

  /** A string with no whitespace at either end is its own stripped form. */
  lemma StripOfStripped(s: string)
    requires s == "" || (!IsSpace(s[0]) && !IsSpace(s[|s| - 1]))
    ensures Strip(s) == s
  {
  }

  /** Stripping twice is stripping once. */
  lemma StripIdempotent(s: string)
    ensures Strip(Strip(s)) == Strip(s)
  {
    StripOfStripped(Strip(s));
  }
}
