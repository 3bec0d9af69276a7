/**
 * The line splitting of `BufRead::lines` that `read_table` relies on: the text is cut after
 * every '\n'; each line loses its '\n' and a '\r' directly before it; a last line that has
 * no '\n' is kept as it is, and text that ends in '\n' has no empty line after it.
 */
module Lines {

  /** The position of the first '\n' in `s`, or `|s|` when there is none. */
  function NewlineIndex(s: string): (i: nat)
    ensures i <= |s|
    ensures forall j :: 0 <= j < i ==> s[j] != '\n'
    ensures i < |s| ==> s[i] == '\n'
  {
    if s == [] || s[0] == '\n' then 0 else 1 + NewlineIndex(s[1..])
  }

  predicate EndsWithCarriageReturn(line: string)
  {
    |line| > 0 && line[|line| - 1] == '\r'
  }

  /** A line read up to its '\n', with a '\r' that stood just before the '\n' removed. */
  function TrimCarriageReturn(line: string): (trimmed: string)
    ensures trimmed <= line && |line| <= |trimmed| + 1
    ensures |trimmed| < |line| <==> EndsWithCarriageReturn(line)
    ensures '\n' !in line ==> '\n' !in trimmed
  {
    if EndsWithCarriageReturn(line) then line[..|line| - 1] else line
  }

  /** The lines of `text`, as `BufRead::lines` yields them. */
  function Lines(text: string): (ls: seq<string>)
    ensures forall k :: 0 <= k < |ls| ==> '\n' !in ls[k]
    ensures |ls| <= |text|
    decreases |text|
  {
    if text == [] then []
    else
      var i := NewlineIndex(text);
      if i == |text| then [text]
      else [TrimCarriageReturn(text[..i])] + Lines(text[i + 1..])
  }

  /** `collect()` of a sequence of strings into one `String`: concatenation, no separator. */
  function Concat(ls: seq<string>): (text: string)
    ensures ls != [] ==> ls[0] <= text && text[|ls[0]|..] == Concat(ls[1..])
    ensures '\n' in text <==> exists k :: 0 <= k < |ls| && '\n' in ls[k]
  {
    if ls == [] then [] else ls[0] + Concat(ls[1..])
  }

  /**
   * Reference definition, character by character: every '\n' is dropped, and so is every
   * '\r' that stands directly before a '\n'; everything else is kept in order.
   */
  function StripTerminators(text: string): (r: string)
    ensures '\n' !in r
    ensures |r| <= |text|
    ensures '\n' !in text ==> r == text
  {
    if text == [] then []
    else if text[0] == '\n' then StripTerminators(text[1..])
    else if text[0] == '\r' && |text| > 1 && text[1] == '\n' then StripTerminators(text[2..])
    else [text[0]] + StripTerminators(text[1..])
  }

  /** Trimming a line with a first character in front, when that does not make a lone '\r'. */
  lemma TrimAfterFirst(c: char, tail: string)
    requires tail != [] || c != '\r'
    ensures TrimCarriageReturn([c] + tail) == [c] + TrimCarriageReturn(tail)
  {
  }

  /** A character that is neither a '\n' nor a '\r' before one is kept. */
  lemma StripKeeps(c: char, s: string)
    requires c != '\n' && !(c == '\r' && |s| > 0 && s[0] == '\n')
    ensures StripTerminators([c] + s) == [c] + StripTerminators(s)
  {
  }

  /** What one line contributes: stripping a line and its '\n' leaves the trimmed line. */
  lemma {:induction false} StripLine(line: string, rest: string)
    requires '\n' !in line
    ensures StripTerminators(line + ['\n'] + rest) == TrimCarriageReturn(line) + StripTerminators(rest)
  {
    if line == [] {
      assert (line + ['\n'] + rest)[1..] == rest;
    } else if line == ['\r'] {
      assert (line + ['\n'] + rest)[2..] == rest;
    } else {
      var c, tail := line[0], line[1..];
      var after := tail + ['\n'] + rest;
      assert line == [c] + tail;
      assert '\n' !in tail;
      assert line + ['\n'] + rest == [c] + after;
      assert tail != [] ==> after[0] == tail[0];
      calc {
        StripTerminators([c] + after);
        { StripKeeps(c, after); }
        [c] + StripTerminators(after);
        { StripLine(tail, rest); }
        [c] + (TrimCarriageReturn(tail) + StripTerminators(rest));
        ([c] + TrimCarriageReturn(tail)) + StripTerminators(rest);
        { TrimAfterFirst(c, tail); }
        TrimCarriageReturn(line) + StripTerminators(rest);
      }
    }
  }

  /** `read_table`'s iterator chain computes exactly the reference definition. */
  lemma {:induction false} ConcatLines(text: string)
    ensures Concat(Lines(text)) == StripTerminators(text)
    decreases |text|
  {
    if text != [] {
      var i := NewlineIndex(text);
      if i == |text| {
        assert '\n' !in text by {
          forall j | 0 <= j < |text| ensures text[j] != '\n' { }
        }
        assert Concat([text]) == text + Concat([]);
      } else {
        var line, rest := text[..i], text[i + 1..];
        assert text == line + ['\n'] + rest;
        assert '\n' !in line by {
          forall j | 0 <= j < |line| ensures line[j] != '\n' { assert line[j] == text[j]; }
        }
        StripLine(line, rest);
        ConcatLines(rest);
        var ls := Lines(text);
        assert ls == [TrimCarriageReturn(line)] + Lines(rest);
        assert ls[1..] == Lines(rest);
      }
    }
  }

  /** The inverse direction: terminating each line with '\n' and writing them out. */
  function Unlines(ls: seq<string>): string
  {
    if ls == [] then [] else ls[0] + "\n" + Unlines(ls[1..])
  }

  /** The first '\n' after a line free of '\n' is the one that terminates it. */
  lemma NewlineAfterLine(line: string, rest: string)
    requires '\n' !in line
    ensures NewlineIndex(line + ['\n'] + rest) == |line|
  {
    var s := line + ['\n'] + rest;
    var i := NewlineIndex(s);
    assert s[|line|] == '\n';
  }

  /** Splitting what `Unlines` wrote gives the lines back, when none ends in '\r'. */
  lemma {:induction false} LinesOfUnlines(ls: seq<string>)
    requires forall k :: 0 <= k < |ls| ==> '\n' !in ls[k] && !EndsWithCarriageReturn(ls[k])
    ensures Lines(Unlines(ls)) == ls
  {
    if ls != [] {
      var text := Unlines(ls);
      var rest := Unlines(ls[1..]);
      assert text == ls[0] + ['\n'] + rest;
      NewlineAfterLine(ls[0], rest);
      assert text[..|ls[0]|] == ls[0];
      assert text[|ls[0]| + 1..] == rest;
      LinesOfUnlines(ls[1..]);
    }
  }
}
