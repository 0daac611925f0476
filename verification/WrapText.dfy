/** Greedy line wrapping for the printed ticket. */
module WrapText {

  /** String.prototype.split with a single space. */
  function SplitSpace(s: string): (words: seq<string>)
    ensures |words| > 0
  {
    if s == "" then [""]
    else
      var rest := SplitSpace(s[1..]);
      if s[0] == ' ' then [""] + rest else [[s[0]] + rest[0]] + rest[1..]
  }

  function NonEmpty(words: seq<string>): seq<string> {
    if |words| == 0 then [] else NonEmpty(words[..|words| - 1]) + if words[|words| - 1] == "" then [] else [words[|words| - 1]]
  }

  function WordsOfLines(lines: seq<string>): seq<string> {
    if |lines| == 0 then [] else WordsOfLines(lines[..|lines| - 1]) + NonEmpty(SplitSpace(lines[|lines| - 1]))
  }

  predicate OneWord(s: string) {
    forall k :: 0 <= k < |s| ==> s[k] != ' '
  }

  /** A line is short enough, or it is one word that no line could hold. */
  predicate Fits(line: string, maxChars: int) {
    |line| <= maxChars || OneWord(line)
  }

  lemma {:induction false} SplitOneWord(s: string)
    requires OneWord(s)
    ensures SplitSpace(s) == [s]
  {
    if s != "" {
      assert s[0] != ' ';
      SplitOneWord(s[1..]);
      assert [s[0]] + s[1..] == s;
    }
  }

  lemma {:induction false} SplitGivesWords(s: string)
    ensures forall k :: 0 <= k < |SplitSpace(s)| ==> OneWord(SplitSpace(s)[k])
  {
    if s != "" {
      SplitGivesWords(s[1..]);
      var rest := SplitSpace(s[1..]);
      if s[0] != ' ' {
        assert OneWord(rest[0]);
        assert forall k :: 1 <= k < |rest| ==> SplitSpace(s)[k] == rest[k];
      }
    }
  }

  lemma {:induction false} SplitAtSpace(a: string, b: string)
    ensures SplitSpace(a + [' '] + b) == SplitSpace(a) + SplitSpace(b)
  {
    if a == "" {
      assert a + [' '] + b == [' '] + b;
    } else {
      assert (a + [' '] + b)[1..] == a[1..] + [' '] + b;
      SplitAtSpace(a[1..], b);
    }
  }

  lemma {:induction false} NonEmptyConcat(a: seq<string>, b: seq<string>)
    ensures NonEmpty(a + b) == NonEmpty(a) + NonEmpty(b)
  {
    if |b| == 0 {
      assert a + b == a;
    } else {
      assert (a + b)[..|a + b| - 1] == a + b[..|b| - 1];
      NonEmptyConcat(a, b[..|b| - 1]);
    }
  }

  lemma GrownLine(line: string, word: string)
    requires OneWord(word)
    ensures NonEmpty(SplitSpace(line + [' '] + word)) == NonEmpty(SplitSpace(line)) + NonEmpty([word])
  {
    SplitAtSpace(line, word);
    SplitOneWord(word);
    NonEmptyConcat(SplitSpace(line), [word]);
  }

  /** How many more lines the greedy loop emits for `words` when its open line has `open` characters. */
  function LinesLeft(words: seq<string>, open: nat, maxChars: int): nat {
    if |words| == 0 then (if open > 0 then 1 else 0)
    else
      var n := |words[0]|;
      if open == 0 then LinesLeft(words[1..], n, maxChars)
      else if open + 1 + n <= maxChars then LinesLeft(words[1..], open + 1 + n, maxChars)
      else 1 + LinesLeft(words[1..], n, maxChars)
  }

  /** The length of the open line after a word of length `n`, and the lines that word closes. */
  function Reopened(open: nat, n: nat, maxChars: int): (nat, nat) {
    if open == 0 then (n, 0) else if open + 1 + n <= maxChars then (open + 1 + n, 0) else (n, 1)
  }

  lemma LinesLeftStep(words: seq<string>, i: nat, open: nat, maxChars: int)
    requires i < |words|
    ensures var (next, closed) := Reopened(open, |words[i]|, maxChars);
            LinesLeft(words[i..], open, maxChars) == closed + LinesLeft(words[i + 1..], next, maxChars)
  {
    assert words[i..][1..] == words[i + 1..];
  }

  lemma PushedLine(lines: seq<string>, line: string)
    ensures WordsOfLines(lines + [line]) == WordsOfLines(lines) + NonEmpty(SplitSpace(line))
  {
    assert (lines + [line])[..|lines|] == lines;
  }

  /** The loop has placed the first `i` words on `lines` and the open line. */
  ghost predicate Placed(words: seq<string>, i: nat, lines: seq<string>, open: string) {
    i <= |words| && WordsOfLines(lines) + NonEmpty(SplitSpace(open)) == NonEmpty(words[..i])
  }

  lemma PlaceWord(words: seq<string>, i: nat, lines: seq<string>, open: string)
    requires i < |words| && OneWord(words[i]) && Placed(words, i, lines, open)
    ensures open == "" ==> Placed(words, i + 1, lines, words[i])
    ensures Placed(words, i + 1, lines, open + [' '] + words[i])
    ensures Placed(words, i + 1, lines + [open], words[i])
  {
    var word := words[i];
    assert words[..i + 1] == words[..i] + [word];
    NonEmptyConcat(words[..i], [word]);
    SplitOneWord(word);
    GrownLine(open, word);
    PushedLine(lines, open);
  }

  method WrapWords(words: seq<string>, maxChars: int) returns (lines: seq<string>)
    requires forall k :: 0 <= k < |words| ==> OneWord(words[k])
    ensures WordsOfLines(lines) == NonEmpty(words)
    ensures forall k :: 0 <= k < |lines| ==> Fits(lines[k], maxChars)
    ensures |lines| == LinesLeft(words, 0, maxChars)
  {
    lines := [];
    var currentLine := "";
    for i := 0 to |words|
      invariant Placed(words, i, lines, currentLine)
      invariant forall k :: 0 <= k < |lines| ==> Fits(lines[k], maxChars)
      invariant Fits(currentLine, maxChars)
      invariant |lines| + LinesLeft(words[i..], |currentLine|, maxChars) == LinesLeft(words, 0, maxChars)
    {
      var word := words[i];
      PlaceWord(words, i, lines, currentLine);
      LinesLeftStep(words, i, |currentLine|, maxChars);
      if currentLine == "" {
        currentLine := word;
      } else if |currentLine| + 1 + |word| <= maxChars {
        currentLine := currentLine + [' '] + word;
      } else {
        lines := lines + [currentLine];
        currentLine := word;
      }
    }
    assert words[..|words|] == words;
    PushedLine(lines, currentLine);
    if currentLine != "" {
      lines := lines + [currentLine];
    }
  }

  // ----- no wrapping needs fewer lines

  function LineLength(group: seq<string>): nat {
    if |group| == 0 then 0
    else if |group| == 1 then |group[0]|
    else LineLength(group[..|group| - 1]) + 1 + |group[|group| - 1]|
  }

  function Flatten(groups: seq<seq<string>>): seq<string> {
    if |groups| == 0 then [] else groups[0] + Flatten(groups[1..])
  }

  /** The words of a text dealt out to lines in order, each line short enough or a single word. */
  predicate IsWrapping(groups: seq<seq<string>>, words: seq<string>, maxChars: int) {
    && Flatten(groups) == words
    && forall k :: 0 <= k < |groups| ==> |groups[k]| == 1 || (|groups[k]| > 1 && LineLength(groups[k]) <= maxChars)
  }

  predicate SingleSpaced(text: string) {
    forall k :: 0 <= k < |SplitSpace(text)| ==> SplitSpace(text)[k] != ""
  }

  /** A shorter open line never costs more lines, and any open line costs at most one more than another. */
  lemma {:induction false} ShorterOpenLine(words: seq<string>, a: nat, b: nat, maxChars: int)
    requires 0 < a && 0 < b
    requires forall k :: 0 <= k < |words| ==> words[k] != ""
    ensures a <= b ==> LinesLeft(words, a, maxChars) <= LinesLeft(words, b, maxChars)
    ensures LinesLeft(words, b, maxChars) <= 1 + LinesLeft(words, a, maxChars)
  {
    if |words| > 0 {
      var n := |words[0]|;
      assert words[0] != "";
      ShorterOpenLine(words[1..], a + 1 + n, b + 1 + n, maxChars);
      ShorterOpenLine(words[1..], n, a + 1 + n, maxChars);
      ShorterOpenLine(words[1..], n, b + 1 + n, maxChars);
    }
  }

  /** A group that fits on one line is taken by the greedy loop without a break. */
  lemma {:induction false} GroupInOneLine(group: seq<string>, rest: seq<string>, maxChars: int)
    requires |group| == 1 || (|group| > 1 && LineLength(group) <= maxChars)
    requires forall k :: 0 <= k < |group| ==> group[k] != ""
    ensures LineLength(group) > 0
    ensures LinesLeft(group + rest, 0, maxChars) == LinesLeft(rest, LineLength(group), maxChars)
  {
    if |group| == 1 {
      assert (group + rest)[1..] == rest;
      assert group[0] != "";
    } else {
      var front := group[..|group| - 1];
      var last := group[|group| - 1];
      assert group + rest == front + ([last] + rest);
      assert ([last] + rest)[1..] == rest;
      GroupInOneLine(front, [last] + rest, maxChars);
    }
  }

  lemma {:induction false} AnyWrappingIsNoShorter(groups: seq<seq<string>>, words: seq<string>, maxChars: int)
    requires IsWrapping(groups, words, maxChars)
    requires forall k :: 0 <= k < |words| ==> words[k] != ""
    ensures LinesLeft(words, 0, maxChars) <= |groups|
    decreases |groups|
  {
    if |groups| > 0 {
      var rest := Flatten(groups[1..]);
      assert forall k :: 0 <= k < |groups[0]| ==> groups[0][k] == words[k];
      assert forall k :: 0 <= k < |rest| ==> rest[k] == words[|groups[0]| + k];
      GroupInOneLine(groups[0], rest, maxChars);
      AnyWrappingIsNoShorter(groups[1..], rest, maxChars);
      if |rest| > 0 {
        assert rest[0] != "";
        CloseEarly(rest, LineLength(groups[0]), maxChars);
      }
    }
  }

  lemma CloseEarly(words: seq<string>, open: nat, maxChars: int)
    requires |words| > 0 && open > 0
    requires forall k :: 0 <= k < |words| ==> words[k] != ""
    ensures LinesLeft(words, open, maxChars) <= 1 + LinesLeft(words, 0, maxChars)
  {
    var n := |words[0]|;
    assert words[0] != "";
    ShorterOpenLine(words[1..], n, open + 1 + n, maxChars);
  }

  /** For single-spaced text no wrapping has fewer lines than the greedy one. */
  lemma GreedyIsOptimal(text: string, maxChars: int, groups: seq<seq<string>>)
    requires SingleSpaced(text)
    requires IsWrapping(groups, SplitSpace(text), maxChars)
    ensures |groups| >= if |text| <= maxChars then 1 else LinesLeft(SplitSpace(text), 0, maxChars)
  {
    AnyWrappingIsNoShorter(groups, SplitSpace(text), maxChars);
  }

  /** Every word is kept, in order; every line is short enough or a single over-long word; and for
      single-spaced text no wrapping has fewer lines. */
  method Wrap(text: string, maxChars: int) returns (lines: seq<string>)
    ensures WordsOfLines(lines) == NonEmpty(SplitSpace(text))
    ensures forall k :: 0 <= k < |lines| ==> Fits(lines[k], maxChars)
    ensures SingleSpaced(text) ==> forall groups :: IsWrapping(groups, SplitSpace(text), maxChars) ==> |lines| <= |groups|
  {
    forall groups | SingleSpaced(text) && IsWrapping(groups, SplitSpace(text), maxChars)
      ensures |groups| >= if |text| <= maxChars then 1 else LinesLeft(SplitSpace(text), 0, maxChars)
    {
      GreedyIsOptimal(text, maxChars, groups);
    }
    if |text| <= maxChars {
      PushedLine([], text);
      assert [] + [text] == [text];
      return [text];
    }
    SplitGivesWords(text);
    lines := WrapWords(SplitSpace(text), maxChars);
  }
}
