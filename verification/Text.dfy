/** JavaScript string helpers shared by the CSV reader, the printers and the importer. */
module Text {

  /** The characters String.prototype.trim and the regular-expression class \s treat as blank. */
  predicate IsSpace(c: char) {
    || '\t' <= c <= '\r'
    || c == ' '
    || c == '\U{00A0}'
    || c == '\U{1680}'
    || '\U{2000}' <= c <= '\U{200A}'
    || c == '\U{2028}'
    || c == '\U{2029}'
    || c == '\U{202F}'
    || c == '\U{205F}'
    || c == '\U{3000}'
    || c == '\U{FEFF}'
  }

  function TrimLeft(s: string): string {
    if s != "" && IsSpace(s[0]) then TrimLeft(s[1..]) else s
  }

  function TrimRight(s: string): string {
    if s != "" && IsSpace(s[|s| - 1]) then TrimRight(s[..|s| - 1]) else s
  }

  function Trim(s: string): string {
    TrimRight(TrimLeft(s))
  }

  /** No blank at either end. */
  predicate Tight(s: string) {
    s != "" ==> !IsSpace(s[0]) && !IsSpace(s[|s| - 1])
  }

  lemma {:induction false} TrimLeftShape(s: string)
    ensures |TrimLeft(s)| <= |s|
    ensures TrimLeft(s) == s[|s| - |TrimLeft(s)|..]
    ensures TrimLeft(s) != "" ==> !IsSpace(TrimLeft(s)[0])
    ensures forall k :: 0 <= k < |s| - |TrimLeft(s)| ==> IsSpace(s[k])
  {
    if s != "" && IsSpace(s[0]) {
      TrimLeftShape(s[1..]);
      forall k | 0 <= k < |s| - |TrimLeft(s)| ensures IsSpace(s[k]) {
        if k > 0 { assert s[k] == s[1..][k - 1]; }
      }
    }
  }

  lemma {:induction false} TrimRightShape(s: string)
    ensures |TrimRight(s)| <= |s|
    ensures TrimRight(s) == s[..|TrimRight(s)|]
    ensures TrimRight(s) != "" ==> !IsSpace(TrimRight(s)[|TrimRight(s)| - 1])
    ensures forall k :: |TrimRight(s)| <= k < |s| ==> IsSpace(s[k])
  {
    if s != "" && IsSpace(s[|s| - 1]) {
      TrimRightShape(s[..|s| - 1]);
      forall k | |TrimRight(s)| <= k < |s| ensures IsSpace(s[k]) {
        if k < |s| - 1 { assert s[k] == s[..|s| - 1][k]; }
      }
    }
  }

  /** Trimming leaves a text with no blank at either end, and nothing at all exactly when every character is blank. */
  lemma TrimMeaning(s: string)
    ensures Tight(Trim(s))
    ensures Trim(s) == "" <==> forall k :: 0 <= k < |s| ==> IsSpace(s[k])
  {
    TrimLeftShape(s);
    TrimRightShape(TrimLeft(s));
    var l := TrimLeft(s);
    if l != "" {
      assert s[|s| - |l|] == l[0];
      assert !IsSpace(l[0]);
    }
  }

  lemma TrimOfTight(s: string)
    requires Tight(s)
    ensures Trim(s) == s
  {
  }

  /** A leading non-blank character shields the left end. */
  lemma {:induction false} TrimRightPrefixed(c: char, s: string)
    requires !IsSpace(c)
    ensures TrimRight([c] + s) == [c] + TrimRight(s)
  {
    if s != "" && IsSpace(s[|s| - 1]) {
      assert ([c] + s)[..|[c] + s| - 1] == [c] + s[..|s| - 1];
      TrimRightPrefixed(c, s[..|s| - 1]);
    }
  }

  lemma TrimPrefixed(c: char, s: string)
    requires !IsSpace(c)
    ensures Trim([c] + s) == [c] + TrimRight(s)
  {
    TrimRightPrefixed(c, s);
  }

  /** The two trims commute. */
  lemma {:induction false} TrimOfTrimRight(s: string)
    ensures Trim(TrimRight(s)) == Trim(s)
  {
    TrimLeftShape(s);
    if TrimLeft(s) == "" {
      AllSpaceTrims(s);
    } else {
      var n := |s| - |TrimLeft(s)|;
      TrimSplit(s[..n], TrimLeft(s));
      assert s == s[..n] + TrimLeft(s);
    }
  }

  lemma {:induction false} AllSpaceTrims(s: string)
    requires forall k :: 0 <= k < |s| ==> IsSpace(s[k])
    ensures TrimRight(s) == "" && Trim(s) == ""
  {
    TrimMeaning(s);
    TrimRightShape(s);
  }

  /** Blanks followed by a text that starts with a non-blank. */
  lemma {:induction false} TrimSplit(blank: string, body: string)
    requires forall k :: 0 <= k < |blank| ==> IsSpace(blank[k])
    requires body != "" && !IsSpace(body[0])
    ensures TrimRight(blank + body) == blank + TrimRight(body)
    ensures Trim(blank + TrimRight(body)) == Trim(blank + body) == TrimRight(body)
    decreases |body|
  {
    TrimRightShape(body);
    SkipBlank(blank, body);
    TrimRightDistributes(blank, body);
    SkipBlank(blank, TrimRight(body));
    TrimOfTight(TrimRight(body));
  }

  lemma {:induction false} SkipBlank(blank: string, body: string)
    requires forall k :: 0 <= k < |blank| ==> IsSpace(blank[k])
    requires body != "" && !IsSpace(body[0])
    ensures TrimLeft(blank + body) == body
  {
    if blank != "" {
      assert (blank + body)[1..] == blank[1..] + body;
      SkipBlank(blank[1..], body);
    } else {
      assert blank + body == body;
    }
  }

  lemma {:induction false} TrimRightDistributes(left: string, body: string)
    requires TrimRight(body) != ""
    ensures TrimRight(left + body) == left + TrimRight(body)
    decreases |body|
  {
    assert (left + body)[|left + body| - 1] == body[|body| - 1];
    if IsSpace(body[|body| - 1]) {
      assert (left + body)[..|left + body| - 1] == left + body[..|body| - 1];
      TrimRightDistributes(left, body[..|body| - 1]);
    }
  }
}
