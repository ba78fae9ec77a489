/** The string operations the sources rely on: strip, split, join, line boundaries, Markdown fences. */
module Text {

  /** The characters that `str.strip()` removes. */
  predicate IsSpace(c: char) {
    || '\U{9}' <= c <= '\U{d}'
    || '\U{1c}' <= c <= ' '
    || c in ['\U{85}', '\U{a0}', '\U{1680}', '\U{2028}', '\U{2029}', '\U{202f}', '\U{205f}', '\U{3000}']
    || '\U{2000}' <= c <= '\U{200a}'
  }

  /** Their code points. */
  lemma SpacesAre(c: char)
    ensures IsSpace(c) <==>
              c as int in {9, 10, 11, 12, 13, 28, 29, 30, 31, 32, 133, 160, 5760, 8192, 8193, 8194, 8195, 8196, 8197,
                           8198, 8199, 8200, 8201, 8202, 8232, 8233, 8239, 8287, 12288}
  {
  }

  /** The first position from `i` on that is not blank, or the end. */
  function LeftEdge(s: string, i: nat): (k: nat)
    requires i <= |s|
    ensures i <= k <= |s|
    decreases |s| - i
  {
    if i < |s| && IsSpace(s[i]) then LeftEdge(s, i + 1) else i
  }

  /** The end of the last non-blank before `i`, or `lo`. */
  function RightEdge(s: string, lo: nat, i: nat): (k: nat)
    requires lo <= i <= |s|
    ensures lo <= k <= i
  {
    if lo < i && IsSpace(s[i - 1]) then RightEdge(s, lo, i - 1) else i
  }

  /** `text.strip()` */
  function Strip(s: string): string {
    s[LeftEdge(s, 0)..RightEdge(s, LeftEdge(s, 0), |s|)]
  }

  ghost predicate Blank(s: string) {
    forall c :: c in s ==> IsSpace(c)
  }

  ghost predicate Trimmed(s: string) {
    s != "" ==> !IsSpace(s[0]) && !IsSpace(s[|s| - 1])
  }

  lemma {:induction false} LeftEdgeAt(s: string, i: nat, k: nat)
    requires i <= k <= |s| && (k < |s| ==> !IsSpace(s[k]))
    requires forall j :: i <= j < k ==> IsSpace(s[j])
    ensures LeftEdge(s, i) == k
    decreases |s| - i
  {
    if i < k {
      LeftEdgeAt(s, i + 1, k);
    }
  }

  lemma {:induction false} RightEdgeAt(s: string, lo: nat, i: nat, k: nat)
    requires lo <= k <= i <= |s| && (lo < k ==> !IsSpace(s[k - 1]))
    requires forall j :: k <= j < i ==> IsSpace(s[j])
    ensures RightEdge(s, lo, i) == k
  {
    if k < i {
      RightEdgeAt(s, lo, i - 1, k);
    }
  }

  lemma {:induction false} LeftEdgeIsFirst(s: string, i: nat)
    requires i <= |s|
    ensures LeftEdge(s, i) < |s| ==> !IsSpace(s[LeftEdge(s, i)])
    decreases |s| - i
  {
    if i < |s| && IsSpace(s[i]) {
      LeftEdgeIsFirst(s, i + 1);
    }
  }

  lemma {:induction false} RightEdgeIsLast(s: string, lo: nat, i: nat)
    requires lo <= i <= |s|
    ensures lo < RightEdge(s, lo, i) ==> !IsSpace(s[RightEdge(s, lo, i) - 1])
  {
    if lo < i && IsSpace(s[i - 1]) {
      RightEdgeIsLast(s, lo, i - 1);
    }
  }

  /** Blanks around a trimmed text are what stripping removes. */
  lemma StripAround(left: string, core: string, right: string)
    requires Blank(left) && Trimmed(core) && Blank(right)
    requires core == "" ==> right == ""
    ensures Strip(left + core + right) == core
  {
    var s := left + core + right;
    LeftEdgeAt(s, 0, |left|);
    assert forall j :: |left| + |core| <= j < |s| ==> s[j] == right[j - |left| - |core|];
    RightEdgeAt(s, |left|, |s|, |left| + |core|);
    assert s[|left|..|left| + |core|] == core;
  }

  lemma StripKeeps(s: string)
    requires Trimmed(s)
    ensures Strip(s) == s
  {
    StripAround("", s, "");
    assert "" + s + "" == s;
  }

  lemma {:induction false} LeftOfEdgeIsBlank(s: string, i: nat)
    requires i <= |s|
    ensures forall j :: i <= j < LeftEdge(s, i) ==> IsSpace(s[j])
    decreases |s| - i
  {
    if i < |s| && IsSpace(s[i]) {
      LeftOfEdgeIsBlank(s, i + 1);
    }
  }

  lemma {:induction false} RightOfEdgeIsBlank(s: string, lo: nat, i: nat)
    requires lo <= i <= |s|
    ensures forall j :: RightEdge(s, lo, i) <= j < i ==> IsSpace(s[j])
  {
    if lo < i && IsSpace(s[i - 1]) {
      RightOfEdgeIsBlank(s, lo, i - 1);
    }
  }

  /** `core` is trimmed, and `s` has only blanks around it. */
  ghost predicate IsStripped(s: string, core: string) {
    Trimmed(core) && exists left, right :: Around(s, left, core, right)
  }

  ghost predicate Around(s: string, left: string, core: string, right: string) {
    s == left + core + right && Blank(left) && Blank(right)
  }

  lemma StripRemovesBlanks(s: string) returns (left: string, right: string)
    ensures Around(s, left, Strip(s), right)
  {
    var l := LeftEdge(s, 0);
    var r := RightEdge(s, l, |s|);
    LeftOfEdgeIsBlank(s, 0);
    RightOfEdgeIsBlank(s, l, |s|);
    ThreeParts(s, l, r);
    BlankParts(s, l, r);
    left, right := s[..l], s[r..];
  }

  lemma StripIsTrimmed(s: string)
    ensures Trimmed(Strip(s))
  {
    LeftEdgeIsFirst(s, 0);
    RightEdgeIsLast(s, LeftEdge(s, 0), |s|);
  }

  lemma ThreeParts(s: string, l: nat, r: nat)
    requires l <= r <= |s|
    ensures s == s[..l] + s[l..r] + s[r..]
  {
  }

  lemma BlankParts(s: string, l: nat, r: nat)
    requires l <= r <= |s|
    requires forall j :: 0 <= j < l ==> IsSpace(s[j])
    requires forall j :: r <= j < |s| ==> IsSpace(s[j])
    ensures Blank(s[..l]) && Blank(s[r..])
  {
  }

  /** Stripping yields a trimmed text and removes only blanks; a second time it changes nothing. */
  lemma StripTrims(s: string)
    ensures IsStripped(s, Strip(s)) && Trimmed(Strip(s)) && Strip(Strip(s)) == Strip(s)
  {
    StripIsTrimmed(s);
    var left, right := StripRemovesBlanks(s);
    StripKeeps(Strip(s));
  }

  predicate StartsWith(s: string, prefix: string) {
    |prefix| <= |s| && s[..|prefix|] == prefix
  }

  lemma StartOfConcat(s: string, prefix: string, rest: string)
    requires StartsWith(s, prefix + rest)
    ensures StartsWith(s, prefix)
  {
    assert s[..|prefix|] == s[..|prefix + rest|][..|prefix|] == prefix;
  }

  /** Blanks, and then the prefix. */
  ghost predicate BeginsWith(s: string, prefix: string) {
    exists pad, rest :: IsPadded(s, pad, prefix, rest)
  }

  ghost predicate IsPadded(s: string, pad: string, prefix: string, rest: string) {
    s == pad + prefix + rest && Blank(pad)
  }

  lemma StartsWithIff(s: string, prefix: string)
    ensures StartsWith(s, prefix) <==> exists rest :: s == prefix + rest
  {
    if StartsWith(s, prefix) {
      assert s == prefix + s[|prefix|..];
    }
  }

  lemma StripOfPadded(s: string, pad: string, prefix: string, rest: string)
    requires IsPadded(s, pad, prefix, rest) && Trimmed(prefix) && prefix != ""
    ensures StartsWith(Strip(s), prefix)
  {
    var l := |pad|;
    assert s[l] == prefix[0] && s[l + |prefix| - 1] == prefix[|prefix| - 1];
    LeftEdgeAt(s, 0, l);
    RightEdgeBeyond(s, l, |s|, l + |prefix|);
    assert s[l..l + |prefix|] == prefix;
  }

  /** A character that is not blank stays within the right edge. */
  lemma {:induction false} RightEdgeBeyond(s: string, lo: nat, i: nat, k: nat)
    requires lo < k <= i <= |s| && !IsSpace(s[k - 1])
    ensures RightEdge(s, lo, i) >= k
  {
    if k < i && IsSpace(s[i - 1]) {
      RightEdgeBeyond(s, lo, i - 1, k);
    }
  }

  /** The stripped text starts with a trimmed prefix exactly if the text has it after blanks. */
  lemma StripStartsIff(s: string, prefix: string)
    requires Trimmed(prefix) && prefix != ""
    ensures StartsWith(Strip(s), prefix) <==> BeginsWith(s, prefix)
  {
    if StartsWith(Strip(s), prefix) {
      var left, right := StripRemovesBlanks(s);
      var core := Strip(s);
      assert core == prefix + core[|prefix|..];
      assert s == left + prefix + (core[|prefix|..] + right);
      assert IsPadded(s, left, prefix, core[|prefix|..] + right);
    }
    if BeginsWith(s, prefix) {
      var pad, rest :| IsPadded(s, pad, prefix, rest);
      StripOfPadded(s, pad, prefix, rest);
    }
  }

  /** `"\n".join(lines)` */
  function JoinLines(lines: seq<string>): string {
    if lines == [] then ""
    else if |lines| == 1 then lines[0]
    else lines[0] + "\n" + JoinLines(lines[1..])
  }

  /** `text.split("\n")` */
  function SplitLines(text: string): (lines: seq<string>)
    ensures lines != []
    ensures forall l :: l in lines ==> '\n' !in l
  {
    if text == "" then [""]
    else
      var rest := SplitLines(text[1..]);
      if text[0] == '\n' then [""] + rest else [[text[0]] + rest[0]] + rest[1..]
  }

  lemma {:induction false} JoinOfSplit(text: string)
    ensures JoinLines(SplitLines(text)) == text
  {
    if text != "" {
      JoinOfSplit(text[1..]);
      var rest := SplitLines(text[1..]);
      if text[0] == '\n' {
        assert ([""] + rest)[1..] == rest;
        assert JoinLines([""] + rest) == "" + "\n" + JoinLines(rest);
      } else {
        var lines := [[text[0]] + rest[0]] + rest[1..];
        assert lines[1..] == rest[1..];
        if |rest| > 1 {
          assert JoinLines(lines) == [text[0]] + rest[0] + "\n" + JoinLines(rest[1..]);
        }
      }
      assert text == [text[0]] + text[1..];
    }
  }

  lemma {:induction false} SplitOneLine(line: string)
    requires '\n' !in line
    ensures SplitLines(line) == [line]
  {
    if line != "" {
      SplitOneLine(line[1..]);
      assert [line[0]] + line[1..] == line;
    }
  }

  lemma {:induction false} SplitFirst(line: string, rest: string)
    requires '\n' !in line
    ensures SplitLines(line + "\n" + rest) == [line] + SplitLines(rest)
  {
    var text := line + "\n" + rest;
    if line == "" {
      assert text[1..] == rest;
    } else {
      assert text[1..] == line[1..] + "\n" + rest;
      SplitFirst(line[1..], rest);
      assert [line[0]] + line[1..] == line;
    }
  }

  lemma {:induction false} SplitOfJoin(lines: seq<string>)
    requires lines != [] && forall l :: l in lines ==> '\n' !in l
    ensures SplitLines(JoinLines(lines)) == lines
  {
    if |lines| == 1 {
      SplitOneLine(lines[0]);
    } else {
      SplitOfJoin(lines[1..]);
      SplitFirst(lines[0], JoinLines(lines[1..]));
      assert lines == [lines[0]] + lines[1..];
    }
  }

  // ---------------------------------------------------------------------------
  // Markdown fences
  // ---------------------------------------------------------------------------

  const FENCE: string := "```"

  /** The line boundaries of `str.splitlines()`; carriage return + line feed counts once. */
  predicate IsLineBoundary(c: char) {
    || '\U{a}' <= c <= '\U{d}'
    || '\U{1c}' <= c <= '\U{1e}'
    || c in ['\U{85}', '\U{2028}', '\U{2029}']
  }

  /** Their code points. */
  lemma BoundariesAre(c: char)
    ensures IsLineBoundary(c) <==> c as int in {10, 11, 12, 13, 28, 29, 30, 133, 8232, 8233}
  {
  }

  function FirstBoundary(s: string): (i: nat)
    ensures i <= |s|
    ensures i < |s| ==> IsLineBoundary(s[i])
    ensures forall j :: 0 <= j < i ==> !IsLineBoundary(s[j])
  {
    if s == "" || IsLineBoundary(s[0]) then 0 else 1 + FirstBoundary(s[1..])
  }

  /** `text.splitlines()` */
  function UniversalLines(s: string): seq<string>
    decreases |s|
  {
    if s == "" then []
    else
      var i := FirstBoundary(s);
      if i == |s| then [s]
      else if s[i] == '\r' && i + 1 < |s| && s[i + 1] == '\n' then [s[..i]] + UniversalLines(s[i + 2..])
      else [s[..i]] + UniversalLines(s[i + 1..])
  }

  /** The lines without a fence line before them and one after them. */
  function Unwrapped(lines: seq<string>): seq<string>
    requires lines != []
  {
    var body := if StartsWith(lines[0], FENCE) then lines[1..] else lines;
    if body != [] && Strip(body[|body| - 1]) == FENCE then body[..|body| - 1] else body
  }

  /** `_strip_markdown_fence`: a reply wrapped in a code fence is unwrapped. */
  function StripMarkdownFence(text: string): string {
    var cleaned := Strip(text);
    if !StartsWith(cleaned, FENCE) then cleaned
    else
      var lines := UniversalLines(cleaned);
      if lines == [] then cleaned else Strip(JoinLines(Unwrapped(lines)))
  }
}
