/**
 * The parser of file repairs in an LLM reply (`_apply_llm_fixes`), and the format its prompt asks for:
 * a `FILE:` line, then the content between two fence lines.
 */
module FixParser {
  import opened Sequences
  import opened Text

  datatype Write = Write(name: string, content: string)

  const FILE_MARKER: string := "FILE:"

  predicate IsFileLine(line: string) {
    StartsWith(line, FILE_MARKER)
  }

  predicate IsFenceLine(line: string) {
    StartsWith(Strip(line), FENCE)
  }

  /** `file` is empty before the first marker, as it is after a marker without a name. */
  datatype State = State(file: string, content: seq<string>, inBlock: bool, written: seq<Write>)

  const START: State := State("", [], false, [])

  /** The writes so far, with the current file if it has a name and collected lines. */
  function Flushed(st: State): seq<Write> {
    if st.file != "" && st.content != [] then st.written + [Write(st.file, JoinLines(st.content))]
    else st.written
  }

  function Feed(st: State, line: string): State {
    if IsFileLine(line) then State(Strip(line[5..]), [], false, Flushed(st))
    else if IsFenceLine(line) then st.(inBlock := !st.inBlock)
    else if st.inBlock && st.file != "" then st.(content := st.content + [line])
    else st
  }

  function FeedAll(st: State, lines: seq<string>): State
    decreases |lines|
  {
    if lines == [] then st else FeedAll(Feed(st, lines[0]), lines[1..])
  }

  function Parse(reply: string): seq<Write> {
    Flushed(FeedAll(START, SplitLines(reply)))
  }

  // ---------------------------------------------------------------------------
  // The format of the prompt
  // ---------------------------------------------------------------------------

  /** A repaired file, with the lines of talk that precede it in the reply. */
  datatype Block = Block(talk: seq<string>, tag: string, file: Write)

  /** The fence that opens a file may carry a tag, such as the language. */
  function BlockLines(b: Block): seq<string> {
    b.talk + [FILE_MARKER + " " + b.file.name, FENCE + b.tag] + SplitLines(b.file.content) + [FENCE]
  }

  function ReplyLines(blocks: seq<Block>): seq<string> {
    if blocks == [] then [] else BlockLines(blocks[0]) + ReplyLines(blocks[1..])
  }

  function Files(blocks: seq<Block>): seq<Write> {
    if blocks == [] then [] else [blocks[0].file] + Files(blocks[1..])
  }

  function Bare(files: seq<Write>): (blocks: seq<Block>)
    ensures |blocks| == |files| && forall i :: 0 <= i < |files| ==> blocks[i] == Block([], "", files[i])
  {
    seq(|files|, i requires 0 <= i < |files| => Block([], "", files[i]))
  }

  /** The reply that gives exactly these files. */
  function Render(files: seq<Write>): string {
    JoinLines(ReplyLines(Bare(files)))
  }

  ghost predicate MarksFile(line: string) {
    exists rest :: line == "FILE:" + rest
  }

  /** Three backticks, possibly behind blanks. */
  ghost predicate MarksFence(line: string) {
    BeginsWith(line, "```")
  }

  ghost predicate PlainText(line: string) {
    !MarksFile(line) && !MarksFence(line)
  }

  lemma MarkersAre(line: string)
    ensures IsFileLine(line) <==> MarksFile(line)
    ensures IsFenceLine(line) <==> MarksFence(line)
  {
    StartsWithIff(line, FILE_MARKER);
    StripStartsIff(line, FENCE);
  }

  /** A name the format can carry: not empty, on one line, without blanks around it. */
  ghost predicate GoodName(name: string) {
    name != "" && Trimmed(name) && '\n' !in name
  }

  /** A content the format can carry: no line starts with the marker or, trimmed, with a fence. */
  ghost predicate CleanContent(content: string) {
    forall l :: l in SplitLines(content) ==> PlainText(l)
  }

  ghost predicate Expressible(w: Write) {
    GoodName(w.name) && CleanContent(w.content)
  }

  ghost predicate ExpressibleBlock(b: Block) {
    && Expressible(b.file) && '\n' !in b.tag
    && forall l :: l in b.talk ==> PlainText(l) && '\n' !in l
  }

  // ---------------------------------------------------------------------------
  // Parsing a rendered reply
  // ---------------------------------------------------------------------------

  lemma {:induction false} FeedConcat(st: State, a: seq<string>, b: seq<string>)
    ensures FeedAll(st, a + b) == FeedAll(FeedAll(st, a), b)
    decreases |a|
  {
    if a == [] {
      assert a + b == b;
    } else {
      assert (a + b)[1..] == a[1..] + b;
      FeedConcat(Feed(st, a[0]), a[1..], b);
    }
  }

  lemma {:induction false} TalkIsIgnored(st: State, talk: seq<string>)
    requires !st.inBlock && forall l :: l in talk ==> PlainText(l)
    ensures FeedAll(st, talk) == st
    decreases |talk|
  {
    if talk == [] {
    } else {
      assert PlainText(talk[0]);
      MarkersAre(talk[0]);
      TalkIsIgnored(st, talk[1..]);
    }
  }

  lemma {:induction false} ContentIsCollected(st: State, lines: seq<string>)
    requires st.inBlock && st.file != "" && forall l :: l in lines ==> PlainText(l)
    ensures FeedAll(st, lines) == st.(content := st.content + lines)
    decreases |lines|
  {
    if lines != [] {
      var line, rest := lines[0], lines[1..];
      assert PlainText(line) && lines == [line] + rest;
      MarkersAre(line);
      ContentIsCollected(Feed(st, line), rest);
      ConcatAssociates(st.content, [line], rest);
    } else {
      assert st.content + lines == st.content;
    }
  }

  lemma FenceLine(tag: string)
    ensures IsFenceLine(FENCE + tag) && !IsFileLine(FENCE + tag) && '\n' !in FENCE
  {
    assert IsPadded(FENCE + tag, "", FENCE, tag);
    MarkersAre(FENCE + tag);
    assert (FENCE + tag)[0] == '`';
  }

  lemma FeedMarker(st: State, name: string)
    requires GoodName(name)
    ensures Feed(st, FILE_MARKER + " " + name) == State(name, [], false, Flushed(st))
  {
    var line := FILE_MARKER + " " + name;
    assert line[..5] == FILE_MARKER && line[5..] == " " + name;
    StripAround(" ", name, "");
    assert " " + name + "" == line[5..];
  }

  lemma FeedHeader(st: State, name: string, tag: string)
    requires GoodName(name)
    ensures FeedAll(st, [FILE_MARKER + " " + name, FENCE + tag]) == State(name, [], true, Flushed(st))
  {
    FenceLine(tag);
    FeedMarker(st, name);
    var header := [FILE_MARKER + " " + name, FENCE + tag];
    var named := State(name, [], false, Flushed(st));
    assert header[1..] == [FENCE + tag] && [FENCE + tag][1..] == [];
    assert FeedAll(named, [FENCE + tag]) == FeedAll(Feed(named, FENCE + tag), []);
  }

  lemma FeedFence(st: State)
    ensures FeedAll(st, [FENCE]) == st.(inBlock := !st.inBlock)
  {
    FenceLine("");
    assert FENCE + "" == FENCE && [FENCE][1..] == [];
  }

  lemma FeedBlock(st: State, b: Block)
    requires !st.inBlock && ExpressibleBlock(b)
    ensures FeedAll(st, BlockLines(b)) == State(b.file.name, SplitLines(b.file.content), false, Flushed(st))
  {
    var header, lines := [FILE_MARKER + " " + b.file.name, FENCE + b.tag], SplitLines(b.file.content);
    FeedConcat(st, b.talk + header + lines, [FENCE]);
    FeedConcat(st, b.talk + header, lines);
    FeedConcat(st, b.talk, header);
    TalkIsIgnored(st, b.talk);
    FeedHeader(st, b.file.name, b.tag);
    ContentIsCollected(State(b.file.name, [], true, Flushed(st)), lines);
    assert [] + lines == lines;
    FeedFence(State(b.file.name, lines, true, Flushed(st)));
  }

  lemma FlushBlock(st: State, b: Block)
    requires !st.inBlock && ExpressibleBlock(b)
    ensures !FeedAll(st, BlockLines(b)).inBlock
    ensures Flushed(FeedAll(st, BlockLines(b))) == Flushed(st) + [b.file]
  {
    FeedBlock(st, b);
    JoinOfSplit(b.file.content);
  }

  lemma {:induction false} FeedBlocks(st: State, blocks: seq<Block>)
    requires !st.inBlock && forall b :: b in blocks ==> ExpressibleBlock(b)
    ensures Flushed(FeedAll(st, ReplyLines(blocks))) == Flushed(st) + Files(blocks)
    decreases |blocks|
  {
    if blocks == [] {
      assert Flushed(st) + [] == Flushed(st);
    } else {
      var b, rest := blocks[0], blocks[1..];
      assert b in blocks;
      FeedConcat(st, BlockLines(b), ReplyLines(rest));
      FlushBlock(st, b);
      FeedBlocks(FeedAll(st, BlockLines(b)), rest);
      ConcatAssociates(Flushed(st), [b.file], Files(rest));
    }
  }

  lemma {:induction false} ReplyLinesHaveNoBreak(blocks: seq<Block>)
    requires forall b :: b in blocks ==> ExpressibleBlock(b)
    ensures forall l :: l in ReplyLines(blocks) ==> '\n' !in l
    decreases |blocks|
  {
    if blocks == [] {
    } else {
      assert blocks[0] in blocks;
      FenceLine("");
      ReplyLinesHaveNoBreak(blocks[1..]);
    }
  }

  /** A reply in the prompt's format, with talk around the files, parses to its files in order. */
  lemma ReplyIsUnderstood(blocks: seq<Block>)
    requires forall b :: b in blocks ==> ExpressibleBlock(b)
    ensures Parse(JoinLines(ReplyLines(blocks))) == Files(blocks)
  {
    var lines := ReplyLines(blocks);
    FeedBlocks(START, blocks);
    if blocks == [] {
      assert SplitLines("") == [""];
      assert FeedAll(START, [""]) == FeedAll(Feed(START, ""), [""][1..]);
      StripKeeps("");
      assert Feed(START, "") == START;
    } else {
      ReplyLinesHaveNoBreak(blocks);
      SplitOfJoin(lines);
    }
  }

  // ---------------------------------------------------------------------------
  // Everything that is parsed is expressible
  // ---------------------------------------------------------------------------

  ghost predicate WellFormed(st: State) {
    && (st.file == "" || GoodName(st.file))
    && (forall l :: l in st.content ==> PlainText(l) && '\n' !in l)
    && (forall w :: w in st.written ==> Expressible(w))
  }

  lemma FlushedIsExpressible(st: State)
    requires WellFormed(st)
    ensures forall w :: w in Flushed(st) ==> Expressible(w)
  {
    if st.file != "" && st.content != [] {
      SplitOfJoin(st.content);
    }
  }

  lemma FeedKeepsWellFormed(st: State, line: string)
    requires WellFormed(st) && '\n' !in line
    ensures WellFormed(Feed(st, line))
  {
    MarkersAre(line);
    if IsFileLine(line) {
      StripTrims(line[5..]);
      FlushedIsExpressible(st);
    }
  }

  lemma {:induction false} FeedAllKeepsWellFormed(st: State, lines: seq<string>)
    requires WellFormed(st) && forall l :: l in lines ==> '\n' !in l
    ensures WellFormed(FeedAll(st, lines))
    decreases |lines|
  {
    if lines == [] {
    } else {
      FeedKeepsWellFormed(st, lines[0]);
      FeedAllKeepsWellFormed(Feed(st, lines[0]), lines[1..]);
    }
  }

  /** Whatever the reply, only expressible files are written. */
  lemma ParsedIsExpressible(reply: string)
    ensures forall w :: w in Parse(reply) ==> Expressible(w)
  {
    FeedAllKeepsWellFormed(START, SplitLines(reply));
    FlushedIsExpressible(FeedAll(START, SplitLines(reply)));
  }

  lemma {:induction false} FilesOfBare(files: seq<Write>)
    ensures Files(Bare(files)) == files
  {
    if files == [] {
    } else {
      FilesOfBare(files[1..]);
      assert Bare(files)[1..] == Bare(files[1..]);
    }
  }

  /** Printing and parsing gives the files back exactly when each name and content is expressible. */
  lemma RoundTripIffExpressible(files: seq<Write>)
    ensures Parse(Render(files)) == files <==> forall w :: w in files ==> Expressible(w)
  {
    ParsedIsExpressible(Render(files));
    if forall w :: w in files ==> Expressible(w) {
      forall b | b in Bare(files) ensures ExpressibleBlock(b) {
        assert b.file in files;
      }
      ReplyIsUnderstood(Bare(files));
      FilesOfBare(files);
    }
  }

  /** What the parser writes can be printed and parsed again without change. */
  lemma ReprintIsStable(reply: string)
    ensures Parse(Render(Parse(reply))) == Parse(reply)
  {
    ParsedIsExpressible(reply);
    RoundTripIffExpressible(Parse(reply));
  }

  // ---------------------------------------------------------------------------
  // Any reply at all, section by section
  // ---------------------------------------------------------------------------

  /** A marker line and the lines up to the next marker. */
  datatype Section = Section(marker: string, body: seq<string>)

  ghost predicate NoMarker(lines: seq<string>) {
    forall l :: l in lines ==> !MarksFile(l)
  }

  ghost predicate IsSection(s: Section) {
    MarksFile(s.marker) && NoMarker(s.body)
  }

  ghost function LinesOf(sections: seq<Section>): seq<string> {
    if sections == [] then []
    else
      var last := sections[|sections| - 1];
      LinesOf(sections[..|sections| - 1]) + ([last.marker] + last.body)
  }

  ghost function FenceCount(lines: seq<string>): nat {
    if lines == [] then 0
    else FenceCount(lines[..|lines| - 1]) + if MarksFence(lines[|lines| - 1]) then 1 else 0
  }

  /** The lines after an odd number of fence lines that are none themselves. */
  ghost function Fenced(lines: seq<string>): seq<string> {
    if lines == [] then []
    else
      var front, last := lines[..|lines| - 1], lines[|lines| - 1];
      Fenced(front) + if FenceCount(front) % 2 == 1 && !MarksFence(last) then [last] else []
  }

  /** A section with a name and fenced lines writes them; any other writes nothing. */
  ghost function WritesOf(s: Section): seq<Write>
    requires MarksFile(s.marker)
  {
    var name, lines := Strip(s.marker[5..]), Fenced(s.body);
    if name != "" && lines != [] then [Write(name, JoinLines(lines))] else []
  }

  ghost function AllWrites(sections: seq<Section>): seq<Write>
    requires forall s :: s in sections ==> IsSection(s)
  {
    if sections == [] then []
    else
      var last := sections[|sections| - 1];
      assert last in sections && IsSection(last);
      AllWrites(sections[..|sections| - 1]) + WritesOf(last)
  }

  lemma FeedOne(st: State, line: string)
    ensures FeedAll(st, [line]) == Feed(st, line)
  {
    assert [line][1..] == [];
  }

  /** The state after the lines `body` of a section that began in state `st`. */
  ghost function Within(st: State, body: seq<string>): State {
    State(st.file, if st.file != "" then Fenced(body) else [], FenceCount(body) % 2 == 1, st.written)
  }

  lemma FencedNext(body: seq<string>, line: string)
    ensures FenceCount(body + [line]) == FenceCount(body) + if MarksFence(line) then 1 else 0
    ensures FenceCount(body) % 2 == 1 && !MarksFence(line) ==> Fenced(body + [line]) == Fenced(body) + [line]
    ensures !(FenceCount(body) % 2 == 1 && !MarksFence(line)) ==> Fenced(body + [line]) == Fenced(body)
  {
    assert (body + [line])[..|body|] == body;
    assert Fenced(body) + [] == Fenced(body);
  }

  lemma FeedLine(st: State, line: string)
    requires !MarksFile(line)
    ensures Feed(st, line) == if MarksFence(line) then st.(inBlock := !st.inBlock)
                              else if st.inBlock && st.file != "" then st.(content := st.content + [line])
                              else st
  {
    MarkersAre(line);
  }

  lemma FeedWithin(st: State, body: seq<string>, line: string)
    requires !MarksFile(line)
    ensures Feed(Within(st, body), line) == Within(st, body + [line])
  {
    FeedLine(Within(st, body), line);
    FencedNext(body, line);
  }

  lemma {:induction false} FeedBody(st: State, body: seq<string>)
    requires NoMarker(body) && !st.inBlock && st.content == []
    ensures FeedAll(st, body) == Within(st, body)
  {
    if body == [] {
    } else {
      var front, last := body[..|body| - 1], body[|body| - 1];
      assert body == front + [last];
      assert last in body;
      FeedBody(st, front);
      FeedConcat(st, front, [last]);
      FeedOne(FeedAll(st, front), last);
      FeedWithin(st, front, last);
    }
  }

  lemma FeedSection(st: State, s: Section)
    requires IsSection(s)
    ensures Flushed(FeedAll(st, [s.marker] + s.body)) == Flushed(st) + WritesOf(s)
  {
    MarkersAre(s.marker);
    FeedConcat(st, [s.marker], s.body);
    FeedOne(st, s.marker);
    FeedBody(Feed(st, s.marker), s.body);
  }

  lemma {:induction false} FeedSections(st: State, sections: seq<Section>)
    requires forall s :: s in sections ==> IsSection(s)
    ensures Flushed(FeedAll(st, LinesOf(sections))) == Flushed(st) + AllWrites(sections)
  {
    if sections == [] {
      assert Flushed(st) + [] == Flushed(st);
    } else {
      var front, last := sections[..|sections| - 1], sections[|sections| - 1];
      FeedSections(st, front);
      FeedConcat(st, LinesOf(front), [last.marker] + last.body);
      FeedSection(FeedAll(st, LinesOf(front)), last);
      ConcatAssociates(Flushed(st), AllWrites(front), WritesOf(last));
    }
  }

  /** What a reply writes: one file for each section with a name and fenced lines, in order, and nothing else. */
  lemma ParsedBySections(reply: string, preface: seq<string>, sections: seq<Section>)
    requires SplitLines(reply) == preface + LinesOf(sections)
    requires NoMarker(preface) && forall s :: s in sections ==> IsSection(s)
    ensures Parse(reply) == AllWrites(sections)
  {
    FeedConcat(START, preface, LinesOf(sections));
    FeedBody(START, preface);
    FeedSections(FeedAll(START, preface), sections);
    assert [] + AllWrites(sections) == AllWrites(sections);
  }

  /** Every reply has sections. */
  lemma {:induction false} SectionsOf(lines: seq<string>) returns (preface: seq<string>, sections: seq<Section>)
    ensures lines == preface + LinesOf(sections)
    ensures NoMarker(preface) && forall s :: s in sections ==> IsSection(s)
  {
    if lines == [] {
      preface, sections := [], [];
    } else {
      var last := lines[|lines| - 1];
      preface, sections := SectionsOf(lines[..|lines| - 1]);
      assert lines == lines[..|lines| - 1] + [last];
      if MarksFile(last) {
        SectionAdded(sections, Section(last, []));
        ConcatAssociates(preface, LinesOf(sections), [last]);
        sections := sections + [Section(last, [])];
      } else if sections == [] {
        preface := preface + [last];
      } else {
        ConcatAssociates(preface, LinesOf(sections), [last]);
        sections := SectionExtended(sections, last);
      }
    }
  }

  lemma SectionAdded(sections: seq<Section>, s: Section)
    ensures LinesOf(sections + [s]) == LinesOf(sections) + ([s.marker] + s.body)
  {
    assert (sections + [s])[..|sections|] == sections;
  }

  lemma SectionExtended(sections: seq<Section>, line: string) returns (longer: seq<Section>)
    requires sections != [] && !MarksFile(line) && forall s :: s in sections ==> IsSection(s)
    ensures LinesOf(longer) == LinesOf(sections) + [line] && forall s :: s in longer ==> IsSection(s)
  {
    var front, last := sections[..|sections| - 1], sections[|sections| - 1];
    var s := Section(last.marker, last.body + [line]);
    longer := front + [s];
    assert last in sections;
    SectionAdded(front, s);
    assert LinesOf(front) + ([s.marker] + s.body) == LinesOf(front) + ([last.marker] + last.body) + [line];
  }

  // ---------------------------------------------------------------------------
  // The parser loop
  // ---------------------------------------------------------------------------

  function NamesOf(writes: seq<Write>, canWrite: string -> bool): seq<string> {
    if writes == [] then []
    else NamesOf(writes[..|writes| - 1], canWrite) +
         if canWrite(writes[|writes| - 1].name) then [writes[|writes| - 1].name] else []
  }

  /** The names listed are those of the writes that succeeded, in order. */
  lemma {:induction false} NamesOfSucceeded(writes: seq<Write>, canWrite: string -> bool)
    ensures var done := Filter(writes, (w: Write) => canWrite(w.name)); var names := NamesOf(writes, canWrite);
            |names| == |done| && forall i :: 0 <= i < |done| ==> names[i] == done[i].name
  {
    if writes == [] {
    } else {
      NamesOfSucceeded(writes[..|writes| - 1], canWrite);
    }
  }

  /** `_write_fixed_file`: a write that fails is logged and not listed. */
  method WriteFixedFile(attempted: seq<Write>, fixed: seq<string>, w: Write, canWrite: string -> bool)
    returns (attempted': seq<Write>, fixed': seq<string>)
    requires fixed == NamesOf(attempted, canWrite)
    ensures attempted' == attempted + [w] && fixed' == NamesOf(attempted', canWrite)
  {
    attempted' := attempted + [w];
    assert attempted'[..|attempted|] == attempted;
    fixed' := if canWrite(w.name) then fixed + [w.name] else fixed;
  }

  /** The files written and, of these, the paths reported as fixed. */
  method ApplyLlmFixes(reply: string, canWrite: string -> bool) returns (attempted: seq<Write>, fixed: seq<string>)
    ensures attempted == Parse(reply) && fixed == NamesOf(attempted, canWrite)
  {
    attempted, fixed := [], [];
    var lines := SplitLines(reply);
    var currentFile, currentContent: seq<string>, inCodeBlock := "", [], false;
    for i := 0 to |lines|
      invariant FeedAll(State(currentFile, currentContent, inCodeBlock, attempted), lines[i..])
             == FeedAll(START, lines)
      invariant fixed == NamesOf(attempted, canWrite)
    {
      var line := lines[i];
      assert lines[i..][0] == line && lines[i..][1..] == lines[i + 1..];
      if StartsWith(line, "FILE:") {
        if currentFile != "" && currentContent != [] {
          attempted, fixed := WriteFixedFile(attempted, fixed, Write(currentFile, JoinLines(currentContent)), canWrite);
        }
        currentFile := Strip(line[5..]);
        currentContent := [];
        inCodeBlock := false;
        continue;
      }
      if StartsWith(Strip(line), "```") {
        inCodeBlock := !inCodeBlock;
        continue;
      }
      if inCodeBlock && currentFile != "" {
        currentContent := currentContent + [line];
      }
    }
    assert lines[|lines|..] == [];
    if currentFile != "" && currentContent != [] {
      attempted, fixed := WriteFixedFile(attempted, fixed, Write(currentFile, JoinLines(currentContent)), canWrite);
    }
  }
}
