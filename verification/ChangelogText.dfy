/** The cut on texts: `main` reads a text, splits it at line ends, and joins the lines it
    writes.  What is proved about lines holds of the texts that go in and come out. */
module ChangelogText {
  import opened Basics
  import opened ChangelogBlocks
  import opened ChangelogSelect
  import opened ChangelogCut

  /** `"\n".join(lines)` */
  function Join(lines: seq<string>): (text: string) {
    if lines == [] then ""
    else if |lines| == 1 then lines[0]
    else lines[0] + "\n" + Join(lines[1..])
  }

  /** The position of the first line end from `i` on, or the length. */
  function LineEnd(text: string, i: nat): (e: nat)
    requires i <= |text|
    ensures i <= e <= |text|
    ensures e < |text| ==> text[e] == '\n'
    ensures forall k | i <= k < e :: text[k] != '\n'
    decreases |text| - i
  {
    if i == |text| || text[i] == '\n' then i else LineEnd(text, i + 1)
  }

  /** `text.split("\n")` */
  function SplitLines(text: string, i: nat): (lines: seq<string>)
    requires i <= |text|
    ensures lines != []
    decreases |text| - i
  {
    var e := LineEnd(text, i);
    [text[i..e]] + (if e == |text| then [] else SplitLines(text, e + 1))
  }

  predicate OneLineEach(lines: seq<string>) {
    forall k | 0 <= k < |lines| :: OneLine(lines[k])
  }

  lemma SliceOneLine(text: string, i: nat, e: nat)
    requires i <= e <= |text| && forall k | i <= k < e :: text[k] != '\n'
    ensures OneLine(text[i..e])
  {
    assert forall k | 0 <= k < e - i :: text[i..e][k] == text[i + k];
  }

  lemma {:induction false} SplitLinesOneLine(text: string, i: nat)
    requires i <= |text|
    ensures OneLineEach(SplitLines(text, i))
    decreases |text| - i
  {
    var e := LineEnd(text, i);
    SliceOneLine(text, i, e);
    if e < |text| { SplitLinesOneLine(text, e + 1); }
  }

  /** The first line of a text that continues with `rest`, which is empty or starts with a
      line end. */
  lemma FirstLine(text: string, i: nat, first: string, rest: string)
    requires i <= |text| && text[i..] == first + rest && OneLine(first)
    requires rest != "" ==> rest[0] == '\n'
    ensures LineEnd(text, i) == i + |first| && text[i..i + |first|] == first
    ensures text[i + |first|..] == rest
  {
    var e := i + |first|;
    assert forall k | 0 <= k < |first| :: (first + rest)[k] == first[k];
    assert forall k | i <= k < e :: text[k] == text[i..][k - i];
    assert rest != "" ==> text[e] == text[i..][|first|];
    LineEndUnique(text, i, e);
    assert text[e..] == text[i..][|first|..];
  }

  /** Text that holds `Join(lines)` from `i` on is split into those lines. */
  lemma {:induction false} SplitJoined(text: string, i: nat, lines: seq<string>)
    requires lines != [] && OneLineEach(lines)
    requires i <= |text| && text[i..] == Join(lines)
    ensures SplitLines(text, i) == lines
    decreases |lines|
  {
    var first, tail := lines[0], lines[1..];
    assert lines == [first] + tail;
    if tail == [] {
      assert first + "" == first;
      FirstLine(text, i, first, "");
    } else {
      assert forall k | 0 <= k < |tail| :: tail[k] == lines[k + 1];
      assert first + "\n" + Join(tail) == first + ("\n" + Join(tail));
      FirstLine(text, i, first, "\n" + Join(tail));
      var e := i + |first|;
      assert text[e + 1..] == text[e..][1..];
      SplitJoined(text, e + 1, tail);
    }
  }

  lemma LineEndUnique(text: string, i: nat, e: nat)
    requires i <= e <= |text| && (e < |text| ==> text[e] == '\n')
    requires forall k | i <= k < e :: text[k] != '\n'
    ensures LineEnd(text, i) == e
  {
  }

  function ReadAll(lines: seq<string>): (s: seq<Line>)
    ensures |s| == |lines| && forall k | 0 <= k < |s| :: s[k] == Read(lines[k])
  {
    seq(|lines|, k requires 0 <= k < |lines| => Read(lines[k]))
  }

  function Texts(s: seq<Line>): (lines: seq<string>)
    ensures |lines| == |s| && forall k | 0 <= k < |s| :: lines[k] == s[k].text
  {
    seq(|s|, k requires 0 <= k < |s| => s[k].text)
  }

  function ReadText(text: string): (s: seq<Line>) {
    ReadAll(SplitLines(text, 0))
  }

  function ReleaseHeading(version: string, date: string): (s: string) {
    "## [" + version + "] \U{2014} " + date
  }

  /** `main`; `None` is exit status 1. */
  function CutText(text: string, version: string, date: string, note: string, tag: Option<string>): (r: Option<string>) {
    var tagLines := if tag.None? then None else Some(ReadText(tag.value));
    var out := Cut(ReadText(text), Read(ReleaseHeading(version, date)), Read(note), tagLines);
    if out.None? then None else Some(Join(Texts(out.value)))
  }

  /** A line as it was read from one line of text. */
  const PROPER: Line -> bool := (l: Line) => l == Read(l.text) && OneLine(l.text)

  /** Reading back what was written gives the lines that were written. */
  lemma WrittenReadsBack(s: seq<Line>)
    requires s != [] && Every(s, PROPER)
    ensures ReadText(Join(Texts(s))) == s
  {
    var lines := Texts(s);
    assert forall k | 0 <= k < |s| :: PROPER(s[k]);
    assert Join(lines)[0..] == Join(lines);
    SplitJoined(Join(lines), 0, lines);
  }

  lemma ReadTextProper(text: string)
    ensures Every(ReadText(text), PROPER)
  {
    SplitLinesOneLine(text, 0);
  }

  lemma HeadingProper(version: string, date: string)
    requires OneLine(version) && OneLine(date)
    ensures PROPER(Read(ReleaseHeading(version, date)))
    ensures Read(ReleaseHeading(version, date)).release
  {
    var h := ReleaseHeading(version, date);
    assert h[..3] == "## ";
    forall k | 0 <= k < |h| ensures h[k] != '\n' {
      var n := |version|;
      if 4 <= k < 4 + n { assert h[k] == version[k - 4]; }
      else if 4 + n + 4 <= k { assert h[k] == date[k - 8 - n]; }
      else if k < 4 { assert h[k] == "## ["[k]; }
      else { assert h[k] == "] \U{2014} "[k - 4 - n]; }
    }
  }

  /** With one-line arguments, the lines of the text that comes out are the lines `Cut`
      writes for the lines of the text that went in. */
  lemma CutTextLines(text: string, version: string, date: string, note: string, tag: Option<string>)
    requires OneLine(version) && OneLine(date) && OneLine(note)
    ensures var doc := ReadText(text);
            var tagLines := if tag.None? then None else Some(ReadText(tag.value));
            var out := CutText(text, version, date, note, tag);
            && (out.Some? <==> Split(doc).Some?)
            && (out.Some? ==>
                  Some(ReadText(out.value)) == Cut(doc, Read(ReleaseHeading(version, date)), Read(note), tagLines))
  {
    var doc := ReadText(text);
    if Split(doc).Some? {
      var tagLines := if tag.None? then None else Some(ReadText(tag.value));
      var heading := Read(ReleaseHeading(version, date));
      ReadTextProper(text);
      HeadingProper(version, date);
      EmptyIsRead();
      EveryCut(doc, heading, Read(note), tagLines, PROPER);
      WrittenReadsBack(Cut(doc, heading, Read(note), tagLines).value);
    }
  }

  lemma EmptyIsRead()
    ensures EMPTY == Read("")
  {
    ClassOfTests("");
  }

  /** The text that comes out: what was up to `[Unreleased]` in front and the older releases at the
      end, unchanged; between them the heading of the version and the date, above it the kept lines
      and below it the moved ones, or the note. */
  lemma TextLayout(text: string, version: string, date: string, note: string, tag: Option<string>)
    returns (top: seq<Line>, below: seq<Line>)
    requires Split(ReadText(text)).Some?
    ensures var Parts(before, body, after) := Split(ReadText(text)).value;
            var tagLines := if tag.None? then None else Some(ReadText(tag.value));
            var heading := Read("## [" + version + "] \U{2014} " + date);
            && CutText(text, version, date, note, tag) == Some(Join(Texts(before + top + [heading] + below + after)))
            && (if KeptLines(body, tagLines) == [] then top == [EMPTY] else SetApart(top, KeptLines(body, tagLines)))
            && SetApart(below, if Moved(body, tagLines) == [] then [Read(note)] else Moved(body, tagLines))
  {
    var tagLines := if tag.None? then None else Some(ReadText(tag.value));
    top, below := CutLayout(ReadText(text), Read(ReleaseHeading(version, date)), Read(note), tagLines);
  }

  lemma ReadTextSingle(text: string)
    ensures Every(ReadText(text), SINGLE)
  {
    SplitLinesOneLine(text, 0);
  }

  /** An entry of the text moves exactly when the tag file has one with the same lines, up to spaces
      at their ends, under `[Unreleased]`. */
  lemma TextMovesIff(text: string, tag: string, b: Block)
    requires Split(ReadText(text)).Some? && b.kind != Heading
    ensures var body := Split(ReadText(text)).value.body;
            b in Select(Parse(body), Side(Released(ReadText(tag)), true)) <==> b in Parse(body) && WasThere(b, ReadText(tag))
  {
    ReadTextSingle(text);
    ReadTextSingle(tag);
    var Parts(before, body, after) := Split(ReadText(text)).value;
    EveryJoin(before + body, after, SINGLE);
    EveryJoin(before, body, SINGLE);
    MovesIff(body, ReadText(tag), b);
  }

  /** Running the script twice with the same tag file: the second run moves nothing exactly
      when what the first one kept is quiet, and then it finds the same entries unreleased. */
  lemma SecondRunMovesNothingIff(text: string, tag: string, version: string, date: string, note: string,
                                 version2: string, date2: string, note2: string)
    requires OneLine(version) && OneLine(date) && OneLine(note)
    requires Split(ReadText(text)).Some?
    ensures var p, released := Split(ReadText(text)).value, Released(ReadText(tag));
            var quiet := Quiet(Select(Parse(p.body), Side(released, false)), released);
            var first := CutText(text, version, date, note, Some(tag));
            && first.Some? && Split(ReadText(first.value)).Some?
            && (SideLines(Split(ReadText(first.value)).value.body, Side(released, true)) == [] <==> quiet)
            && (quiet ==>
                  CutText(first.value, version2, date2, note2, Some(tag)) ==
                  Some(Join(Texts(Assemble(
                    p.before, SideLines(p.body, Side(released, false)), Read(ReleaseHeading(version2, date2)), [], Read(note2),
                    [Read(ReleaseHeading(version, date)), EMPTY]
                    + Release(SideLines(p.body, Side(released, true)), Read(note), p.after))))))
  {
    CutTextLines(text, version, date, note, Some(tag));
    HeadingProper(version, date);
    SecondCutMovesNothingIff(ReadText(text), ReadText(tag), Read(ReleaseHeading(version, date)), Read(note),
                             Read(ReleaseHeading(version2, date2)), Read(note2));
  }
}
