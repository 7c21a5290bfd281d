/** The line classes and the block parser of the changelog cutter
    (scripts/changelog_cut.py).

    `Parse` is the meaning of the index loops in `blocks`.  `Canonical` describes,
    without reference to the parser, which block lists can come out of it, and the
    two are proved to describe each other (`ParseIsCanonical`, `ReadsBackIff`). */
module ChangelogBlocks {
  import opened Basics

  /** The characters `str.strip` removes. */
  predicate IsSpace(c: char) {
    || '\t' <= c <= '\r' || '\U{1C}' <= c <= ' '
    || c == '\U{85}' || c == '\U{A0}' || c == '\U{1680}' || '\U{2000}' <= c <= '\U{200A}'
    || c == '\U{2028}' || c == '\U{2029}' || c == '\U{202F}' || c == '\U{205F}' || c == '\U{3000}'
  }

  /** These characters, written out. */
  lemma SpaceIff(c: char)
    ensures IsSpace(c) <==>
            c in "\t\n\U{B}\U{C}\r\U{1C}\U{1D}\U{1E}\U{1F} \U{85}\U{A0}\U{1680}"
                 + "\U{2000}\U{2001}\U{2002}\U{2003}\U{2004}\U{2005}\U{2006}\U{2007}\U{2008}\U{2009}\U{200A}"
                 + "\U{2028}\U{2029}\U{202F}\U{205F}\U{3000}"
  {
    var a := "\t\n\U{B}\U{C}\r\U{1C}\U{1D}\U{1E}\U{1F} \U{85}\U{A0}\U{1680}";
    var b := "\U{2000}\U{2001}\U{2002}\U{2003}\U{2004}\U{2005}\U{2006}\U{2007}\U{2008}\U{2009}\U{200A}";
    if '\t' <= c <= '\r' { assert a[c as int - 9] == c; }
    if '\U{1C}' <= c <= ' ' { assert a[c as int - 23] == c; }
    if '\U{2000}' <= c <= '\U{200A}' { assert b[c as int - 0x2000] == c; }
    assert a[10] == '\U{85}' && a[11] == '\U{A0}' && a[12] == '\U{1680}';
  }

  predicate IsBlank(line: string) {
    forall i | 0 <= i < |line| :: IsSpace(line[i])
  }

  predicate IsIndented(line: string) {
    line != "" && (line[0] == ' ' || line[0] == '\t')
  }

  predicate IsItem(line: string) {
    "- " <= line || "* " <= line
  }

  /** A `### Category` line. */
  predicate IsCategory(line: string) {
    "### " <= line
  }

  /** What the parser sees of a line. */
  datatype Class = Blank | Category | Entry | Indented | Text

  function ClassOf(line: string): (c: Class) {
    if IsBlank(line) then Blank
    else if IsCategory(line) then Category
    else if IsItem(line) then Entry
    else if IsIndented(line) then Indented
    else Text
  }

  /** The order in which the classes are told apart does not matter, except that an
      indented line may be blank: the tests the parser makes on a line are exactly tests
      of its class. */
  lemma ClassOfTests(line: string)
    ensures ClassOf(line) == Blank <==> IsBlank(line)
    ensures ClassOf(line) == Category <==> "### " <= line
    ensures ClassOf(line) == Entry <==> "- " <= line || "* " <= line
    ensures ClassOf(line) == Indented <==> !IsBlank(line) && (line[0] == ' ' || line[0] == '\t')
    ensures IsCategory(line) ==> !("## " <= line)
  {
    if IsCategory(line) {
      assert line[..4] == "### ";
      assert line[0] == '#' && line[2] == '#';
    } else if IsItem(line) {
      assert line[0] == '-' || line[0] == '*';
    }
  }

  /** A line with its class, and whether it starts a release section (`## `). */
  datatype Line = Line(text: string, cls: Class, release: bool)

  function Read(text: string): (l: Line) {
    Line(text, ClassOf(text), "## " <= text)
  }

  /** A text without a line end. */
  predicate OneLine(s: string) {
    forall k | 0 <= k < |s| :: s[k] != '\n'
  }

  datatype Kind = Heading | Item | Other

  datatype Block = Block(blanks: seq<Line>, lines: seq<Line>, kind: Kind)

  /** Lines `s[i..j]` are all blank. */
  predicate BlankRange(s: seq<Line>, i: nat, j: nat)
    requires i <= j <= |s|
  {
    forall k | i <= k < j :: s[k].cls == Blank
  }

  predicate AllBlank(s: seq<Line>) {
    BlankRange(s, 0, |s|)
  }

  /** The first non-blank position at or after `i`. */
  function SkipBlanks(s: seq<Line>, i: nat): (j: nat)
    requires i <= |s|
    ensures i <= j <= |s| && BlankRange(s, i, j)
    ensures j < |s| ==> s[j].cls != Blank
    decreases |s| - i
  {
    if i == |s| || s[i].cls != Blank then i else SkipBlanks(s, i + 1)
  }

  function KindOf(c: Class): (k: Kind) {
    if c == Category then Heading else if c == Entry then Item else Other
  }

  /** Does a non-blank line of class `c` continue an open block of kind `kind`? */
  predicate Continues(kind: Kind, c: Class) {
    c == Indented || (kind == Other && c == Text)
  }

  /** Where a block of kind `kind` that is open at position `i` ends. */
  function EndOf(kind: Kind, s: seq<Line>, i: nat): (e: nat)
    requires i <= |s|
    ensures i <= e <= |s|
    decreases |s| - i
  {
    if i == |s| then i
    else if s[i].cls == Blank then
      var j := SkipBlanks(s, i);
      if j < |s| && s[j].cls == Indented then EndOf(kind, s, j + 1) else i
    else if Continues(kind, s[i].cls) then EndOf(kind, s, i + 1)
    else i
  }

  /** Where the block starting with the non-blank line `s[b]` ends. */
  function BlockEnd(s: seq<Line>, b: nat): (e: nat)
    requires b < |s|
    ensures b < e <= |s|
  {
    if s[b].cls == Category then b + 1 else EndOf(KindOf(s[b].cls), s, b + 1)
  }

  /** The block whose blank lines start at `i` and whose own lines start at `b`. */
  function BlockAt(s: seq<Line>, i: nat, b: nat): (block: Block)
    requires i <= b < |s|
  {
    Block(s[i..b], s[b..BlockEnd(s, b)], KindOf(s[b].cls))
  }

  function ParseFrom(s: seq<Line>, i: nat): (bs: seq<Block>)
    requires i <= |s|
    decreases |s| - i
  {
    var b := SkipBlanks(s, i);
    if b == |s| then [] else [BlockAt(s, i, b)] + ParseFrom(s, BlockEnd(s, b))
  }

  /** The meaning of `blocks`. */
  function Parse(body: seq<Line>): (bs: seq<Block>) {
    ParseFrom(body, 0)
  }

  function Flatten(bs: seq<Block>): (s: seq<Line>) {
    if bs == [] then [] else bs[0].blanks + bs[0].lines + Flatten(bs[1..])
  }

  /** A block that the parser can produce, looked at alone. */
  predicate BlockOk(b: Block) {
    && AllBlank(b.blanks)
    && b.lines != [] && b.lines[0].cls != Blank
    && b.kind == KindOf(b.lines[0].cls)
    && BlockEnd(b.lines, 0) == |b.lines|
  }

  /** `b` cannot be read as a continuation of the block `a` right before it. */
  predicate Separated(a: Block, b: Block)
    requires b.lines != []
  {
    var c := b.lines[0].cls;
    a.kind == Heading || (if b.blanks != [] then c != Indented else !Continues(a.kind, c))
  }

  predicate Canonical(bs: seq<Block>) {
    && (forall i | 0 <= i < |bs| :: BlockOk(bs[i]))
    && (forall i | 0 < i < |bs| :: Separated(bs[i - 1], bs[i]))
  }

  /** The lines of `s` from `i` on are the blocks `bs`, then only blank lines. */
  predicate Spells(s: seq<Line>, i: nat, bs: seq<Block>)
    requires i <= |s|
    decreases bs
  {
    if bs == [] then BlankRange(s, i, |s|)
    else
      var n, m := |bs[0].blanks|, |bs[0].lines|;
      && i + n + m <= |s|
      && s[i..i + n] == bs[0].blanks
      && s[i + n..i + n + m] == bs[0].lines
      && Spells(s, i + n + m, bs[1..])
  }

  // ----- How far an open block reaches

  lemma SkipBlanksUnique(s: seq<Line>, i: nat, j: nat)
    requires i <= j <= |s| && BlankRange(s, i, j)
    requires j < |s| ==> s[j].cls != Blank
    ensures SkipBlanks(s, i) == j
  {
  }

  /** `a[j..]` is a copy of the lines of `s` that start at `j + d`. */
  predicate CopyAt(a: seq<Line>, j: nat, s: seq<Line>, d: nat) {
    && j <= |a| && |a| + d <= |s|
    && (forall k | j <= k < |a| :: a[k] == s[k + d])
  }

  lemma CopySkip(a: seq<Line>, j: nat, s: seq<Line>, d: nat)
    requires CopyAt(a, j, s, d)
    ensures SkipBlanks(a, j) < |a| ==> SkipBlanks(s, j + d) == SkipBlanks(a, j) + d
    ensures SkipBlanks(s, j + d) < |a| + d ==> SkipBlanks(s, j + d) == SkipBlanks(a, j) + d
  {
    var f := SkipBlanks(s, j + d);
    if f < |a| + d {
      forall k | j <= k < f - d ensures a[k].cls == Blank {
        assert a[k] == s[k + d];
      }
      SkipBlanksUnique(a, j, f - d);
    } else {
      forall k | j <= k < |a| ensures a[k].cls == Blank {
        assert a[k] == s[k + d];
      }
      SkipBlanksUnique(a, j, |a|);
    }
  }

  /** A block that takes the whole of `a` takes its copy in `s`, and goes on from there. */
  lemma {:induction false} EndGoesOn(kind: Kind, a: seq<Line>, j: nat, s: seq<Line>, d: nat)
    requires CopyAt(a, j, s, d) && EndOf(kind, a, j) == |a|
    ensures EndOf(kind, s, j + d) == EndOf(kind, s, |a| + d)
    decreases |a| - j
  {
    if j < |a| {
      assert a[j] == s[j + d];
      if a[j].cls == Blank {
        CopySkip(a, j, s, d);
        var m := SkipBlanks(a, j);
        assert a[m] == s[m + d];
        EndGoesOn(kind, a, m + 1, s, d);
      } else {
        EndGoesOn(kind, a, j + 1, s, d);
      }
    }
  }

  /** A block ends with its copy, if what follows the copy stops it. */
  lemma EndExtend(kind: Kind, a: seq<Line>, s: seq<Line>, d: nat, e: nat)
    requires a != [] && CopyAt(a, 0, s, d) && EndOf(kind, a, 1) == |a|
    requires e == d + |a| && EndOf(kind, s, e) == e
    ensures EndOf(kind, s, d + 1) == e
  {
    EndGoesOn(kind, a, 1, s, d);
  }

  /** The lines a block takes are taken whole when they stand alone. */
  lemma {:induction false} EndTruncate(kind: Kind, a: seq<Line>, j: nat, s: seq<Line>, d: nat)
    requires CopyAt(a, j, s, d) && EndOf(kind, s, j + d) == |a| + d
    ensures EndOf(kind, a, j) == |a|
    decreases |a| - j
  {
    if j < |a| {
      assert a[j] == s[j + d];
      if a[j].cls == Blank {
        CopySkip(a, j, s, d);
        var m := SkipBlanks(a, j);
        assert a[m] == s[m + d];
        EndTruncate(kind, a, m + 1, s, d);
      } else {
        EndTruncate(kind, a, j + 1, s, d);
      }
    }
  }

  /** A block that has ended does not start again. */
  lemma {:induction false} EndStops(kind: Kind, s: seq<Line>, i: nat)
    requires i <= |s|
    ensures EndOf(kind, s, EndOf(kind, s, i)) == EndOf(kind, s, i)
    decreases |s| - i
  {
    if i < |s| {
      if s[i].cls == Blank {
        var j := SkipBlanks(s, i);
        if j < |s| && s[j].cls == Indented { EndStops(kind, s, j + 1); }
      } else if Continues(kind, s[i].cls) {
        EndStops(kind, s, i + 1);
      }
    }
  }

  /** At position `i`, where the lines of `b` follow, an open block `a` stops exactly when
      the two are separated. */
  lemma SeparatedStops(a: Block, b: Block, s: seq<Line>, i: nat)
    requires a.kind != Heading && BlockOk(b)
    requires i + |b.blanks| + |b.lines| <= |s|
    requires s[i..i + |b.blanks|] == b.blanks
    requires s[i + |b.blanks|] == b.lines[0]
    ensures Separated(a, b) <==> EndOf(a.kind, s, i) == i
  {
    var n := |b.blanks|;
    forall k | i <= k < i + n ensures s[k].cls == Blank {
      assert s[k] == b.blanks[k - i];
    }
    SkipBlanksUnique(s, i, i + n);
  }

  // ----- The parser and its output describe each other

  lemma CopySlice(s: seq<Line>, i: nat, e: nat)
    requires i <= e <= |s|
    ensures CopyAt(s[i..e], 0, s, i)
  {
  }

  lemma BlockAtOk(s: seq<Line>, i: nat, b: nat)
    requires i <= b < |s| && BlankRange(s, i, b) && s[b].cls != Blank
    ensures BlockOk(BlockAt(s, i, b))
  {
    var blanks, lines := s[i..b], s[b..BlockEnd(s, b)];
    forall k | 0 <= k < |blanks| ensures blanks[k].cls == Blank {
      assert blanks[k] == s[k + i];
    }
    assert lines[0] == s[b];
    if s[b].cls != Category {
      CopySlice(s, b, BlockEnd(s, b));
      EndTruncate(KindOf(s[b].cls), lines, 1, s, b);
    }
  }

  /** Two blocks that follow each other in the text are separated. */
  lemma BlockAtSeparated(s: seq<Line>, i: nat, b: nat, c: nat)
    requires i <= b < |s| && BlankRange(s, i, b) && s[b].cls != Blank
    requires var e := BlockEnd(s, b);
             e <= c < |s| && BlankRange(s, e, c) && s[c].cls != Blank
    ensures BlockAt(s, BlockEnd(s, b), c).lines != []
    ensures Separated(BlockAt(s, i, b), BlockAt(s, BlockEnd(s, b), c))
  {
    var e := BlockEnd(s, b);
    var next := BlockAt(s, e, c);
    BlockAtOk(s, e, c);
    if s[b].cls != Category {
      EndStops(KindOf(s[b].cls), s, b + 1);
      SeparatedStops(BlockAt(s, i, b), next, s, e);
    }
  }

  /** `blocks` loses nothing but the trailing blank lines. */
  lemma {:induction false} ParseSpells(s: seq<Line>, i: nat)
    requires i <= |s|
    ensures Spells(s, i, ParseFrom(s, i))
    decreases |s| - i
  {
    var b := SkipBlanks(s, i);
    if b < |s| {
      var e := BlockEnd(s, b);
      ParseSpells(s, e);
      assert ParseFrom(s, i)[1..] == ParseFrom(s, e);
    }
  }

  /** Everything `blocks` returns is canonical. */
  lemma {:induction false} ParseIsCanonical(s: seq<Line>, i: nat)
    requires i <= |s|
    ensures Canonical(ParseFrom(s, i))
    decreases |s| - i
  {
    var bs, b := ParseFrom(s, i), SkipBlanks(s, i);
    if b < |s| {
      var e := BlockEnd(s, b);
      var tail := ParseFrom(s, e);
      ParseIsCanonical(s, e);
      BlockAtOk(s, i, b);
      if tail != [] { BlockAtSeparated(s, i, b, SkipBlanks(s, e)); }
      CanonicalCons(BlockAt(s, i, b), tail);
    }
  }

  lemma CanonicalCons(b: Block, tail: seq<Block>)
    requires BlockOk(b) && Canonical(tail)
    requires tail != [] ==> Separated(b, tail[0])
    ensures Canonical([b] + tail)
  {
    var bs := [b] + tail;
    forall k | 0 < k < |bs| ensures bs[k].lines != [] && Separated(bs[k - 1], bs[k]) {
      assert bs[k] == tail[k - 1];
      if k > 1 { assert bs[k - 1] == tail[k - 2]; }
    }
  }

  /** Blank lines copied into `s` before a non-blank line are skipped there. */
  lemma SkipCopied(blanks: seq<Line>, s: seq<Line>, i: nat)
    requires AllBlank(blanks) && i + |blanks| < |s|
    requires s[i..i + |blanks|] == blanks && s[i + |blanks|].cls != Blank
    ensures SkipBlanks(s, i) == i + |blanks|
  {
    var n := i + |blanks|;
    forall k | i <= k < n ensures s[k].cls == Blank {
      assert s[k] == blanks[k - i];
    }
    SkipBlanksUnique(s, i, n);
  }

  lemma FirstOfSlice(s: seq<Line>, n: nat, lines: seq<Line>)
    requires lines != [] && n + |lines| <= |s| && s[n..n + |lines|] == lines
    ensures s[n] == lines[0] && CopyAt(lines, 0, s, n)
  {
    CopySlice(s, n, n + |lines|);
    assert s[n] == s[n..n + |lines|][0];
  }

  lemma OkEnd(b: Block)
    requires BlockOk(b)
    ensures b.kind == Heading ==> |b.lines| == 1
    ensures b.kind != Heading ==> EndOf(b.kind, b.lines, 1) == |b.lines|
  {
  }

  lemma EntryEnd(s: seq<Line>, n: nat, e: nat)
    requires n < |s| && s[n].cls != Category && EndOf(KindOf(s[n].cls), s, n + 1) == e
    ensures BlockEnd(s, n) == e
  {
  }

  lemma EntryCopied(kind: Kind, lines: seq<Line>, s: seq<Line>, n: nat, e: nat)
    requires lines != [] && CopyAt(lines, 0, s, n) && EndOf(kind, lines, 1) == |lines|
    requires s[n] == lines[0] && kind == KindOf(lines[0].cls) && kind != Heading
    requires e == n + |lines| && EndOf(kind, s, e) == e
    ensures BlockEnd(s, n) == e
  {
    EndExtend(kind, lines, s, n, e);
    EntryEnd(s, n, e);
  }

  /** The lines of a block copied into `s` before something that stops it end there. */
  lemma EndCopied(b: Block, s: seq<Line>, n: nat, e: nat)
    requires BlockOk(b) && e == n + |b.lines| <= |s| && s[n..e] == b.lines
    requires b.kind != Heading ==> EndOf(b.kind, s, e) == e
    ensures s[n] == b.lines[0] && BlockEnd(s, n) == e
  {
    FirstOfSlice(s, n, b.lines);
    OkEnd(b);
    if b.kind != Heading { EntryCopied(b.kind, b.lines, s, n, e); }
  }

  /** The block `b`, followed in `s` by something that stops it, is read as `b`. */
  lemma ReadOne(b: Block, s: seq<Line>, i: nat, n: nat, e: nat)
    requires BlockOk(b) && i <= n < e <= |s|
    requires s[i..n] == b.blanks && s[n..e] == b.lines
    requires b.kind != Heading ==> EndOf(b.kind, s, e) == e
    ensures SkipBlanks(s, i) == n && BlockEnd(s, n) == e && BlockAt(s, i, n) == b
  {
    assert n == i + |b.blanks| && e == n + |b.lines|;
    EndCopied(b, s, n, e);
    SkipCopied(b.blanks, s, i);
  }

  lemma CanonicalTail(bs: seq<Block>)
    requires Canonical(bs) && bs != []
    ensures Canonical(bs[1..])
    ensures bs[1..] != [] ==> BlockOk(bs[1..][0]) && Separated(bs[0], bs[1..][0])
  {
    var tail := bs[1..];
    assert forall k | 0 <= k < |tail| :: tail[k] == bs[k + 1];
    assert forall k | 0 < k < |tail| :: Separated(bs[k], bs[k + 1]);
  }

  lemma SpellsFirst(s: seq<Line>, i: nat, bs: seq<Block>) returns (n: nat, e: nat)
    requires i <= |s| && bs != [] && Spells(s, i, bs)
    ensures n == i + |bs[0].blanks| && e == n + |bs[0].lines| <= |s|
    ensures s[i..n] == bs[0].blanks && s[n..e] == bs[0].lines && Spells(s, e, bs[1..])
  {
    n := i + |bs[0].blanks|;
    e := n + |bs[0].lines|;
  }

  lemma ReadFirst(s: seq<Line>, i: nat, n: nat, e: nat, b: Block, tail: seq<Block>)
    requires i <= n < e <= |s| && BlockOk(b) && s[i..n] == b.blanks && s[n..e] == b.lines && Spells(s, e, tail)
    requires tail != [] ==> BlockOk(tail[0]) && Separated(b, tail[0])
    ensures SkipBlanks(s, i) == n && BlockEnd(s, n) == e && BlockAt(s, i, n) == b
  {
    if b.kind != Heading { ReadStops(s, e, b, tail); }
    ReadOne(b, s, i, n, e);
  }

  lemma ReadStep(s: seq<Line>, i: nat, bs: seq<Block>) returns (n: nat, e: nat)
    requires i <= |s| && bs != [] && Spells(s, i, bs) && BlockOk(bs[0])
    requires bs[1..] != [] ==> BlockOk(bs[1..][0]) && Separated(bs[0], bs[1..][0])
    ensures n < e <= |s| && Spells(s, e, bs[1..])
    ensures SkipBlanks(s, i) == n && BlockEnd(s, n) == e && BlockAt(s, i, n) == bs[0]
  {
    n, e := SpellsFirst(s, i, bs);
    ReadFirst(s, i, n, e, bs[0], bs[1..]);
  }

  /** Reading lines that spell a canonical block list gives the list itself. */
  lemma {:induction false} ReadBack(s: seq<Line>, i: nat, bs: seq<Block>)
    requires i <= |s| && Spells(s, i, bs) && Canonical(bs)
    ensures ParseFrom(s, i) == bs
    decreases bs
  {
    if bs == [] {
      SkipBlanksUnique(s, i, |s|);
    } else {
      CanonicalTail(bs);
      var n, e := ReadStep(s, i, bs);
      ReadBack(s, e, bs[1..]);
    }
  }

  lemma ReadStops(s: seq<Line>, e: nat, b: Block, tail: seq<Block>)
    requires e <= |s| && b.kind != Heading && Spells(s, e, tail)
    requires tail != [] ==> BlockOk(tail[0]) && Separated(b, tail[0])
    ensures EndOf(b.kind, s, e) == e
  {
    if tail == [] {
      SkipBlanksUnique(s, e, |s|);
    } else {
      var n := e + |tail[0].blanks|;
      assert s[n] == s[n..n + |tail[0].lines|][0];
      SeparatedStops(b, tail[0], s, e);
    }
  }

  // ----- The same, over concatenations

  lemma {:induction false} FlattenAppend(a: seq<Block>, b: seq<Block>)
    ensures Flatten(a + b) == Flatten(a) + Flatten(b)
  {
    if a == [] {
      assert a + b == b;
    } else {
      FlattenAppend(a[1..], b);
      assert (a + b)[1..] == a[1..] + b;
      Associate(a[0].blanks + a[0].lines, Flatten(a[1..]), Flatten(b));
    }
  }

  /** Spelling out blocks is concatenating them. */
  lemma {:induction false} SpellsIsFlatten(s: seq<Line>, i: nat, bs: seq<Block>)
    requires i <= |s|
    ensures Spells(s, i, bs) <==>
            Flatten(bs) <= s[i..] && BlankRange(s, i + |Flatten(bs)|, |s|)
    decreases bs
  {
    if bs != [] {
      var n, m := |bs[0].blanks|, |bs[0].lines|;
      var head, rest := bs[0].blanks + bs[0].lines, Flatten(bs[1..]);
      if i + n + m <= |s| {
        SpellsIsFlatten(s, i + n + m, bs[1..]);
        assert s[i..] == s[i..i + n + m] + s[i + n + m..];
        assert s[i..i + n + m] == s[i..i + n] + s[i + n..i + n + m];
        PrefixSplit(head, rest, s[i..i + n + m], s[i + n + m..]);
        if s[i..i + n + m] == head {
          assert s[i..i + n] == head[..n] && s[i + n..i + n + m] == head[n..];
        }
      }
    }
  }

  lemma PrefixSplit<T>(a: seq<T>, b: seq<T>, c: seq<T>, d: seq<T>)
    requires |a| == |c|
    ensures a + b <= c + d <==> a == c && b <= d
  {
    if a + b <= c + d {
      assert forall k | 0 <= k < |a| :: a[k] == (a + b)[k] == (c + d)[k] == c[k];
      assert forall k | 0 <= k < |b| :: b[k] == (a + b)[k + |a|] == (c + d)[k + |a|] == d[k];
    }
  }

  /** `blocks` is lossless: the blocks in order are the body without its trailing blank
      lines. */
  lemma ParseLossless(body: seq<Line>)
    ensures Flatten(Parse(body)) <= body
    ensures AllBlank(body[|Flatten(Parse(body))|..])
  {
    ParseSpells(body, 0);
    SpellsIsFlatten(body, 0, Parse(body));
    assert body[0..] == body;
    var n := |Flatten(Parse(body))|;
    forall k | 0 <= k < |body| - n ensures body[n..][k].cls == Blank {
      assert body[n..][k] == body[k + n];
    }
  }

  lemma SpelledOut(bs: seq<Block>, trailing: seq<Line>)
    requires AllBlank(trailing)
    ensures Spells(Flatten(bs) + trailing, 0, bs)
  {
    var s, n := Flatten(bs) + trailing, |Flatten(bs)|;
    forall k | n <= k < |s| ensures s[k].cls == Blank {
      assert s[k] == trailing[k - n];
    }
    assert s[0..] == s;
    SpellsIsFlatten(s, 0, bs);
  }

  /** Blocks survive being written and read back exactly when they are canonical. */
  lemma ReadsBackIff(bs: seq<Block>, trailing: seq<Line>)
    requires AllBlank(trailing)
    ensures Parse(Flatten(bs) + trailing) == bs <==> Canonical(bs)
  {
    var s := Flatten(bs) + trailing;
    ParseIsCanonical(s, 0);
    if Canonical(bs) {
      SpelledOut(bs, trailing);
      ReadBack(s, 0, bs);
    }
  }

  /** A block that starts with an indented line is the first one, or stands right below
      a heading. */
  lemma IndentedStartIsFirst(body: seq<Line>, i: nat)
    requires i < |Parse(body)|
    ensures BlockOk(Parse(body)[i])
    ensures Parse(body)[i].lines[0].cls == Indented ==> i == 0 || Parse(body)[i - 1].kind == Heading
  {
    ParseIsCanonical(body, 0);
    if i > 0 { assert Separated(Parse(body)[i - 1], Parse(body)[i]); }
  }

  lemma {:induction false} EndNotBlank(kind: Kind, s: seq<Line>, i: nat)
    requires i <= |s|
    ensures EndOf(kind, s, i) > i ==> s[EndOf(kind, s, i) - 1].cls != Blank
    decreases |s| - i
  {
    if i < |s| {
      if s[i].cls == Blank {
        var j := SkipBlanks(s, i);
        if j < |s| && s[j].cls == Indented { EndNotBlank(kind, s, j + 1); }
      } else if Continues(kind, s[i].cls) {
        EndNotBlank(kind, s, i + 1);
      }
    }
  }

  /** A block starts and ends with a non-blank line. */
  lemma BlockEnds(b: Block)
    requires BlockOk(b)
    ensures b.lines[0].cls != Blank && b.lines[|b.lines| - 1].cls != Blank
  {
    if b.lines[0].cls != Category { EndNotBlank(b.kind, b.lines, 1); }
  }

  // ----- Blocks, line by line

  /** Line `i` of a block of kind `kind` belongs to it: a blank line, an indented one, or one more
      line of a paragraph. */
  predicate Belongs(kind: Kind, lines: seq<Line>, i: nat)
    requires 1 <= i < |lines|
  {
    || lines[i].cls == Blank || lines[i].cls == Indented
    || (kind == Other && lines[i].cls == Text && lines[i - 1].cls != Blank)
  }

  predicate KindFits(kind: Kind, first: Class) {
    match first
    case Category => kind == Heading
    case Entry => kind == Item
    case _ => kind == Other
  }

  /** A block, without reference to the parser: blank lines, then lines of which the first and the
      last are not blank; a category is one line, and every later line belongs to the block. */
  predicate WellFormed(b: Block) {
    && (forall k | 0 <= k < |b.blanks| :: b.blanks[k].cls == Blank)
    && b.lines != [] && b.lines[0].cls != Blank && b.lines[|b.lines| - 1].cls != Blank
    && KindFits(b.kind, b.lines[0].cls) && (b.kind == Heading ==> |b.lines| == 1)
    && (forall i | 1 <= i < |b.lines| :: Belongs(b.kind, b.lines, i))
  }

  /** `b` starts anew behind `a`: below a category, with a category or an entry, or as a paragraph
      behind a blank line or a list entry. */
  predicate StartsAnew(a: Block, b: Block)
    requires b.lines != []
  {
    || a.kind == Heading || b.lines[0].cls == Category || b.lines[0].cls == Entry
    || (b.lines[0].cls == Text && (b.blanks != [] || a.kind == Item))
  }

  lemma {:induction false} EndIff(kind: Kind, s: seq<Line>, i: nat)
    requires 1 <= i <= |s| && s[i - 1].cls != Blank && kind != Heading
    ensures EndOf(kind, s, i) == |s| <==> s[|s| - 1].cls != Blank && forall k | i <= k < |s| :: Belongs(kind, s, k)
    decreases |s| - i
  {
    if i < |s| {
      if s[i].cls == Blank {
        var j := SkipBlanks(s, i);
        if j < |s| {
          assert Belongs(kind, s, j) <==> s[j].cls == Indented by { assert s[j - 1].cls == Blank; }
          if s[j].cls == Indented {
            EndIff(kind, s, j + 1);
            assert forall k | i <= k < j :: Belongs(kind, s, k);
          }
        }
      } else {
        assert Belongs(kind, s, i) <==> Continues(kind, s[i].cls);
        if Continues(kind, s[i].cls) { EndIff(kind, s, i + 1); }
      }
    }
  }

  lemma OkIff(b: Block)
    ensures BlockOk(b) <==> WellFormed(b)
  {
    if b.lines != [] && b.lines[0].cls != Blank && b.lines[0].cls != Category {
      EndIff(KindOf(b.lines[0].cls), b.lines, 1);
    }
  }

  lemma SeparatedIff(a: Block, b: Block)
    requires BlockOk(b)
    ensures Separated(a, b) <==> StartsAnew(a, b)
  {
  }

  /** The parser, for every body: it gives the one list of well-formed blocks, each starting anew
      behind the last, that spells the body up to trailing blank lines. */
  lemma ParseIff(body: seq<Line>, bs: seq<Block>)
    ensures Parse(body) == bs <==>
            && Flatten(bs) <= body && AllBlank(body[|Flatten(bs)|..])
            && (forall i | 0 <= i < |bs| :: WellFormed(bs[i]))
            && (forall i | 0 < i < |bs| :: StartsAnew(bs[i - 1], bs[i]))
  {
    CanonicalMeans(bs);
    ParseIsCanonical(body, 0);
    ParseLossless(body);
    if Flatten(bs) <= body && AllBlank(body[|Flatten(bs)|..]) && Canonical(bs) {
      ReadsBackIff(bs, body[|Flatten(bs)|..]);
      assert body == Flatten(bs) + body[|Flatten(bs)|..];
    }
  }

  lemma CanonicalMeans(bs: seq<Block>)
    ensures Canonical(bs) <==>
            (forall i | 0 <= i < |bs| :: WellFormed(bs[i])) && (forall i | 0 < i < |bs| :: StartsAnew(bs[i - 1], bs[i]))
  {
    forall i | 0 <= i < |bs| ensures BlockOk(bs[i]) <==> WellFormed(bs[i]) { OkIff(bs[i]); }
    if forall i | 0 <= i < |bs| :: BlockOk(bs[i]) {
      forall i | 0 < i < |bs| ensures Separated(bs[i - 1], bs[i]) <==> StartsAnew(bs[i - 1], bs[i]) {
        SeparatedIff(bs[i - 1], bs[i]);
      }
    }
  }

  // ----- The loops

  /** The loop over blank lines, which `blocks` runs before a block and as look-ahead. */
  method BlankRunEnd(body: seq<Line>, i: nat) returns (j: nat)
    requires i <= |body|
    ensures j == SkipBlanks(body, i)
  {
    j := i;
    while j < |body| && body[j].cls == Blank
      invariant i <= j <= |body|
      invariant BlankRange(body, i, j)
    {
      j := j + 1;
    }
    SkipBlanksUnique(body, i, j);
  }

  /** The inner loop of `blocks`: the lines of the block whose first line is `body[b]`. */
  method BlockLines(body: seq<Line>, b: nat, kind: Kind) returns (lines: seq<Line>, i: nat)
    requires b < |body|
    ensures i == EndOf(kind, body, b + 1) && lines == body[b..i]
  {
    lines, i := [body[b]], b + 1;
    var n := |body|;
    while i < n
      invariant b < i <= n
      invariant lines == body[b..i]
      invariant EndOf(kind, body, i) == EndOf(kind, body, b + 1)
      decreases n - i
    {
      var line := body[i];
      if line.cls == Blank {
        var j := BlankRunEnd(body, i);
        if j < n && body[j].cls == Indented {
          lines := lines + body[i..j];
          i := j;
          continue;
        }
        break;
      }
      if line.cls == Indented || (kind == Other && line.cls != Entry && line.cls != Category) {
        lines := lines + [line];
        i := i + 1;
        continue;
      }
      break;
    }
  }

  /** One turn of the outer loop of `blocks`, once the blank lines are skipped. */
  method OneBlock(body: seq<Line>, start: nat, b: nat) returns (block: Block, i: nat)
    requires start <= b < |body|
    ensures i == BlockEnd(body, b) && block == BlockAt(body, start, b)
  {
    var blanks, first := body[start..b], body[b];
    if first.cls == Category {
      block, i := Block(blanks, [first], Heading), b + 1;
      assert [first] == body[b..i];
    } else {
      var kind := if first.cls == Entry then Item else Other;
      var lines;
      lines, i := BlockLines(body, b, kind);
      block := Block(blanks, lines, kind);
    }
  }

  /** `blocks`: the index loops with look-ahead over blank lines. */
  method Blocks(body: seq<Line>) returns (out: seq<Block>)
    ensures out == Parse(body)
  {
    out := [];
    var i, n := 0, |body|;
    while i < n
      invariant 0 <= i <= n
      invariant out + ParseFrom(body, i) == Parse(body)
    {
      var b := BlankRunEnd(body, i);
      if b == n { break; }
      var block, e := OneBlock(body, i, b);
      assert ParseFrom(body, i) == [block] + ParseFrom(body, e);
      Associate(out, [block], ParseFrom(body, e));
      out, i := out + [block], e;
    }
  }
}
