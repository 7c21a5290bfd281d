/** The document-level cut (`split` and `main` of scripts/changelog_cut.py): what the new
    document holds, how it is read back, and when a second cut moves nothing. */
module ChangelogCut {
  import opened Basics
  import opened ChangelogBlocks
  import opened ChangelogSelect
  import opened ChangelogJoin

  const UNRELEASED: string := "## [Unreleased]"
  const EMPTY: Line := Line("", Blank, false)

  datatype Parts = Parts(before: seq<Line>, body: seq<Line>, after: seq<Line>)

  /** The first line with the text of the `[Unreleased]` heading, or the length. */
  function HeadingIndex(doc: seq<Line>, i: nat): (r: nat)
    requires i <= |doc|
    ensures i <= r <= |doc|
    ensures r < |doc| ==> doc[r].text == UNRELEASED
    ensures forall k | i <= k < r :: doc[k].text != UNRELEASED
    decreases |doc| - i
  {
    if i == |doc| || doc[i].text == UNRELEASED then i else HeadingIndex(doc, i + 1)
  }

  /** The first line from `i` on that starts a release section, or the length. */
  function NextRelease(doc: seq<Line>, i: nat): (r: nat)
    requires i <= |doc|
    ensures i <= r <= |doc|
    ensures r < |doc| ==> doc[r].release
    ensures forall k | i <= k < r :: !doc[k].release
    decreases |doc| - i
  {
    if i == |doc| || doc[i].release then i else NextRelease(doc, i + 1)
  }

  /** `split`; `None` is its ValueError. */
  function Split(doc: seq<Line>): (r: Option<Parts>)
    ensures r.Some? <==> exists k :: 0 <= k < |doc| && doc[k].text == UNRELEASED
    ensures r.Some? ==> r.value.before + r.value.body + r.value.after == doc
  {
    var start := HeadingIndex(doc, 0);
    if start == |doc| then None
    else
      var end := NextRelease(doc, start + 1);
      Some(Parts(doc[..start + 1], doc[start + 1..end], doc[end..]))
  }

  /** Every line of `s` passes the test `p`. */
  predicate Every(s: seq<Line>, p: Line -> bool) {
    forall k | 0 <= k < |s| :: p(s[k])
  }

  const PLAIN: Line -> bool := (l: Line) => !l.release

  /** No release section starts in `s`. */
  predicate NoRelease(s: seq<Line>) {
    Every(s, PLAIN)
  }

  function Led(s: seq<Line>): (r: seq<Line>) {
    if s == [] then [] else [EMPTY] + s
  }

  /** The lines `main` writes: `kept` stays unreleased, `moved` goes under `heading`. */
  function Assemble(before: seq<Line>, kept: seq<Line>, heading: Line, moved: seq<Line>, note: Line,
                    after: seq<Line>): (out: seq<Line>)
  {
    before + Led(kept) + [EMPTY, heading, EMPTY] + Release(moved, note, after)
  }

  /** What stands below the new release heading. */
  function Release(moved: seq<Line>, note: Line, after: seq<Line>): (s: seq<Line>) {
    (if moved == [] then [note] else moved) + (if after == [] then [EMPTY] else [EMPTY] + after)
  }

  function TagBody(tag: seq<Line>): (s: seq<Line>) {
    var p := Split(tag);
    if p.None? then [] else p.value.body
  }

  /** The keys of the entries that were unreleased at the tag. */
  function Released(tag: seq<Line>): (keys: set<string>) {
    set b | b in Parse(TagBody(tag)) && b.kind != Heading :: Key(b.lines)
  }

  /** One side of the cut, as lines. */
  function SideLines(body: seq<Line>, keep: Choice): (s: seq<Line>) {
    Trimmed(Flatten(Select(Parse(body), keep)))
  }

  /** What `main` moves, and what it keeps. */
  function Moved(body: seq<Line>, tag: Option<seq<Line>>): (s: seq<Line>) {
    if tag.None? then Trimmed(body) else SideLines(body, Side(Released(tag.value), true))
  }

  function KeptLines(body: seq<Line>, tag: Option<seq<Line>>): (s: seq<Line>) {
    if tag.None? then [] else SideLines(body, Side(Released(tag.value), false))
  }

  /** `main` on lines; `None` is exit status 1. */
  function Cut(doc: seq<Line>, heading: Line, note: Line, tag: Option<seq<Line>>): (r: Option<seq<Line>>) {
    var p := Split(doc);
    if p.None? then None
    else
      var Parts(before, body, after) := p.value;
      Some(Assemble(before, KeptLines(body, tag), heading, Moved(body, tag), note, after))
  }

  /** The two sides, as `main` computes them. */
  method Sides(body: seq<Line>, tag: Option<seq<Line>>) returns (unreleased: seq<Line>, moved: seq<Line>)
    ensures unreleased == KeptLines(body, tag) && moved == Moved(body, tag)
  {
    if tag.Some? {
      var tagBlocks := Blocks(TagBody(tag.value));
      var released := set b | b in tagBlocks && b.kind != Heading :: Key(b.lines);
      var found := Blocks(body);
      unreleased := SelectLines(found, released, false);
      unreleased := Trim(unreleased);
      moved := SelectLines(found, released, true);
      moved := Trim(moved);
    } else {
      unreleased := [];
      moved := Trim(body);
    }
  }

  /** The writing half of `main`. */
  method WriteOut(before: seq<Line>, unreleased: seq<Line>, heading: Line, moved: seq<Line>, note: Line,
                  after: seq<Line>) returns (out: seq<Line>)
    ensures out == Assemble(before, unreleased, heading, moved, note, after)
  {
    out := before;
    if unreleased != [] { out := out + ([EMPTY] + unreleased); }
    assert out == before + Led(unreleased);
    out := out + [EMPTY, heading, EMPTY];
    ghost var upper := out;
    out := out + (if moved != [] then moved else [note]);
    if after != [] {
      out := out + ([EMPTY] + after);
    } else {
      out := out + [EMPTY];
    }
    assert out == upper + Release(moved, note, after);
  }

  /** `main`, run step by step. */
  method CutLines(doc: seq<Line>, heading: Line, note: Line, tag: Option<seq<Line>>)
    returns (r: Option<seq<Line>>)
    ensures r == Cut(doc, heading, note, tag)
  {
    var p := Split(doc);
    if p.None? { return None; }
    var unreleased, moved := Sides(p.value.body, tag);
    var out := WriteOut(p.value.before, unreleased, heading, moved, note, p.value.after);
    return Some(out);
  }

  // ----- Reading the new document

  lemma HeadingIndexUnique(doc: seq<Line>, r: nat)
    requires r < |doc| && doc[r].text == UNRELEASED
    requires forall k | 0 <= k < r :: doc[k].text != UNRELEASED
    ensures HeadingIndex(doc, 0) == r
  {
  }

  lemma NextReleaseUnique(doc: seq<Line>, i: nat, r: nat)
    requires i <= r < |doc| && doc[r].release
    requires forall k | i <= k < r :: !doc[k].release
    ensures NextRelease(doc, i) == r
  {
  }

  /** A document is split where it was put together. */
  lemma SplitJoined(doc: seq<Line>, middle: seq<Line>, rest: seq<Line>)
    requires Split(doc).Some? && NoRelease(middle) && rest != [] && rest[0].release
    ensures var before := Split(doc).value.before;
            Split(before + middle + rest) == Some(Parts(before, middle, rest))
  {
    var before := Split(doc).value.before;
    var start := |before| - 1;
    assert start == HeadingIndex(doc, 0);
    assert forall k | 0 <= k < |before| :: before[k] == doc[k];
    var out, end := before + middle + rest, |before| + |middle|;
    assert forall k | 0 <= k < |before| :: out[k] == before[k];
    HeadingIndexUnique(out, start);
    assert forall k | |before| <= k < end :: out[k] == middle[k - |before|];
    assert out[end] == rest[0];
    NextReleaseUnique(out, start + 1, end);
    assert out[..start + 1] == before && out[start + 1..end] == middle && out[end..] == rest;
  }

  /** The section that is left under `[Unreleased]`. */
  function KeptSection(kept: seq<Line>): (s: seq<Line>) {
    Led(kept) + [EMPTY]
  }

  lemma Regrouped<T>(a: seq<T>, b: seq<T>, x: T, y: T, z: T, r: seq<T>)
    ensures a + b + [x, y, z] + r == a + (b + [x]) + ([y, z] + r)
  {
  }

  /** Splitting the new document gives the old prefix, the kept entries, and the new
      release with the untouched rest of the document below it. */
  lemma SplitAssembled(doc: seq<Line>, kept: seq<Line>, heading: Line, moved: seq<Line>, note: Line)
    requires Split(doc).Some? && NoRelease(kept) && heading.release
    ensures var p := Split(doc).value;
            Split(Assemble(p.before, kept, heading, moved, note, p.after)) ==
            Some(Parts(p.before, KeptSection(kept), [heading, EMPTY] + Release(moved, note, p.after)))
  {
    var p := Split(doc).value;
    var rest := [heading, EMPTY] + Release(moved, note, p.after);
    SplitJoined(doc, KeptSection(kept), rest);
    Regrouped(p.before, Led(kept), EMPTY, heading, EMPTY, Release(moved, note, p.after));
  }

  /** `before` ends with the first line that reads `## [Unreleased]`, `body` goes up to the next
      release heading, and `after` is the rest. */
  predicate SplitAt(p: Parts) {
    && p.before != [] && p.before[|p.before| - 1].text == "## [Unreleased]"
    && (forall k | 0 <= k < |p.before| - 1 :: p.before[k].text != "## [Unreleased]")
    && (forall k | 0 <= k < |p.body| :: !p.body[k].release)
    && (p.after != [] ==> p.after[0].release)
  }

  /** A document is split in this way, and in no other. */
  lemma SplitIff(doc: seq<Line>, p: Parts)
    ensures Split(doc) == Some(p) <==> p.before + p.body + p.after == doc && SplitAt(p)
  {
    if Split(doc) == Some(p) { SplitMeans(doc); }
    if p.before + p.body + p.after == doc && SplitAt(p) { SplitAtIs(doc, p); }
  }

  lemma SplitMeans(doc: seq<Line>)
    requires Split(doc).Some?
    ensures SplitAt(Split(doc).value)
  {
    var p, start := Split(doc).value, HeadingIndex(doc, 0);
    assert forall k | 0 <= k < |p.before| :: p.before[k] == doc[k];
    assert forall k | 0 <= k < |p.body| :: p.body[k] == doc[start + 1 + k];
    if p.after != [] { assert p.after[0] == doc[start + 1 + |p.body|]; }
  }

  lemma SplitAtIs(doc: seq<Line>, p: Parts)
    requires p.before + p.body + p.after == doc && SplitAt(p)
    ensures Split(doc) == Some(p)
  {
    var start, end := |p.before| - 1, |p.before| + |p.body|;
    assert forall k | 0 <= k < |p.before| :: doc[k] == p.before[k];
    assert forall k | |p.before| <= k < end :: doc[k] == p.body[k - |p.before|];
    HeadingIndexUnique(doc, start);
    if p.after != [] {
      assert doc[end] == p.after[0];
      NextReleaseUnique(doc, start + 1, end);
    } else {
      NoNextRelease(doc, start + 1);
    }
    assert doc[..start + 1] == p.before && doc[start + 1..end] == p.body && doc[end..] == p.after;
  }

  lemma NoNextRelease(doc: seq<Line>, i: nat)
    requires i <= |doc| && forall k | i <= k < |doc| :: !doc[k].release
    ensures NextRelease(doc, i) == |doc|
  {
  }

  /** `s` is `m` between two empty lines. */
  predicate SetApart(s: seq<Line>, m: seq<Line>) {
    |s| == |m| + 2 && s[0] == EMPTY && s[|s| - 1] == EMPTY && s[1..|s| - 1] == m
  }

  /** The new document, for every document and with or without a tag file.  What was up to
      `[Unreleased]` stays in front and the older releases stay at the end.  Between them stand the
      new heading, above it the kept lines, and below it the moved ones, or the note if nothing
      moves; one empty line sets each of these apart. */
  lemma CutLayout(doc: seq<Line>, heading: Line, note: Line, tag: Option<seq<Line>>) returns (top: seq<Line>, below: seq<Line>)
    requires Split(doc).Some?
    ensures var Parts(before, body, after) := Split(doc).value;
            && Cut(doc, heading, note, tag) == Some(before + top + [heading] + below + after)
            && (if KeptLines(body, tag) == [] then top == [EMPTY] else SetApart(top, KeptLines(body, tag)))
            && SetApart(below, if Moved(body, tag) == [] then [note] else Moved(body, tag))
  {
    var Parts(before, body, after) := Split(doc).value;
    var kept, moved := KeptLines(body, tag), Moved(body, tag);
    var mid := if moved == [] then [note] else moved;
    top := if kept == [] then [EMPTY] else [EMPTY] + kept + [EMPTY];
    below := [EMPTY] + mid + [EMPTY];
    assert Cut(doc, heading, note, tag) == Some(Assemble(before, kept, heading, moved, note, after));
    LaidOut(before, kept, top, heading, moved, mid, below, note, after);
  }

  lemma LaidOut(before: seq<Line>, kept: seq<Line>, top: seq<Line>, heading: Line, moved: seq<Line>, mid: seq<Line>,
                below: seq<Line>, note: Line, after: seq<Line>)
    requires top == (if kept == [] then [EMPTY] else [EMPTY] + kept + [EMPTY])
    requires mid == (if moved == [] then [note] else moved) && below == [EMPTY] + mid + [EMPTY]
    ensures Assemble(before, kept, heading, moved, note, after) == before + top + [heading] + below + after
  {
    assert Led(kept) + [EMPTY] == top;
    assert Release(moved, note, after) == mid + [EMPTY] + after;
    Regrouped(before, Led(kept), EMPTY, heading, EMPTY, mid + [EMPTY] + after);
    assert [heading, EMPTY] + (mid + [EMPTY] + after) == [heading] + below + after;
    Associate(before + top, [heading] + below, after);
    Associate(before + top, [heading], below);
  }

  // ----- Which lines a side has

  lemma TrimmedParts(s: seq<Line>) returns (a: seq<Line>, b: seq<Line>)
    ensures s == a + Trimmed(s) + b && AllBlank(a) && AllBlank(b)
  {
    var start := SkipBlanks(s, 0);
    var end := LastText(s, start, |s|);
    a, b := s[..start], s[end..];
    forall k | 0 <= k < |b| ensures b[k].cls == Blank { assert b[k] == s[k + end]; }
    forall k | 0 <= k < |a| ensures a[k].cls == Blank { assert a[k] == s[k]; }
  }

  lemma NoneBlank(s: seq<Line>, x: Line)
    requires AllBlank(s) && x.cls != Blank
    ensures multiset(s)[x] == 0
  {
    assert x !in s;
  }

  /** Trimming loses no line that is not blank. */
  lemma TrimKeeps(s: seq<Line>, x: Line)
    requires x.cls != Blank
    ensures multiset(Trimmed(s))[x] == multiset(s)[x]
  {
    var a, b := TrimmedParts(s);
    NoneBlank(a, x);
    NoneBlank(b, x);
  }

  /** A line that carries text: not blank and not a category heading. */
  predicate Carries(x: Line) {
    x.cls != Blank && x.cls != Category
  }

  function CountIn(bs: seq<Block>, x: Line): (n: nat) {
    multiset(Flatten(bs))[x]
  }

  lemma CountCons(b: Block, bs: seq<Block>, x: Line)
    ensures CountIn([b] + bs, x) == multiset(b.blanks + b.lines)[x] + CountIn(bs, x)
  {
    assert ([b] + bs)[1..] == bs;
  }

  lemma HeadingCounts(b: Block, x: Line)
    requires BlockOk(b) && b.kind == Heading && Carries(x)
    ensures multiset(b.blanks + b.lines)[x] == 0
  {
    assert |b.lines| == 1;
    assert forall k | 0 <= k < |b.blanks| :: b.blanks[k].cls == Blank;
    assert x !in b.blanks + b.lines;
  }

  lemma PendingCounts(heading: Option<Block>, b: Block, tail: seq<Block>, x: Line)
    requires Carries(x) && (heading.Some? ==> BlockOk(heading.value) && heading.value.kind == Heading)
    ensures CountIn(Pending(heading) + [b] + tail, x) == multiset(b.blanks + b.lines)[x] + CountIn(tail, x)
  {
    CountCons(b, tail, x);
    if heading.Some? {
      CountCons(heading.value, [b] + tail, x);
      HeadingCounts(heading.value, x);
      assert Pending(heading) + [b] + tail == [heading.value] + ([b] + tail);
    } else {
      assert Pending(heading) + [b] + tail == [b] + tail;
    }
  }

  predicate HeadingOk(h: Option<Block>) {
    h.Some? ==> BlockOk(h.value) && h.value.kind == Heading
  }

  /** Two opposite choices together carry every text line as often as the source. */
  lemma {:induction false} SidesCarry(found: seq<Block>, i: nat, keep: Choice, other: Choice,
                                      h: Option<Block>, g: Option<Block>, x: Line)
    requires i <= |found| && AllOk(found) && Carries(x) && HeadingOk(h) && HeadingOk(g)
    requires forall k | 0 <= k < |found| :: keep(found[k]) != other(found[k])
    ensures CountIn(Chosen(found, i, h, keep), x) + CountIn(Chosen(found, i, g, other), x)
         == CountIn(found[i..], x)
    decreases |found| - i
  {
    if i < |found| {
      var b := found[i];
      assert found[i..] == [b] + found[i + 1..];
      CountCons(b, found[i + 1..], x);
      if b.kind == Heading {
        SidesCarry(found, i + 1, keep, other, Some(b), Some(b), x);
        HeadingCounts(b, x);
      } else if keep(b) {
        SidesCarry(found, i + 1, keep, other, None, g, x);
        PendingCounts(h, b, Chosen(found, i + 1, None, keep), x);
      } else {
        SidesCarry(found, i + 1, keep, other, h, None, x);
        PendingCounts(g, b, Chosen(found, i + 1, None, other), x);
      }
    }
  }

  /** The two sides of a body together carry every text line of the body. */
  lemma BodyConserved(body: seq<Line>, keep: Choice, other: Choice, x: Line)
    requires Carries(x)
    requires forall b: Block {:trigger keep(b)} {:trigger other(b)} :: keep(b) != other(b)
    ensures multiset(SideLines(body, keep))[x] + multiset(SideLines(body, other))[x] == multiset(body)[x]
  {
    var found := Parse(body);
    ParseIsCanonical(body, 0);
    SidesCarry(found, 0, keep, other, None, None, x);
    assert found[0..] == found;
    TrimKeeps(Flatten(Select(found, keep)), x);
    TrimKeeps(Flatten(Select(found, other)), x);
    ParseLossless(body);
    var n := |Flatten(found)|;
    assert body == Flatten(found) + body[n..];
    NoneBlank(body[n..], x);
  }

  lemma AssembledCount(before: seq<Line>, kept: seq<Line>, heading: Line, moved: seq<Line>, note: Line,
                       after: seq<Line>, x: Line)
    requires x.cls != Blank
    ensures multiset(Assemble(before, kept, heading, moved, note, after))[x] ==
            multiset(before)[x] + multiset(kept)[x] + multiset([heading])[x] + multiset(moved)[x]
            + (if moved == [] then multiset([note])[x] else 0) + multiset(after)[x]
  {
    assert multiset([EMPTY, heading, EMPTY])[x] == multiset([heading])[x];
    assert multiset(Led(kept))[x] == multiset(kept)[x];
    assert multiset(Release(moved, note, after))[x] ==
      multiset(moved)[x] + (if moved == [] then multiset([note])[x] else 0) + multiset(after)[x];
  }

  /** Conservation over the whole document, with and without a tag file: every line that is
      neither blank nor a category heading is in the new document exactly as often as in the
      old one, apart from the new release heading and the note written when nothing moves. */
  lemma DocumentConserved(doc: seq<Line>, heading: Line, note: Line, tag: Option<seq<Line>>, x: Line)
    requires Split(doc).Some? && Carries(x)
    ensures var out := Cut(doc, heading, note, tag).value;
            var moved := Moved(Split(doc).value.body, tag);
            multiset(out)[x] == multiset(doc)[x] + multiset([heading])[x]
                                + (if moved == [] then multiset([note])[x] else 0)
  {
    var Parts(before, body, after) := Split(doc).value;
    assert doc == before + body + after;
    if tag.None? {
      TrimKeeps(body, x);
      AssembledCount(before, [], heading, Trimmed(body), note, after, x);
    } else {
      var keep, other := Side(Released(tag.value), false), Side(Released(tag.value), true);
      BodyConserved(body, keep, other, x);
      AssembledCount(before, SideLines(body, keep), heading, SideLines(body, other), note, after, x);
    }
  }

  // ----- Which entries move

  const SINGLE: Line -> bool := (l: Line) => OneLine(l.text)

  lemma ParsedEvery(body: seq<Line>, p: Line -> bool)
    requires Every(body, p)
    ensures EveryIn(Parse(body), p)
  {
    ParseLossless(body);
    assert forall k | 0 <= k < |Flatten(Parse(body))| :: Flatten(Parse(body))[k] == body[k];
    EveryFlatten(Parse(body), p);
  }

  lemma ParsedSingle(body: seq<Line>, b: Block)
    requires Every(body, SINGLE) && b in Parse(body)
    ensures b.lines != [] && SingleLines(b.lines)
  {
    ParsedEvery(body, SINGLE);
    ParseIsCanonical(body, 0);
    var k :| 0 <= k < |Parse(body)| && Parse(body)[k] == b;
    assert Every(b.lines, SINGLE) && BlockOk(b);
    assert forall i | 0 <= i < |b.lines| :: SINGLE(b.lines[i]);
  }

  lemma TagBodyEvery(tag: seq<Line>, p: Line -> bool)
    requires Every(tag, p)
    ensures Every(TagBody(tag), p)
  {
    if Split(tag).Some? {
      var Parts(before, body, after) := Split(tag).value;
      EveryJoin(before + body, after, p);
      EveryJoin(before, body, p);
    }
  }

  /** Some entry that was unreleased at the tag has the same lines as `b`, up to spaces at their
      ends. */
  predicate WasThere(b: Block, tag: seq<Line>) {
    Split(tag).Some? && exists x | x in Parse(Split(tag).value.body) :: x.kind != Heading && SameLines(b.lines, x.lines)
  }

  lemma SideIff(body: seq<Line>, tag: seq<Line>, b: Block)
    requires Every(body, SINGLE) && Every(tag, SINGLE) && b in Parse(body)
    ensures Side(Released(tag), true)(b) <==> WasThere(b, tag)
    ensures Side(Released(tag), false)(b) <==> !WasThere(b, tag)
  {
    ParsedSingle(body, b);
    TagBodyEvery(tag, SINGLE);
    forall x | x in Parse(TagBody(tag)) ensures Key(b.lines) == Key(x.lines) <==> SameLines(b.lines, x.lines) {
      ParsedSingle(TagBody(tag), x);
      KeyIff(b.lines, x.lines);
    }
  }

  /** Of the entries of the body, those that were there at the tag move and the others stay. */
  lemma MovesIff(body: seq<Line>, tag: seq<Line>, b: Block)
    requires Every(body, SINGLE) && Every(tag, SINGLE) && b.kind != Heading
    ensures b in Select(Parse(body), Side(Released(tag), true)) <==> b in Parse(body) && WasThere(b, tag)
    ensures b in Select(Parse(body), Side(Released(tag), false)) <==> b in Parse(body) && !WasThere(b, tag)
  {
    var found := Parse(body);
    assert found[0..] == found;
    ChosenIff(found, 0, None, Side(Released(tag), true), b);
    ChosenIff(found, 0, None, Side(Released(tag), false), b);
    if b in found { SideIff(body, tag, b); }
  }

  // ----- Cutting twice

  lemma {:induction false} FlattenLast(bs: seq<Block>)
    requires AllOk(bs) && bs != []
    ensures Flatten(bs) != [] && Flatten(bs)[|Flatten(bs)| - 1].cls != Blank
  {
    BlockEnds(bs[0]);
    var tail := bs[1..];
    if tail != [] {
      assert forall k | 0 <= k < |tail| :: tail[k] == bs[k + 1];
      FlattenLast(tail);
    }
  }

  /** A side without its outer blank lines. */
  function Bare(bs: seq<Block>): (s: seq<Line>) {
    if bs == [] then [] else bs[0].lines + Flatten(bs[1..])
  }

  lemma TrimBetween(a: seq<Line>, m: seq<Line>)
    requires AllBlank(a) && m != [] && m[0].cls != Blank && m[|m| - 1].cls != Blank
    ensures Trimmed(a + m) == m
  {
    var s, n := a + m, |a|;
    forall k | 0 <= k < n ensures s[k].cls == Blank { assert s[k] == a[k]; }
    assert s[n] == m[0] && s[|s| - 1] == m[|m| - 1];
    SkipBlanksUnique(s, 0, n);
    assert s[n..] == m;
  }

  lemma FlattenBare(bs: seq<Block>)
    requires bs != []
    ensures Flatten(bs) == bs[0].blanks + Bare(bs)
  {
    Associate(bs[0].blanks, bs[0].lines, Flatten(bs[1..]));
  }

  lemma BareEnds(bs: seq<Block>)
    requires AllOk(bs) && bs != []
    ensures var m := Bare(bs); m != [] && m[0].cls != Blank && m[|m| - 1].cls != Blank
  {
    var b, tail := bs[0], bs[1..];
    BlockEnds(b);
    assert Bare(bs)[0] == b.lines[0];
    if tail != [] {
      assert forall k | 0 <= k < |tail| :: tail[k] == bs[k + 1];
      FlattenLast(tail);
    }
  }

  lemma TrimFlatten(bs: seq<Block>)
    requires AllOk(bs)
    ensures Trimmed(Flatten(bs)) == Bare(bs)
  {
    if bs != [] {
      BareEnds(bs);
      FlattenBare(bs);
      TrimBetween(bs[0].blanks, Bare(bs));
    }
  }

  /** The blocks of a side, as they stand below a heading and one empty line. */
  function LedBlocks(bs: seq<Block>): (r: seq<Block>)
    ensures |r| == |bs| && forall k | 0 <= k < |bs| :: r[k].kind == bs[k].kind && r[k].lines == bs[k].lines
    ensures forall k | 0 < k < |bs| :: r[k] == bs[k]
  {
    if bs == [] then [] else [bs[0].(blanks := [EMPTY])] + bs[1..]
  }

  lemma LedCanonical(bs: seq<Block>)
    requires Canonical(bs)
    ensures Canonical(LedBlocks(bs))
  {
    var r := LedBlocks(bs);
    forall k | 0 < k < |r| ensures r[k].lines != [] && Separated(r[k - 1], r[k]) {
      assert Separated(bs[k - 1], bs[k]);
    }
    if r != [] { assert BlockOk(bs[0]); }
  }

  lemma LedFlatten(bs: seq<Block>)
    requires bs != []
    ensures Flatten(LedBlocks(bs)) == [EMPTY] + Bare(bs)
  {
    var r := LedBlocks(bs);
    assert r[1..] == bs[1..];
    FlattenBare(r);
  }

  lemma CanonicalReadsBack(bs: seq<Block>)
    requires Canonical(bs)
    ensures Parse(KeptSection(Bare(bs))) == LedBlocks(bs)
  {
    LedCanonical(bs);
    assert AllBlank([EMPTY]);
    ReadsBackIff(LedBlocks(bs), [EMPTY]);
    if bs != [] {
      assert bs[0].lines != [];
      LedFlatten(bs);
    }
  }

  /** Joining paragraphs changes no line. */
  lemma BareJoined(bs: seq<Block>)
    ensures Bare(Joined(bs)) == Bare(bs)
  {
    if bs != [] {
      JoinedFlatten(bs);
      JoinedTop(bs);
      FlattenBare(bs);
      FlattenBare(Joined(bs));
      var n := |bs[0].blanks|;
      assert Flatten(bs)[n..] == Bare(bs) && Flatten(Joined(bs))[n..] == Bare(Joined(bs));
    }
  }

  /** The section left under `[Unreleased]` reads back as the chosen blocks, with the
      paragraphs joined that ended up right below each other. */
  lemma KeptReadsBack(body: seq<Line>, keep: Choice)
    ensures var bs := Select(Parse(body), keep);
            SideLines(body, keep) == Bare(bs) && Parse(KeptSection(Bare(bs))) == LedBlocks(Joined(bs))
  {
    var bs := Select(Parse(body), keep);
    SideIndents(body, keep);
    TrimFlatten(bs);
    JoinedCanonical(bs);
    CanonicalReadsBack(Joined(bs));
    BareJoined(bs);
  }

  lemma LedSettled(bs: seq<Block>, released: set<string>, want: bool)
    requires Settled(bs, Side(released, want))
    ensures Settled(LedBlocks(bs), Side(released, want))
  {
    var r, keep := LedBlocks(bs), Side(released, want);
    forall k | 0 <= k < |r| && r[k].kind != Heading ensures keep(r[k]) {
      assert keep(bs[k]);
    }
    forall k | 0 <= k < |r| && r[k].kind == Heading ensures k + 1 < |r| && r[k + 1].kind != Heading {
      assert bs[k].kind == Heading;
    }
  }

  predicate EveryIn(bs: seq<Block>, p: Line -> bool) {
    forall k | 0 <= k < |bs| :: Every(bs[k].blanks, p) && Every(bs[k].lines, p)
  }

  lemma EveryJoin(a: seq<Line>, b: seq<Line>, p: Line -> bool)
    ensures Every(a + b, p) <==> Every(a, p) && Every(b, p)
  {
    if Every(a + b, p) {
      assert forall k | 0 <= k < |a| :: a[k] == (a + b)[k];
      assert forall k | 0 <= k < |b| :: b[k] == (a + b)[k + |a|];
    }
  }

  lemma {:induction false} EveryFlatten(bs: seq<Block>, p: Line -> bool)
    ensures Every(Flatten(bs), p) <==> EveryIn(bs, p)
  {
    if bs != [] {
      var tail := bs[1..];
      EveryFlatten(tail, p);
      EveryJoin(bs[0].blanks, bs[0].lines, p);
      EveryJoin(bs[0].blanks + bs[0].lines, Flatten(tail), p);
      assert forall k | 0 <= k < |tail| :: tail[k] == bs[k + 1];
      assert bs == [bs[0]] + tail;
    }
  }

  lemma {:induction false} EveryChosen(found: seq<Block>, i: nat, h: Option<Block>, keep: Choice, p: Line -> bool)
    requires i <= |found| && EveryIn(found, p) && (h.Some? ==> EveryIn([h.value], p))
    ensures EveryIn(Chosen(found, i, h, keep), p)
    decreases |found| - i
  {
    if i < |found| {
      var b := found[i];
      var g := if b.kind == Heading then Some(b) else if keep(b) then None else h;
      EveryChosen(found, i + 1, g, keep, p);
      if h.Some? { assert [h.value][0] == h.value; }
    }
  }

  lemma EveryTrimmed(s: seq<Line>, p: Line -> bool)
    requires Every(s, p)
    ensures Every(Trimmed(s), p)
  {
    var a, b := TrimmedParts(s);
    EveryJoin(a + Trimmed(s), b, p);
    EveryJoin(a, Trimmed(s), p);
  }

  /** The lines of a side are lines of the body. */
  lemma EverySide(body: seq<Line>, keep: Choice, p: Line -> bool)
    requires Every(body, p)
    ensures Every(SideLines(body, keep), p)
  {
    var found := Parse(body);
    ParseLossless(body);
    assert forall k | 0 <= k < |Flatten(found)| :: Flatten(found)[k] == body[k];
    EveryFlatten(found, p);
    EveryChosen(found, 0, None, keep, p);
    EveryFlatten(Select(found, keep), p);
    EveryTrimmed(Flatten(Select(found, keep)), p);
  }

  lemma BodyNoRelease(doc: seq<Line>)
    requires Split(doc).Some?
    ensures NoRelease(Split(doc).value.body)
  {
    var body, start := Split(doc).value.body, HeadingIndex(doc, 0);
    assert forall k | 0 <= k < |body| :: body[k] == doc[k + start + 1];
  }

  /** A side has no release heading in it. */
  lemma SideNoRelease(doc: seq<Line>, keep: Choice)
    requires Split(doc).Some?
    ensures NoRelease(SideLines(Split(doc).value.body, keep))
  {
    BodyNoRelease(doc);
    EverySide(Split(doc).value.body, keep, PLAIN);
  }

  /** Every line of the new document comes from the old one, or is the heading, the note or
      an empty line. */
  lemma EveryCut(doc: seq<Line>, heading: Line, note: Line, tag: Option<seq<Line>>, p: Line -> bool)
    requires Split(doc).Some? && Every(doc, p) && p(heading) && p(note) && p(EMPTY)
    ensures Every(Cut(doc, heading, note, tag).value, p)
  {
    var Parts(before, body, after) := Split(doc).value;
    EveryJoin(before + body, after, p);
    EveryJoin(before, body, p);
    if tag.None? {
      EveryTrimmed(body, p);
      EveryAssembled(before, [], heading, Trimmed(body), note, after, p);
    } else {
      var keep, other := Side(Released(tag.value), false), Side(Released(tag.value), true);
      EverySide(body, keep, p);
      EverySide(body, other, p);
      EveryAssembled(before, SideLines(body, keep), heading, SideLines(body, other), note, after, p);
    }
  }

  lemma EveryAssembled(before: seq<Line>, kept: seq<Line>, heading: Line, moved: seq<Line>, note: Line,
                       after: seq<Line>, p: Line -> bool)
    requires Every(before, p) && Every(kept, p) && Every(moved, p) && Every(after, p)
    requires p(heading) && p(note) && p(EMPTY)
    ensures Every(Assemble(before, kept, heading, moved, note, after), p)
  {
    EveryJoin(before, Led(kept), p);
    EveryJoin(before + Led(kept), [EMPTY, heading, EMPTY], p);
    EveryJoin(before + Led(kept) + [EMPTY, heading, EMPTY], Release(moved, note, after), p);
  }

  /** Reading a kept section again gives the kept lines, and nothing for the other side. */
  lemma SectionAgain(bs: seq<Block>, released: set<string>)
    requires Canonical(bs) && Settled(bs, Side(released, false))
    ensures var body := KeptSection(Bare(bs));
            && SideLines(body, Side(released, false)) == Bare(bs)
            && SideLines(body, Side(released, true)) == []
  {
    var keep, other, r := Side(released, false), Side(released, true), LedBlocks(bs);
    CanonicalReadsBack(bs);
    LedSettled(bs, released, false);
    ChooseAgain(r, 0, None, keep);
    assert Pending(None) + r[0..] == r;
    ChooseOther(r, 0, None, keep, other);
    LedCanonical(bs);
    TrimFlatten(r);
    if bs != [] { assert r[1..] == bs[1..]; }
  }

  /** The entry `b` reads like one that was there at the tag. */
  predicate ReadsReleased(b: Block, released: set<string>) {
    b.kind != Heading && Key(b.lines) in released
  }

  /** None of the kept entries, with the paragraphs joined that end up right below each other,
      reads like a released one. */
  predicate Quiet(kept: seq<Block>, released: set<string>) {
    forall k | 0 <= k < |Joined(kept)| :: !ReadsReleased(Joined(kept)[k], released)
  }

  lemma {:induction false} ChosenSome(found: seq<Block>, i: nat, h: Option<Block>, keep: Choice, k: nat)
    requires i <= k < |found| && found[k].kind != Heading && keep(found[k])
    ensures Chosen(found, i, h, keep) != []
    decreases k - i
  {
    if i < k && !(found[i].kind != Heading && keep(found[i])) {
      ChosenSome(found, i + 1, if found[i].kind == Heading then Some(found[i]) else h, keep, k);
    }
  }

  /** A block that is chosen gives the side a line. */
  lemma SideSome(body: seq<Line>, keep: Choice, k: nat)
    requires k < |Parse(body)| && Parse(body)[k].kind != Heading && keep(Parse(body)[k])
    ensures SideLines(body, keep) != []
  {
    var bs := Select(Parse(body), keep);
    ChosenSome(Parse(body), 0, None, keep, k);
    SideReadsBackIff(body, keep);
    TrimFlatten(bs);
    BareEnds(bs);
  }

  lemma JoinedSettled(bs: seq<Block>, released: set<string>)
    requires HeadingsLead(bs) && Quiet(bs, released)
    ensures Settled(Joined(bs), Side(released, false))
  {
    var r := Joined(bs);
    JoinedHeadings(bs);
    forall i | 0 <= i < |r| && r[i].kind != Heading ensures Side(released, false)(r[i]) {
      assert !ReadsReleased(r[i], released);
    }
  }

  /** The kept section, cut again, gives up nothing exactly when it is quiet; and then all of
      it is kept again. */
  lemma KeptAgainIff(body: seq<Line>, released: set<string>)
    ensures var bs := Select(Parse(body), Side(released, false));
            var again := KeptSection(SideLines(body, Side(released, false)));
            && (SideLines(again, Side(released, true)) == [] <==> Quiet(bs, released))
            && (Quiet(bs, released) ==> SideLines(again, Side(released, false)) == SideLines(body, Side(released, false)))
  {
    var keep := Side(released, false);
    var bs := Select(Parse(body), keep);
    KeptReadsBack(body, keep);
    if Quiet(bs, released) {
      ChosenSettled(Parse(body), 0, None, keep);
      JoinedSettled(bs, released);
      SideIndents(body, keep);
      JoinedCanonical(bs);
      BareJoined(bs);
      SectionAgain(Joined(bs), released);
    } else {
      var k :| 0 <= k < |Joined(bs)| && ReadsReleased(Joined(bs)[k], released);
      SideSome(KeptSection(Bare(bs)), Side(released, true), k);
    }
  }

  /** A second cut of the new document with the same tag file, for every document and every
      tag file.  It moves nothing exactly when what the first cut kept is quiet; then it keeps
      the same lines and writes its note, above the release the first cut made. */
  lemma SecondCutMovesNothingIff(doc: seq<Line>, tag: seq<Line>, heading: Line, note: Line, heading2: Line, note2: Line)
    requires Split(doc).Some? && heading.release
    ensures var p, released := Split(doc).value, Released(tag);
            var kept := SideLines(p.body, Side(released, false));
            var moved := SideLines(p.body, Side(released, true));
            var quiet := Quiet(Select(Parse(p.body), Side(released, false)), released);
            var first := Cut(doc, heading, note, Some(tag)).value;
            && Split(first).Some?
            && (SideLines(Split(first).value.body, Side(released, true)) == [] <==> quiet)
            && (quiet ==>
                  Cut(first, heading2, note2, Some(tag)) ==
                  Some(Assemble(p.before, kept, heading2, [], note2, [heading, EMPTY] + Release(moved, note, p.after))))
  {
    var p, released := Split(doc).value, Released(tag);
    var keep := Side(released, false);
    KeptAgainIff(p.body, released);
    SideNoRelease(doc, keep);
    SplitAssembled(doc, SideLines(p.body, keep), heading, SideLines(p.body, Side(released, true)), note);
  }

  /** Of a body in which no unspaced paragraph stands in a category that already has one, what
      is kept is quiet, whatever the tag file. */
  lemma SafeIsQuiet(body: seq<Line>, released: set<string>)
    requires Safe(Parse(body), 0, false)
    ensures Quiet(Select(Parse(body), Side(released, false)), released)
  {
    var keep := Side(released, false);
    var bs := Select(Parse(body), keep);
    SafeNeverGlues(Parse(body), 0, None, keep, false);
    SideReadsBackIff(body, keep);
    JoinedSameIff(bs);
    ChosenSettled(Parse(body), 0, None, keep);
    forall k | 0 <= k < |Joined(bs)| ensures !ReadsReleased(Joined(bs)[k], released) {
      assert bs[k].kind != Heading ==> keep(bs[k]);
    }
  }

  /** So it is for a document with a blank line before every paragraph that follows a list entry:
      a second cut moves nothing, whatever the tag file. */
  lemma SpacedCutMovesNothing(doc: seq<Line>, tag: seq<Line>, heading: Line, note: Line, heading2: Line, note2: Line)
    requires Split(doc).Some? && heading.release && Spaced(Parse(Split(doc).value.body))
    ensures var p, released := Split(doc).value, Released(tag);
            var kept := SideLines(p.body, Side(released, false));
            var moved := SideLines(p.body, Side(released, true));
            Cut(Cut(doc, heading, note, Some(tag)).value, heading2, note2, Some(tag)) ==
            Some(Assemble(p.before, kept, heading2, [], note2, [heading, EMPTY] + Release(moved, note, p.after)))
  {
    var body := Split(doc).value.body;
    ParseIsCanonical(body, 0);
    SpacedIsSafe(Parse(body), 0, false);
    SafeIsQuiet(body, Released(tag));
    SecondCutMovesNothingIff(doc, tag, heading, note, heading2, note2);
  }

  // ----- The condition is needed

  /** The paragraph `c` follows the entry `b` without a blank line.  At the tag the entry
      was there, and so was one paragraph that reads `a`, `c`. */
  predicate Sample(a: Line, b: Line, c: Line) {
    && a.cls == Text && b.cls == Entry && c.cls == Text
    && !a.release && !b.release && !c.release
    && RightStrip(a.text) != RightStrip(b.text) && RightStrip(c.text) != RightStrip(b.text)
  }

  const UNR: Line := Line(UNRELEASED, Text, true)

  function Body(a: Line, b: Line, c: Line): (s: seq<Line>) { [a, b, c] }
  function BodyAtTag(a: Line, b: Line, c: Line): (s: seq<Line>) { [b, EMPTY, a, c] }

  function Single(l: Line): (b: Block) { Block([], [l], KindOf(l.cls)) }
  function Pair(a: Line, c: Line): (b: Block) { Block([EMPTY], [a, c], Other) }

  lemma SingleOk(l: Line)
    requires l.cls == Text || l.cls == Entry
    ensures BlockOk(Single(l)) && Key(Single(l).lines) == RightStrip(l.text)
  {
  }

  lemma PairOk(a: Line, c: Line)
    requires a.cls == Text && c.cls == Text
    ensures BlockOk(Pair(a, c)) && Key(Pair(a, c).lines) == RightStrip(a.text) + "\n" + RightStrip(c.text)
  {
    var ac := [a, c];
    assert EndOf(Other, ac, 2) == 2;
    assert ac[1..] == [c];
  }

  lemma ParsesAs(s: seq<Line>, bs: seq<Block>, trailing: seq<Line>)
    requires Canonical(bs) && AllBlank(trailing) && s == Flatten(bs) + trailing
    ensures Parse(s) == bs
  {
    ReadsBackIff(bs, trailing);
  }

  lemma FlattenTwo(a: Block, b: Block)
    ensures Flatten([a, b]) == a.blanks + a.lines + (b.blanks + b.lines)
  {
    FlattenOne(b);
    assert [a, b][1..] == [b];
  }

  lemma SampleBody(a: Line, b: Line, c: Line)
    requires Sample(a, b, c)
    ensures Parse(Body(a, b, c)) == [Single(a), Single(b), Single(c)]
  {
    SingleOk(a);
    SingleOk(b);
    SingleOk(c);
    var bs := [Single(a), Single(b), Single(c)];
    FlattenTwo(Single(b), Single(c));
    assert bs[1..] == [Single(b), Single(c)];
    ParsesAs(Body(a, b, c), bs, []);
  }

  lemma SampleTagBody(a: Line, b: Line, c: Line)
    requires Sample(a, b, c)
    ensures Parse(BodyAtTag(a, b, c)) == [Single(b), Pair(a, c)]
  {
    SingleOk(b);
    PairOk(a, c);
    FlattenTwo(Single(b), Pair(a, c));
    ParsesAs(BodyAtTag(a, b, c), [Single(b), Pair(a, c)], []);
  }

  lemma SampleSecond(a: Line, c: Line)
    requires a.cls == Text && c.cls == Text
    ensures Parse(KeptSection([a, c])) == [Pair(a, c)]
  {
    PairOk(a, c);
    FlattenOne(Pair(a, c));
    ParsesAs(KeptSection([a, c]), [Pair(a, c)], [EMPTY]);
  }

  lemma SplitOnly(rest: seq<Line>)
    requires NoRelease(rest)
    ensures Split([UNR] + rest) == Some(Parts([UNR], rest, []))
  {
    var doc := [UNR] + rest;
    HeadingIndexUnique(doc, 0);
    assert forall k | 1 <= k < |doc| :: doc[k] == rest[k - 1];
    assert NextRelease(doc, 1) == |doc|;
    assert doc[..1] == [UNR] && doc[1..|doc|] == rest && doc[|doc|..] == [];
  }

  lemma ReleasedTwo(tag: seq<Line>, x: Block, y: Block)
    requires Parse(TagBody(tag)) == [x, y] && x.kind != Heading && y.kind != Heading
    ensures Released(tag) == {Key(x.lines), Key(y.lines)}
  {
    var bs := [x, y];
    assert bs[0] in bs && bs[1] in bs;
  }

  lemma SampleKeys(a: Line, b: Line, c: Line)
    requires Sample(a, b, c)
    ensures var released := {Key(Single(b).lines), Key(Pair(a, c).lines)};
            Key(Single(a).lines) !in released && Key(Single(c).lines) !in released
  {
    SingleOk(a);
    SingleOk(b);
    SingleOk(c);
    PairOk(a, c);
    assert |Key(Pair(a, c).lines)| == |RightStrip(a.text)| + 1 + |RightStrip(c.text)|;
  }

  lemma SampleReleased(a: Line, b: Line, c: Line)
    requires Sample(a, b, c)
    ensures Released([UNR] + BodyAtTag(a, b, c)) == {Key(Single(b).lines), Key(Pair(a, c).lines)}
  {
    SplitOnly(BodyAtTag(a, b, c));
    SampleTagBody(a, b, c);
    ReleasedTwo([UNR] + BodyAtTag(a, b, c), Single(b), Pair(a, c));
  }

  lemma OuterTwo(a: Block, b: Block, c: Block, keep: Choice)
    requires a.kind != Heading && b.kind != Heading && c.kind != Heading
    requires keep(a) && !keep(b) && keep(c)
    ensures Select([a, b, c], keep) == [a, c]
  {
    var found := [a, b, c];
    assert Chosen(found, 3, None, keep) == [];
    assert Chosen(found, 2, None, keep) == [c];
    assert Chosen(found, 1, None, keep) == [c];
  }

  lemma OnlyOne(b: Block, keep: Choice)
    requires b.kind != Heading && keep(b)
    ensures Select([b], keep) == [b]
  {
    assert Chosen([b], 1, None, keep) == [];
  }

  lemma TrimTwo(a: Block, b: Block)
    requires BlockOk(a) && BlockOk(b)
    ensures Trimmed(Flatten([a, b])) == a.lines + (b.blanks + b.lines)
  {
    TrimFlatten([a, b]);
    assert [a, b][1..] == [b];
    FlattenOne(b);
  }

  lemma TrimOne(a: Block)
    requires BlockOk(a)
    ensures Trimmed(Flatten([a])) == a.lines
  {
    TrimFlatten([a]);
    assert [a][1..] == [];
  }

  lemma SampleKept(a: Line, b: Line, c: Line, keep: Choice)
    requires Sample(a, b, c)
    requires keep(Single(a)) && !keep(Single(b)) && keep(Single(c))
    ensures SideLines(Body(a, b, c), keep) == [a, c]
  {
    SampleBody(a, b, c);
    SingleOk(a);
    SingleOk(c);
    OuterTwo(Single(a), Single(b), Single(c), keep);
    TrimTwo(Single(a), Single(c));
  }

  lemma SampleMoved(a: Line, c: Line, keep: Choice)
    requires a.cls == Text && c.cls == Text && keep(Pair(a, c))
    ensures SideLines(KeptSection([a, c]), keep) == [a, c]
  {
    SampleSecond(a, c);
    PairOk(a, c);
    OnlyOne(Pair(a, c), keep);
    TrimOne(Pair(a, c));
  }

  /** The first cut of the sample, for any released set that splits it this way. */
  lemma SampleCut(a: Line, b: Line, c: Line, released: set<string>, heading: Line, note: Line)
    requires Sample(a, b, c) && heading.release
    requires Key(Single(a).lines) !in released && Key(Single(c).lines) !in released
    requires Key(Single(b).lines) in released && Key(Pair(a, c).lines) in released
    ensures var kept := SideLines(Body(a, b, c), Side(released, false));
            var moved := SideLines(Body(a, b, c), Side(released, true));
            var out := Split(Assemble([UNR], kept, heading, moved, note, []));
            out.Some? && SideLines(out.value.body, Side(released, true)) == [a, c]
  {
    SplitOnly(Body(a, b, c));
    SampleKept(a, b, c, Side(released, false));
    SampleMoved(a, c, Side(released, true));
    SplitAssembled([UNR] + Body(a, b, c), [a, c], heading, SideLines(Body(a, b, c), Side(released, true)), note);
  }

  /** Without the condition a second cut can move what the first one kept: the two
      paragraphs that stayed are read back as one, which was released. */
  lemma SecondCutCanMove(a: Line, b: Line, c: Line, heading: Line, note: Line)
    requires Sample(a, b, c) && heading.release
    ensures var doc, tag := [UNR] + Body(a, b, c), [UNR] + BodyAtTag(a, b, c);
            var out := Cut(doc, heading, note, Some(tag));
            && out.Some? && Split(out.value).Some?
            && SideLines(Split(out.value).value.body, Side(Released(tag), true)) == [a, c]
  {
    SplitOnly(Body(a, b, c));
    SampleReleased(a, b, c);
    SampleKeys(a, b, c);
    SampleCut(a, b, c, Released([UNR] + BodyAtTag(a, b, c)), heading, note);
  }
}
