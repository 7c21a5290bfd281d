/** Choosing the blocks of one side of the cut (`key`, `select` and `trim` of
    scripts/changelog_cut.py), and what that choice does to the document: categories,
    order, and whether the chosen blocks can be read back. */
module ChangelogSelect {
  import opened Basics
  import opened ChangelogBlocks

  function RightStrip(s: string): (r: string) {
    if s != "" && IsSpace(s[|s| - 1]) then RightStrip(s[..|s| - 1]) else s
  }

  /** The text an entry is matched by. */
  function Key(lines: seq<Line>): (k: string) {
    if lines == [] then ""
    else if |lines| == 1 then RightStrip(lines[0].text)
    else RightStrip(lines[0].text) + "\n" + Key(lines[1..])
  }

  // ----- Which texts have the same key

  /** The same up to spaces at the end. */
  predicate SameButSpaces(s: string, t: string) {
    exists n | 0 <= n <= |s| :: n <= |t| && s[..n] == t[..n] && IsBlank(s[n..]) && IsBlank(t[n..])
  }

  /** Line by line the same up to spaces at the end. */
  predicate SameLines(a: seq<Line>, b: seq<Line>) {
    |a| == |b| && forall i | 0 <= i < |a| :: SameButSpaces(a[i].text, b[i].text)
  }

  /** All spaces at the end go, and nothing else. */
  lemma {:induction false} RightStripIs(s: string)
    ensures var r := RightStrip(s); r <= s && IsBlank(s[|r|..]) && (r != "" ==> !IsSpace(r[|r| - 1]))
  {
    if s != "" && IsSpace(s[|s| - 1]) {
      var t := s[..|s| - 1];
      RightStripIs(t);
      var n := |RightStrip(t)|;
      forall k | 0 <= k < |s| - n ensures IsSpace(s[n..][k]) {
        if k < |t| - n { assert s[n..][k] == t[n..][k]; }
      }
    }
  }

  lemma {:induction false} StripPrefix(s: string, n: nat)
    requires n <= |s| && IsBlank(s[n..])
    ensures RightStrip(s) == RightStrip(s[..n])
    decreases |s|
  {
    if n == |s| {
      assert s[..n] == s;
    } else {
      var t := s[..|s| - 1];
      assert s[n..][|s| - 1 - n] == s[|s| - 1];
      forall k | 0 <= k < |t| - n ensures IsSpace(t[n..][k]) { assert t[n..][k] == s[n..][k]; }
      StripPrefix(t, n);
      assert t[..n] == s[..n];
    }
  }

  lemma StripIff(s: string, t: string)
    ensures RightStrip(s) == RightStrip(t) <==> SameButSpaces(s, t)
  {
    RightStripIs(s);
    RightStripIs(t);
    if RightStrip(s) == RightStrip(t) {
      var n := |RightStrip(s)|;
      assert s[..n] == RightStrip(s) && t[..n] == RightStrip(t);
    }
    if SameButSpaces(s, t) {
      var n :| 0 <= n <= |s| && n <= |t| && s[..n] == t[..n] && IsBlank(s[n..]) && IsBlank(t[n..]);
      StripPrefix(s, n);
      StripPrefix(t, n);
    }
  }

  lemma StripOneLine(s: string)
    requires OneLine(s)
    ensures OneLine(RightStrip(s))
  {
    RightStripIs(s);
  }

  predicate SingleLines(lines: seq<Line>) {
    forall i | 0 <= i < |lines| :: OneLine(lines[i].text)
  }

  lemma KeyCons(lines: seq<Line>)
    requires |lines| > 1
    ensures Key(lines) == RightStrip(lines[0].text) + ("\n" + Key(lines[1..]))
  {
  }

  /** What stands before the first line end tells the first lines apart. */
  lemma FirstLineIff(x: string, u: string, y: string, v: string)
    requires OneLine(x) && OneLine(y)
    ensures x + ("\n" + u) == y + ("\n" + v) <==> x == y && u == v
    ensures x != y + ("\n" + v)
  {
    var s, t := x + ("\n" + u), y + ("\n" + v);
    assert s[|x|] == '\n' && t[|y|] == '\n';
    assert forall k | 0 <= k < |x| :: s[k] == x[k];
    assert forall k | 0 <= k < |y| :: t[k] == y[k];
    if s == t {
      assert |x| == |y|;
      assert s[..|x|] == x && t[..|y|] == y && s[|x| + 1..] == u && t[|y| + 1..] == v;
    }
  }

  lemma SameLinesCons(a: seq<Line>, b: seq<Line>)
    requires a != [] && b != []
    ensures SameLines(a, b) <==> SameButSpaces(a[0].text, b[0].text) && SameLines(a[1..], b[1..])
  {
    if SameButSpaces(a[0].text, b[0].text) && SameLines(a[1..], b[1..]) {
      forall i | 0 <= i < |a| ensures SameButSpaces(a[i].text, b[i].text) {
        if i > 0 { assert a[1..][i - 1] == a[i] && b[1..][i - 1] == b[i]; }
      }
    }
  }

  /** Two entries have the same key exactly when they are line by line the same, up to spaces at
      the ends of the lines. */
  lemma {:induction false} KeyIff(a: seq<Line>, b: seq<Line>)
    requires a != [] && b != [] && SingleLines(a) && SingleLines(b)
    ensures Key(a) == Key(b) <==> SameLines(a, b)
    decreases |a|
  {
    var x, y := RightStrip(a[0].text), RightStrip(b[0].text);
    StripOneLine(a[0].text);
    StripOneLine(b[0].text);
    StripIff(a[0].text, b[0].text);
    SameLinesCons(a, b);
    if |a| > 1 && |b| > 1 {
      KeyIff(a[1..], b[1..]);
      FirstLineIff(x, Key(a[1..]), y, Key(b[1..]));
      KeyCons(a);
      KeyCons(b);
    } else if |a| > 1 {
      KeyCons(a);
      FirstLineIff(y, "", x, Key(a[1..]));
    } else if |b| > 1 {
      KeyCons(b);
      FirstLineIff(x, "", y, Key(b[1..]));
    }
  }

  /** Which blocks go to one side of the cut. */
  type Choice = Block -> bool

  function Side(released: set<string>, want: bool): (c: Choice) {
    (b: Block) => (Key(b.lines) in released) == want
  }

  function Pending(heading: Option<Block>): (bs: seq<Block>) {
    if heading.Some? then [heading.value] else []
  }

  /** The blocks `select` writes out from `found[i]` on, `heading` being the category not
      yet written. */
  function Chosen(found: seq<Block>, i: nat, heading: Option<Block>, keep: Choice): (bs: seq<Block>)
    requires i <= |found|
    decreases |found| - i
  {
    if i == |found| then []
    else if found[i].kind == Heading then Chosen(found, i + 1, Some(found[i]), keep)
    else if !keep(found[i]) then Chosen(found, i + 1, heading, keep)
    else Pending(heading) + [found[i]] + Chosen(found, i + 1, None, keep)
  }

  function Select(found: seq<Block>, keep: Choice): (bs: seq<Block>) {
    Chosen(found, 0, None, keep)
  }

  // ----- The choice, category by category

  /** Where the category that is open at `i` ends. */
  function CategoryEnd(found: seq<Block>, i: nat): (e: nat)
    requires i <= |found|
    ensures i <= e <= |found|
    ensures e < |found| ==> found[e].kind == Heading
    ensures forall k | i <= k < e :: found[k].kind != Heading
    decreases |found| - i
  {
    if i == |found| || found[i].kind == Heading then i else CategoryEnd(found, i + 1)
  }

  /** The chosen blocks among `found[i..j]`, in order. */
  function Filter(found: seq<Block>, i: nat, j: nat, keep: Choice): (r: seq<Block>)
    requires i <= j <= |found|
    decreases j - i
  {
    if i == j then []
    else (if keep(found[i]) then [found[i]] else []) + Filter(found, i + 1, j, keep)
  }

  /** The chosen entries of the category open at `i`, below its heading if there are any,
      then the later categories in the same way. */
  function ByCategory(found: seq<Block>, i: nat, heading: Option<Block>, keep: Choice): (bs: seq<Block>)
    requires i <= |found|
    decreases |found| - i
  {
    var e := CategoryEnd(found, i);
    var kept := Filter(found, i, e, keep);
    (if kept == [] then [] else Pending(heading) + kept) +
    (if e == |found| then [] else ByCategory(found, e + 1, Some(found[e]), keep))
  }

  lemma Regroup<T>(a: seq<T>, b: seq<T>, c: seq<T>, d: seq<T>)
    ensures (a + b) + (c + d) == (a + (b + c)) + d
  {
  }

  /** The chosen entries, the category above them if there are any, then `tail`; if there
      are none, the category is still pending and `other` follows. */
  function Emit(heading: Option<Block>, kept: seq<Block>, tail: seq<Block>, other: seq<Block>): (bs: seq<Block>) {
    if kept == [] then other else Pending(heading) + kept + tail
  }

  lemma EmitOne(heading: Option<Block>, b: Block, kept: seq<Block>, tail: seq<Block>)
    ensures Pending(heading) + [b] + Emit(None, kept, tail, tail) == Pending(heading) + ([b] + kept) + tail
  {
    assert Emit(None, kept, tail, tail) == kept + tail;
    Regroup(Pending(heading), [b], kept, tail);
  }

  lemma {:induction false} ChosenEntries(found: seq<Block>, i: nat, e: nat, heading: Option<Block>, keep: Choice)
    requires i <= e <= |found| && (forall k | i <= k < e :: found[k].kind != Heading)
    ensures Chosen(found, i, heading, keep) ==
            Emit(heading, Filter(found, i, e, keep), Chosen(found, e, None, keep), Chosen(found, e, heading, keep))
    decreases e - i
  {
    if i < e {
      if keep(found[i]) {
        ChosenEntries(found, i + 1, e, None, keep);
        EmitOne(heading, found[i], Filter(found, i + 1, e, keep), Chosen(found, e, None, keep));
      } else {
        ChosenEntries(found, i + 1, e, heading, keep);
        assert [] + Filter(found, i + 1, e, keep) == Filter(found, i + 1, e, keep);
      }
    }
  }

  /** `select` is: every entry stays in its category, in order, and a category is written
      once, directly above its first chosen entry, if it has one. */
  lemma {:induction false} SelectByCategory(found: seq<Block>, i: nat, heading: Option<Block>, keep: Choice)
    requires i <= |found|
    ensures Chosen(found, i, heading, keep) == ByCategory(found, i, heading, keep)
    decreases |found| - i
  {
    var e := CategoryEnd(found, i);
    var kept := Filter(found, i, e, keep);
    ChosenEntries(found, i, e, heading, keep);
    if e < |found| {
      SelectByCategory(found, e + 1, Some(found[e]), keep);
      EmitBoth(heading, kept, Chosen(found, e + 1, Some(found[e]), keep));
    } else {
      EmitBoth(heading, kept, []);
    }
  }

  lemma EmitBoth(heading: Option<Block>, kept: seq<Block>, tail: seq<Block>)
    ensures Emit(heading, kept, tail, tail) == (if kept == [] then [] else Pending(heading) + kept) + tail
  {
  }

  /** The blocks that are not category headings, each as often as it occurs. */
  function Entries(bs: seq<Block>): (m: multiset<Block>) {
    if bs == [] then multiset{} else Entered(bs[0]) + Entries(bs[1..])
  }

  function Entered(b: Block): (m: multiset<Block>) {
    if b.kind == Heading then multiset{} else multiset{b}
  }

  lemma EntriesCons(b: Block, tail: seq<Block>)
    ensures Entries([b] + tail) == Entered(b) + Entries(tail)
  {
    assert ([b] + tail)[1..] == tail;
  }

  predicate Pends(heading: Option<Block>) {
    heading.Some? ==> heading.value.kind == Heading
  }

  lemma EntriesWritten(heading: Option<Block>, b: Block, tail: seq<Block>)
    requires Pends(heading)
    ensures Entries(Pending(heading) + [b] + tail) == Entered(b) + Entries(tail)
  {
    EntriesCons(b, tail);
    if heading.Some? {
      EntriesCons(heading.value, [b] + tail);
      assert Pending(heading) + [b] + tail == [heading.value] + ([b] + tail);
    } else {
      assert Pending(heading) + [b] + tail == [b] + tail;
    }
  }

  /** What two opposite choices write out shares the entries between them: each block is written
      as often as it occurs, on one side or the other. */
  lemma {:induction false} SidesPartition(found: seq<Block>, i: nat, h: Option<Block>, g: Option<Block>, keep: Choice, other: Choice)
    requires i <= |found| && Pends(h) && Pends(g)
    requires forall k | 0 <= k < |found| :: keep(found[k]) != other(found[k])
    ensures Entries(Chosen(found, i, h, keep)) + Entries(Chosen(found, i, g, other)) == Entries(found[i..])
    decreases |found| - i
  {
    if i < |found| {
      var b := found[i];
      assert found[i..][1..] == found[i + 1..];
      if b.kind == Heading {
        SidesPartition(found, i + 1, Some(b), Some(b), keep, other);
      } else if keep(b) {
        SidesPartition(found, i + 1, None, g, keep, other);
        EntriesWritten(h, b, Chosen(found, i + 1, None, keep));
      } else {
        SidesPartition(found, i + 1, h, None, keep, other);
        EntriesWritten(g, b, Chosen(found, i + 1, None, other));
      }
    }
  }

  /** Of any released set: what stays and what moves are all the entries. */
  lemma SelectPartition(found: seq<Block>, released: set<string>)
    ensures Entries(Select(found, Side(released, false))) + Entries(Select(found, Side(released, true))) == Entries(found)
  {
    SidesPartition(found, 0, None, None, Side(released, false), Side(released, true));
    assert found[0..] == found;
  }

  /** The entries that are written out are the chosen ones. */
  lemma {:induction false} ChosenIff(found: seq<Block>, i: nat, heading: Option<Block>, keep: Choice, b: Block)
    requires i <= |found| && Pends(heading) && b.kind != Heading
    ensures b in Chosen(found, i, heading, keep) <==> keep(b) && b in found[i..]
    decreases |found| - i
  {
    if i < |found| {
      FirstAndRest(found, i);
      var x := found[i];
      ChosenIff(found, i + 1, if x.kind == Heading then Some(x) else if keep(x) then None else heading, keep, b);
    }
  }

  // ----- Choosing twice

  /** Every entry is chosen and no category stands without an entry below it. */
  predicate Settled(bs: seq<Block>, keep: Choice) {
    && (forall i | 0 <= i < |bs| && bs[i].kind != Heading :: keep(bs[i]))
    && (forall i | 0 <= i < |bs| && bs[i].kind == Heading ::
          i + 1 < |bs| && bs[i + 1].kind != Heading)
  }

  lemma SettledAppend(a: seq<Block>, b: seq<Block>, keep: Choice)
    requires Settled(a, keep) && Settled(b, keep)
    ensures Settled(a + b, keep)
  {
    var c := a + b;
    forall i | 0 <= i < |c| && c[i].kind == Heading ensures i + 1 < |c| && c[i + 1].kind != Heading {
      if i < |a| {
        assert c[i] == a[i] && c[i + 1] == a[i + 1];
      } else {
        assert c[i] == b[i - |a|] && c[i + 1] == b[i + 1 - |a|];
      }
    }
  }

  /** What `select` writes is settled. */
  lemma {:induction false} ChosenSettled(found: seq<Block>, i: nat, heading: Option<Block>, keep: Choice)
    requires i <= |found| && (heading.Some? ==> heading.value.kind == Heading)
    ensures Settled(Chosen(found, i, heading, keep), keep)
    decreases |found| - i
  {
    if i < |found| {
      var b := found[i];
      if b.kind == Heading {
        ChosenSettled(found, i + 1, Some(b), keep);
      } else if !keep(b) {
        ChosenSettled(found, i + 1, heading, keep);
      } else {
        ChosenSettled(found, i + 1, None, keep);
        SettledAppend(Pending(heading) + [b], Chosen(found, i + 1, None, keep), keep);
      }
    }
  }

  /** Choosing again changes nothing. */
  lemma {:induction false} ChooseAgain(bs: seq<Block>, i: nat, heading: Option<Block>, keep: Choice)
    requires i <= |bs| && Settled(bs, keep)
    requires heading.Some? ==> i < |bs| && bs[i].kind != Heading
    ensures Chosen(bs, i, heading, keep) == Pending(heading) + bs[i..]
    decreases |bs| - i
  {
    if i < |bs| {
      assert bs[i..] == [bs[i]] + bs[i + 1..];
      ChooseAgain(bs, i + 1, if bs[i].kind == Heading then Some(bs[i]) else None, keep);
      Associate(Pending(heading), [bs[i]], bs[i + 1..]);
    }
  }

  /** The other side finds nothing to take. */
  lemma {:induction false} ChooseOther(bs: seq<Block>, i: nat, heading: Option<Block>, keep: Choice, other: Choice)
    requires i <= |bs| && Settled(bs, keep)
    requires forall k | 0 <= k < |bs| :: keep(bs[k]) != other(bs[k])
    ensures Chosen(bs, i, heading, other) == []
    decreases |bs| - i
  {
    if i < |bs| {
      ChooseOther(bs, i + 1, if bs[i].kind == Heading then Some(bs[i]) else heading, keep, other);
    }
  }

  // ----- Reading the chosen blocks back

  predicate AllOk(bs: seq<Block>) {
    forall i | 0 <= i < |bs| :: BlockOk(bs[i])
  }

  predicate StartsIndented(b: Block) {
    b.lines != [] && b.lines[0].cls == Indented
  }

  /** An unspaced paragraph: nothing but the kind of the block above keeps it apart. */
  predicate Unspaced(b: Block) {
    b.kind == Other && b.blanks == [] && b.lines != [] && b.lines[0].cls == Text
  }

  /** Only the first block, or one below a heading, starts indented. */
  predicate IndentsLed(bs: seq<Block>) {
    forall i | 0 < i < |bs| :: StartsIndented(bs[i]) ==> bs[i - 1].kind == Heading
  }

  /** An unspaced paragraph does not stand right below another paragraph. */
  predicate NoGlue(bs: seq<Block>) {
    forall i | 0 < i < |bs| :: !(bs[i - 1].kind == Other && Unspaced(bs[i]))
  }

  lemma CanonicalIff(bs: seq<Block>)
    requires AllOk(bs)
    ensures Canonical(bs) <==> IndentsLed(bs) && NoGlue(bs)
  {
    if Canonical(bs) {
      forall i | 0 < i < |bs| ensures
        (StartsIndented(bs[i]) ==> bs[i - 1].kind == Heading)
        && !(bs[i - 1].kind == Other && Unspaced(bs[i]))
      {
        assert Separated(bs[i - 1], bs[i]);
      }
    }
    if IndentsLed(bs) && NoGlue(bs) {
      forall i | 0 < i < |bs| ensures bs[i].lines != [] && Separated(bs[i - 1], bs[i]) {
        assert BlockOk(bs[i]);
      }
    }
  }

  /** What is written for one chosen block, before the blocks chosen later. */
  function Written(heading: Option<Block>, b: Block, tail: seq<Block>): (bs: seq<Block>)
    ensures var n := |Pending(heading)|;
            && |bs| == n + 1 + |tail| && bs[n] == b
            && (n == 1 ==> bs[0] == heading.value)
            && forall k | n < k < |bs| :: bs[k] == tail[k - n - 1]
  {
    Pending(heading) + [b] + tail
  }

  /** `select` keeps blocks whole and never puts a block that starts indented below
      another entry. */
  lemma {:induction false} ChosenKeepsIndents(found: seq<Block>, i: nat, heading: Option<Block>, keep: Choice, first: bool)
    requires i <= |found| && AllOk(found) && IndentsLed(found)
    requires heading.Some? ==> heading.value.kind == Heading && BlockOk(heading.value)
    requires i < |found| && StartsIndented(found[i]) ==> heading.Some? || first
    ensures var bs := Chosen(found, i, heading, keep);
            && AllOk(bs) && IndentsLed(bs)
            && (bs != [] && StartsIndented(bs[0]) ==> first)
    decreases |found| - i
  {
    if i < |found| {
      var b := found[i];
      if b.kind == Heading {
        ChosenKeepsIndents(found, i + 1, Some(b), keep, first);
      } else if !keep(b) {
        ChosenKeepsIndents(found, i + 1, heading, keep, first);
      } else {
        ChosenKeepsIndents(found, i + 1, None, keep, false);
        IndentsWritten(heading, b, Chosen(found, i + 1, None, keep), first);
      }
    }
  }

  lemma IndentsWritten(heading: Option<Block>, b: Block, tail: seq<Block>, first: bool)
    requires BlockOk(b) && AllOk(tail) && IndentsLed(tail)
    requires heading.Some? ==> heading.value.kind == Heading && BlockOk(heading.value)
    requires StartsIndented(b) ==> heading.Some? || first
    requires tail != [] ==> !StartsIndented(tail[0])
    ensures var bs := Written(heading, b, tail);
            AllOk(bs) && IndentsLed(bs) && (StartsIndented(bs[0]) ==> first)
  {
  }

  lemma SideIndents(body: seq<Line>, keep: Choice)
    ensures AllOk(Select(Parse(body), keep)) && IndentsLed(Select(Parse(body), keep))
  {
    ParseIsCanonical(body, 0);
    CanonicalIff(Parse(body));
    ChosenKeepsIndents(Parse(body), 0, None, keep, true);
  }

  /** The blocks of a side can be read back exactly when no unspaced paragraph ends up
      right below another paragraph. */
  lemma SideReadsBackIff(body: seq<Line>, keep: Choice)
    ensures AllOk(Select(Parse(body), keep))
    ensures Canonical(Select(Parse(body), keep)) <==> NoGlue(Select(Parse(body), keep))
  {
    SideIndents(body, keep);
    CanonicalIff(Select(Parse(body), keep));
  }

  // ----- The same condition, read off the body before the cut

  /** From `found[i]` on, no unspaced paragraph stands in a category that already has a
      paragraph (`open` for the category `i` is in). */
  predicate Safe(found: seq<Block>, i: nat, open: bool)
    requires i <= |found|
    decreases |found| - i
  {
    i == |found| ||
    if found[i].kind == Heading then Safe(found, i + 1, false)
    else !(open && Unspaced(found[i])) && Safe(found, i + 1, open || found[i].kind == Other)
  }

  lemma {:induction false} SafeNeverGlues(found: seq<Block>, i: nat, heading: Option<Block>, keep: Choice, open: bool)
    requires i <= |found| && Safe(found, i, open)
    requires heading.Some? ==> heading.value.kind == Heading
    ensures var bs := Chosen(found, i, heading, keep);
            NoGlue(bs) && (open && bs != [] ==> heading.Some? || !Unspaced(bs[0]))
    decreases |found| - i
  {
    if i < |found| {
      var b := found[i];
      if b.kind == Heading {
        SafeNeverGlues(found, i + 1, Some(b), keep, false);
        ChosenStart(found, i + 1, b, keep);
      } else if !keep(b) {
        SafeNeverGlues(found, i + 1, heading, keep, open || b.kind == Other);
      } else {
        SafeNeverGlues(found, i + 1, None, keep, open || b.kind == Other);
        GlueWritten(heading, b, Chosen(found, i + 1, None, keep));
      }
    }
  }

  lemma GlueWritten(heading: Option<Block>, b: Block, tail: seq<Block>)
    requires heading.Some? ==> heading.value.kind == Heading
    ensures NoGlue(Written(heading, b, tail)) <==>
            NoGlue(tail) && (b.kind == Other && tail != [] ==> !Unspaced(tail[0]))
  {
    var bs, n := Written(heading, b, tail), |Pending(heading)|;
    if NoGlue(bs) {
      forall k | 0 < k < |tail| ensures !(tail[k - 1].kind == Other && Unspaced(tail[k])) {
        assert bs[k + n] == tail[k - 1] && bs[k + n + 1] == tail[k];
      }
      assert tail != [] ==> bs[n + 1] == tail[0];
    }
  }

  /** With a category pending, what `select` writes next starts with a category. */
  lemma {:induction false} ChosenStart(found: seq<Block>, i: nat, heading: Block, keep: Choice)
    requires i <= |found| && heading.kind == Heading
    ensures var bs := Chosen(found, i, Some(heading), keep); bs != [] ==> bs[0].kind == Heading
    decreases |found| - i
  {
    if i < |found| {
      ChosenStart(found, i + 1, if found[i].kind == Heading then found[i] else heading, keep);
    }
  }

  const PARAGRAPHS: Choice := (b: Block) => b.kind == Other

  /** Moving only the paragraphs glues two of them whenever the body is not safe. */
  lemma {:induction false} UnsafeGlues(found: seq<Block>, i: nat, heading: Option<Block>, open: bool)
    requires i <= |found|
    requires heading.Some? ==> heading.value.kind == Heading && !open
    requires var bs := Chosen(found, i, heading, PARAGRAPHS);
             NoGlue(bs) && (open && bs != [] ==> !Unspaced(bs[0]))
    ensures Safe(found, i, open)
    decreases |found| - i
  {
    if i < |found| {
      var b := found[i];
      if b.kind == Heading {
        UnsafeGlues(found, i + 1, Some(b), false);
      } else if b.kind == Item {
        UnsafeGlues(found, i + 1, heading, open);
      } else {
        GlueWritten(heading, b, Chosen(found, i + 1, None, PARAGRAPHS));
        UnsafeGlues(found, i + 1, None, true);
      }
    }
  }

  /** Every way of choosing entries gives a side that can be read back, exactly when no
      unspaced paragraph stands in a category that already has a paragraph: a body that is
      not safe fails for the choice of its paragraphs. */
  lemma EverySideReadsBackIff(body: seq<Line>, keep: Choice)
    ensures Safe(Parse(body), 0, false) ==> Canonical(Select(Parse(body), keep))
    ensures !Safe(Parse(body), 0, false) ==> !Canonical(Select(Parse(body), PARAGRAPHS))
  {
    var found := Parse(body);
    if Safe(found, 0, false) {
      SafeNeverGlues(found, 0, None, keep, false);
      SideReadsBackIff(body, keep);
    } else {
      SideReadsBackIff(body, PARAGRAPHS);
      if NoGlue(Select(found, PARAGRAPHS)) { UnsafeGlues(found, 0, None, false); }
    }
  }

  /** A blank line stands before every paragraph that follows a list entry. */
  predicate Spaced(found: seq<Block>) {
    forall i | 0 < i < |found| ::
      found[i - 1].kind == Item && found[i].kind == Other ==> found[i].blanks != []
  }

  lemma {:induction false} SpacedIsSafe(found: seq<Block>, i: nat, open: bool)
    requires Canonical(found) && Spaced(found) && i <= |found|
    requires open ==> i > 0 && found[i - 1].kind != Heading
    ensures Safe(found, i, open)
    decreases |found| - i
  {
    if i < |found| {
      var b := found[i];
      if b.kind == Heading {
        SpacedIsSafe(found, i + 1, false);
      } else {
        if open { assert Separated(found[i - 1], b); }
        SpacedIsSafe(found, i + 1, open || b.kind == Other);
      }
    }
  }

  // ----- Trimming

  /** The position after the last non-blank line. */
  function LastText(s: seq<Line>, start: nat, end: nat): (e: nat)
    requires start <= end <= |s|
    ensures start <= e <= end && BlankRange(s, e, end)
    ensures start < e ==> s[e - 1].cls != Blank
    decreases end
  {
    if start < end && s[end - 1].cls == Blank then LastText(s, start, end - 1) else end
  }

  /** `trim` leaves the lines from the first to the last one that is not blank. */
  function Trimmed(s: seq<Line>): (r: seq<Line>)
    ensures r != [] ==> r[0].cls != Blank && r[|r| - 1].cls != Blank
  {
    var start := SkipBlanks(s, 0);
    s[start..LastText(s, start, |s|)]
  }

  method Trim(s: seq<Line>) returns (r: seq<Line>)
    ensures r == Trimmed(s)
  {
    var start, end := 0, |s|;
    while start < end && s[start].cls == Blank
      invariant start <= end && BlankRange(s, 0, start)
    {
      start := start + 1;
    }
    SkipBlanksUnique(s, 0, start);
    while end > start && s[end - 1].cls == Blank
      invariant start <= end <= |s|
      invariant LastText(s, start, end) == LastText(s, start, |s|)
    {
      end := end - 1;
    }
    r := s[start..end];
  }

  /** `select`: the loop over the blocks. */
  method SelectLines(found: seq<Block>, released: set<string>, want: bool) returns (out: seq<Line>)
    ensures out == Flatten(Select(found, Side(released, want)))
  {
    out := [];
    var heading: Option<Block> := None;
    ghost var keep := Side(released, want);
    ghost var bs: seq<Block> := [];
    for i := 0 to |found|
      invariant out == Flatten(bs)
      invariant bs + Chosen(found, i, heading, keep) == Select(found, keep)
    {
      var b := found[i];
      if b.kind == Heading {
        heading := Some(b);
        continue;
      }
      if (Key(b.lines) in released) != want { continue; }
      ghost var more := Pending(heading) + [b];
      WriteMore(out, bs, heading, b);
      Associate(bs, more, Chosen(found, i + 1, None, keep));
      if heading.Some? {
        out := out + (heading.value.blanks + heading.value.lines);
        heading := None;
      }
      out := out + (b.blanks + b.lines);
      bs := bs + more;
    }
    assert bs + [] == bs;
  }

  lemma FlattenOne(b: Block)
    ensures Flatten([b]) == b.blanks + b.lines
  {
    assert [b][1..] == [];
  }

  lemma WriteMore(out: seq<Line>, bs: seq<Block>, heading: Option<Block>, b: Block)
    requires out == Flatten(bs)
    ensures Flatten(bs + (Pending(heading) + [b])) ==
            (if heading.Some? then out + (heading.value.blanks + heading.value.lines) else out) + (b.blanks + b.lines)
  {
    FlattenAppend(bs, Pending(heading) + [b]);
    FlattenAppend(Pending(heading), [b]);
    FlattenOne(b);
    if heading.Some? {
      FlattenOne(heading.value);
      Associate(out, heading.value.blanks + heading.value.lines, b.blanks + b.lines);
    }
  }
}
