/** Paragraphs that end up below each other without a blank line between them are read back
    as one.  `Joined` says what any chosen blocks are read back as, without reference to the
    parser (scripts/changelog_cut.py). */
module ChangelogJoin {
  import opened ChangelogBlocks
  import opened ChangelogSelect

  /** Is `b`, standing right below a block of kind `kind`, read as its continuation? */
  predicate Glues(kind: Kind, b: Block) {
    kind == Other && Unspaced(b)
  }

  /** `b` on top of blocks that are already joined. */
  function Stacked(b: Block, tail: seq<Block>): (bs: seq<Block>)
    ensures bs != [] && bs[0].kind == b.kind && bs[0].blanks == b.blanks
    ensures b.lines != [] ==> bs[0].lines != [] && bs[0].lines[0] == b.lines[0]
  {
    if tail != [] && Glues(b.kind, tail[0])
    then [b.(lines := b.lines + tail[0].lines)] + tail[1..]
    else [b] + tail
  }

  function Joined(bs: seq<Block>): (r: seq<Block>)
    ensures |r| <= |bs| && (r == [] <==> bs == [])
  {
    if bs == [] then [] else Stacked(bs[0], Joined(bs[1..]))
  }

  /** Every category has an entry right below it. */
  predicate HeadingsLead(bs: seq<Block>) {
    forall i | 0 <= i < |bs| && bs[i].kind == Heading :: i + 1 < |bs| && bs[i + 1].kind != Heading
  }

  // ----- One block on top

  /** Two paragraphs that glue form one block. */
  lemma GluedOk(a: Block, b: Block)
    requires BlockOk(a) && BlockOk(b) && Glues(a.kind, b)
    ensures BlockOk(a.(lines := a.lines + b.lines))
  {
    var s, n := a.lines + b.lines, |a.lines|;
    assert s[0] == a.lines[0] && s[n] == b.lines[0];
    EndGoesOn(Other, b.lines, 1, s, n);
    assert EndOf(Other, s, n) == |s|;
    EndGoesOn(Other, a.lines, 1, s, 0);
  }

  lemma StackedOk(b: Block, tail: seq<Block>)
    requires BlockOk(b) && AllOk(tail)
    ensures AllOk(Stacked(b, tail))
  {
    if tail != [] && Glues(b.kind, tail[0]) { GluedOk(b, tail[0]); }
  }

  lemma StackedIndents(b: Block, tail: seq<Block>)
    requires IndentsLed(tail) && (tail != [] && StartsIndented(tail[0]) ==> b.kind == Heading)
    ensures IndentsLed(Stacked(b, tail))
  {
    var bs := Stacked(b, tail);
    forall i | 0 < i < |bs| && StartsIndented(bs[i]) ensures bs[i - 1].kind == Heading {
      if tail != [] && Glues(b.kind, tail[0]) {
        assert bs[i] == tail[i] && bs[i - 1].kind == tail[i - 1].kind;
      } else {
        assert bs[i] == tail[i - 1] && (i > 1 ==> bs[i - 1] == tail[i - 2]);
      }
    }
  }

  lemma StackedNoGlue(b: Block, tail: seq<Block>)
    requires NoGlue(tail)
    ensures NoGlue(Stacked(b, tail))
  {
    var bs := Stacked(b, tail);
    forall i | 0 < i < |bs| ensures !Glues(bs[i - 1].kind, bs[i]) {
      if tail != [] && Glues(b.kind, tail[0]) {
        assert bs[i] == tail[i] && bs[i - 1].kind == tail[i - 1].kind;
      } else {
        assert bs[i] == tail[i - 1] && (i > 1 ==> bs[i - 1] == tail[i - 2]);
      }
    }
  }

  lemma StackedHeadings(b: Block, tail: seq<Block>)
    requires HeadingsLead(tail) && (b.kind == Heading ==> tail != [] && tail[0].kind != Heading)
    ensures HeadingsLead(Stacked(b, tail))
  {
    var bs := Stacked(b, tail);
    forall i | 0 <= i < |bs| && bs[i].kind == Heading ensures i + 1 < |bs| && bs[i + 1].kind != Heading {
      if tail != [] && Glues(b.kind, tail[0]) {
        assert bs[i] == tail[i] && bs[i + 1] == tail[i + 1];
      } else if i > 0 {
        assert bs[i] == tail[i - 1] && bs[i + 1] == tail[i];
      }
    }
  }

  lemma FlattenCons(b: Block, tail: seq<Block>)
    ensures Flatten([b] + tail) == b.blanks + b.lines + Flatten(tail)
  {
    assert ([b] + tail)[1..] == tail;
  }

  lemma GluedFlatten(b: Block, t: Block, rest: seq<Block>)
    requires t.blanks == []
    ensures Flatten([b.(lines := b.lines + t.lines)] + rest) == b.blanks + b.lines + Flatten([t] + rest)
  {
    FlattenCons(b.(lines := b.lines + t.lines), rest);
    FlattenCons(t, rest);
    Around(b.blanks, b.lines, t.blanks, t.lines, Flatten(rest));
  }

  lemma Around<T>(a: seq<T>, b: seq<T>, e: seq<T>, c: seq<T>, d: seq<T>)
    requires e == []
    ensures a + (b + c) + d == a + b + (e + c + d)
  {
  }

  lemma StackedFlatten(b: Block, tail: seq<Block>)
    ensures Flatten(Stacked(b, tail)) == b.blanks + b.lines + Flatten(tail)
  {
    if tail != [] && Glues(b.kind, tail[0]) {
      GluedFlatten(b, tail[0], tail[1..]);
      assert [tail[0]] + tail[1..] == tail;
    } else {
      FlattenCons(b, tail);
    }
  }

  // ----- All of them

  lemma {:induction false} JoinedFlatten(bs: seq<Block>)
    ensures Flatten(Joined(bs)) == Flatten(bs)
  {
    if bs != [] {
      JoinedFlatten(bs[1..]);
      StackedFlatten(bs[0], Joined(bs[1..]));
    }
  }

  lemma {:induction false} JoinedOk(bs: seq<Block>)
    requires AllOk(bs) && IndentsLed(bs)
    ensures AllOk(Joined(bs)) && IndentsLed(Joined(bs)) && NoGlue(Joined(bs))
  {
    if bs != [] {
      var tail := bs[1..];
      assert forall k | 0 <= k < |tail| :: tail[k] == bs[k + 1];
      JoinedOk(tail);
      JoinedTop(tail);
      StackedOk(bs[0], Joined(tail));
      StackedIndents(bs[0], Joined(tail));
      StackedNoGlue(bs[0], Joined(tail));
    }
  }

  /** The first block keeps its blank lines, its kind and its first line. */
  lemma JoinedTop(bs: seq<Block>)
    ensures bs != [] ==> Joined(bs)[0].kind == bs[0].kind && Joined(bs)[0].blanks == bs[0].blanks
    ensures bs != [] && bs[0].lines != [] ==> Joined(bs)[0].lines != [] && Joined(bs)[0].lines[0] == bs[0].lines[0]
  {
  }

  /** What the joined blocks are, they are read back as. */
  lemma JoinedCanonical(bs: seq<Block>)
    requires AllOk(bs) && IndentsLed(bs)
    ensures Canonical(Joined(bs))
  {
    JoinedOk(bs);
    CanonicalIff(Joined(bs));
  }

  lemma {:induction false} JoinedHeadings(bs: seq<Block>)
    requires HeadingsLead(bs)
    ensures HeadingsLead(Joined(bs))
  {
    if bs != [] {
      var tail := bs[1..];
      forall i | 0 <= i < |tail| && tail[i].kind == Heading ensures i + 1 < |tail| && tail[i + 1].kind != Heading {
        assert tail[i] == bs[i + 1];
      }
      JoinedHeadings(tail);
      JoinedTop(tail);
      StackedHeadings(bs[0], Joined(tail));
    }
  }

  /** Nothing is joined exactly when nothing glues. */
  lemma {:induction false} JoinedSameIff(bs: seq<Block>)
    requires forall i | 0 <= i < |bs| :: bs[i].lines != []
    ensures Joined(bs) == bs <==> NoGlue(bs)
  {
    if bs != [] {
      var tail := bs[1..];
      assert forall k | 0 <= k < |tail| :: tail[k] == bs[k + 1];
      JoinedSameIff(tail);
      JoinedTop(tail);
      NoGlueTop(bs);
      if tail != [] && Glues(bs[0].kind, Joined(tail)[0]) {
        assert |Joined(bs)[0].lines| > |bs[0].lines|;
      } else {
        assert Joined(bs) == [bs[0]] + Joined(tail);
        assert bs == [bs[0]] + tail;
        if Joined(bs) == bs { assert Joined(bs)[1..] == Joined(tail); }
      }
    }
  }

  lemma NoGlueTop(bs: seq<Block>)
    requires bs != []
    ensures NoGlue(bs) <==> NoGlue(bs[1..]) && (|bs| > 1 ==> !Glues(bs[0].kind, bs[1]))
  {
    var tail := bs[1..];
    assert forall k | 0 <= k < |tail| :: tail[k] == bs[k + 1];
    if NoGlue(bs) {
      forall i | 0 < i < |tail| ensures !(tail[i - 1].kind == Other && Unspaced(tail[i])) {
        assert !(bs[i].kind == Other && Unspaced(bs[i + 1]));
      }
    }
  }
}
