/**
 What a merge guarantees about its output text.
 */
module MergeTheorems {
  import opened Wrappers
  import opened Text
  import opened Okf
  import OkfLines
  import opened OkfRoundTrip
  import opened OkfCanonical
  import opened OkfLists
  import opened OkfUnread
  import opened OkfPrinted
  import opened Merge

  // The pieces

  /** The three-way rule: a conflict is two different changes, and otherwise whichever side changed wins. */
  lemma ThreeWayRule<T>(base: T, ours: T, theirs: T)
    ensures ThreeWay(base, ours, theirs).None? <==> ours != base && theirs != base && ours != theirs
    ensures forall v :: ThreeWay(base, ours, theirs) == Some(v) ==>
              && (ours != base ==> v == ours) && (theirs != base ==> v == theirs)
              && (ours == base && theirs == base ==> v == base)
    ensures ThreeWay(base, theirs, ours) == ThreeWay(base, ours, theirs)
  {
  }

  /** The union has the tags of both sides, ours first as they are. */
  lemma {:induction false} UnionElements(ours: seq<string>, theirs: seq<string>)
    ensures Elements(Union(ours, theirs)) == Elements(ours) + Elements(theirs)
    ensures ours <= Union(ours, theirs)
    decreases |theirs|
  {
    if theirs != [] {
      var next := if theirs[0] in ours then ours else ours + [theirs[0]];
      UnionElements(next, theirs[1..]);
      assert theirs == [theirs[0]] + theirs[1..];
      assert Elements(theirs) == {theirs[0]} + Elements(theirs[1..]);
      assert Elements(next) == Elements(ours) + {theirs[0]};
    }
  }

  /** Ours's own duplicates stay, and a tag only theirs has is added once however often they have it. */
  lemma {:induction false} UnionAddsOnce(ours: seq<string>, theirs: seq<string>, tag: string)
    ensures multiset(Union(ours, theirs))[tag]
      == if tag in ours then multiset(ours)[tag] else if tag in theirs then 1 else 0
    decreases |theirs|
  {
    if theirs != [] {
      var next := if theirs[0] in ours then ours else ours + [theirs[0]];
      UnionAddsOnce(next, theirs[1..], tag);
      assert theirs == [theirs[0]] + theirs[1..];
      assert multiset(ours + [theirs[0]]) == multiset(ours) + multiset{theirs[0]};
      assert tag in ours <==> multiset(ours)[tag] > 0;
    }
  }

  lemma {:induction false} LexTotal(a: string, b: string)
    ensures LexLe(a, b) || LexLe(b, a)
    ensures LexLe(a, b) && LexLe(b, a) ==> a == b
  {
    if a != "" && b != "" && a[0] == b[0] {
      LexTotal(a[1..], b[1..]);
      assert a == [a[0]] + a[1..] && b == [b[0]] + b[1..];
    }
  }

  lemma MaxUpdatedRule(ours: Option<string>, theirs: Option<string>)
    ensures MaxUpdated(ours, theirs) == MaxUpdated(theirs, ours)
    ensures MaxUpdated(ours, theirs) == ours || MaxUpdated(ours, theirs) == theirs
    ensures ours.Some? ==> MaxUpdated(ours, theirs).Some? && LexLe(ours.value, MaxUpdated(ours, theirs).value)
    ensures theirs.Some? ==> MaxUpdated(ours, theirs).Some? && LexLe(theirs.value, MaxUpdated(ours, theirs).value)
  {
    if ours.Some? { LexTotal(ours.value, ours.value); }
    if theirs.Some? { LexTotal(theirs.value, theirs.value); }
    if ours.Some? && theirs.Some? { LexTotal(ours.value, theirs.value); }
  }

  lemma {:induction false} FirstDifferenceOrders(p: string, x: char, y: char, s: string, t: string)
    requires x < y
    ensures LexLe(p + [x] + s, p + [y] + t) && !LexLe(p + [y] + t, p + [x] + s)
  {
    if p != "" {
      FirstDifferenceOrders(p[1..], x, y, s, t);
      assert (p + [x] + s)[1..] == p[1..] + [x] + s && (p + [y] + t)[1..] == p[1..] + [y] + t;
    }
  }

  lemma {:induction false} PrefixOrders(p: string, y: char, t: string)
    ensures LexLe(p, p + [y] + t) && !LexLe(p + [y] + t, p)
  {
    if p != "" {
      PrefixOrders(p[1..], y, t);
      assert (p + [y] + t)[1..] == p[1..] + [y] + t;
    }
  }

  /** Which date wins, on either side: the one with the greater character where they first differ, or the longer one. */
  lemma LaterDateWins(p: string, x: char, y: char, s: string, t: string)
    requires x < y
    ensures var earlier, later, cut := Some(p + [x] + s), Some(p + [y] + t), Some(p);
      && MaxUpdated(earlier, later) == later && MaxUpdated(later, earlier) == later
      && MaxUpdated(cut, later) == later && MaxUpdated(later, cut) == later
      && MaxUpdated(None, later) == later && MaxUpdated(later, None) == later
  {
    FirstDifferenceOrders(p, x, y, s, t);
    PrefixOrders(p, y, t);
  }

  // Clean merges

  lemma MergedIsSingleLine(b: Frontmatter, o: Frontmatter, t: Frontmatter)
    requires SingleLine(b) && SingleLine(o) && SingleLine(t)
    ensures SingleLine(MergedFrontmatter(b, o, t))
  {
    hide ShowItemType, ShowScope, ShowVisibility, ShowConfidence, ShowSource, NoNewline, Union, MaxUpdated;
    UnionElements(o.tags, t.tags);
    forall s | s in Union(o.tags, t.tags) ensures NoNewline(s) {
      assert s in Elements(Union(o.tags, t.tags));
    }
  }

  /** Re-reading a clean merge, whatever the three texts were. */
  lemma CleanMergeReads(base: string, ours: string, theirs: string, printable: Printable)
    requires !Conflict(ParseSides(base, ours, theirs))
    ensures var s := ParseSides(base, ours, theirs);
      Parse(MergeTexts(base, ours, theirs, printable))
      == Parsed(Normalize(MergedOf(s), printable), "\n" + MergedBody(s), [])
  {
    hide Parse, Render, MergedFrontmatter, Normalize, SingleLine, Conflict;
    var s := ParseSides(base, ours, theirs);
    ParsedIsSingleLine(base);
    ParsedIsSingleLine(ours);
    ParsedIsSingleLine(theirs);
    MergedIsSingleLine(s.base.frontmatter, s.ours.frontmatter, s.theirs.frontmatter);
    RenderThenParse(MergedOf(s), "\n" + MergedBody(s), printable);
    assert Render(MergedOf(s), printable) + "\n" + MergedBody(s)
        == Render(MergedOf(s), printable) + ("\n" + MergedBody(s));
  }

  /** A clean merge can be re-read as the merged frontmatter exactly when that frontmatter is canonical. */
  lemma CleanMergeFaithfulIff(base: string, ours: string, theirs: string, printable: Printable)
    requires !Conflict(ParseSides(base, ours, theirs))
    ensures var s := ParseSides(base, ours, theirs);
      Parse(MergeTexts(base, ours, theirs, printable)).frontmatter == MergedOf(s)
      <==> Canonical(MergedOf(s), printable)
  {
    hide Parse, MergedFrontmatter, Normalize, SingleLine, Conflict, MergeTexts, Canonical;
    var s := ParseSides(base, ours, theirs);
    CleanMergeReads(base, ours, theirs, printable);
    ParsedIsSingleLine(base);
    ParsedIsSingleLine(ours);
    ParsedIsSingleLine(theirs);
    MergedIsSingleLine(s.base.frontmatter, s.ours.frontmatter, s.theirs.frontmatter);
    NormalizeIff(MergedOf(s), printable);
  }

  /** `v` is what a three-way merge may answer: each side's change, or the common base. */
  predicate KeepsChanges<T(==)>(base: T, ours: T, theirs: T, v: T) {
    && (ours != base ==> v == ours)
    && (theirs != base ==> v == theirs)
    && (ours == base && theirs == base ==> v == base)
  }

  predicate KeepsAllChanges(b: Frontmatter, o: Frontmatter, t: Frontmatter, m: Frontmatter) {
    && KeepsChanges(b.title, o.title, t.title, m.title)
    && KeepsChanges(b.itemType, o.itemType, t.itemType, m.itemType)
    && KeepsChanges(b.scope, o.scope, t.scope, m.scope)
    && KeepsChanges(b.workspace, o.workspace, t.workspace, m.workspace)
    && KeepsChanges(b.visibility, o.visibility, t.visibility, m.visibility)
    && KeepsChanges(b.confidence, o.confidence, t.confidence, m.confidence)
    && KeepsChanges(b.expires, o.expires, t.expires, m.expires)
  }

  predicate NoEarlier(a: Option<string>, b: Option<string>) {
    a.Some? ==> b.Some? && LexLe(a.value, b.value)
  }

  lemma MergedKeepsChanges(b: Frontmatter, o: Frontmatter, t: Frontmatter)
    requires !ScalarConflict(b, o, t)
    ensures KeepsAllChanges(b, o, t, MergedFrontmatter(b, o, t))
  {
    hide Union, MaxUpdated;
  }

  /**
   No change is lost in the text of a clean merge: in the re-read file every scalar that a side changed has that
   side's value, every tag of both sides is there, `updated` is as late as both, and the body of a side that
   changed it follows one added newline.
   */
  lemma CleanMergeKeepsChanges(base: string, ours: string, theirs: string, printable: Printable)
    requires !Conflict(ParseSides(base, ours, theirs))
    requires Canonical(MergedOf(ParseSides(base, ours, theirs)), printable)
    ensures var b, o, t := Parse(base), Parse(ours), Parse(theirs);
      var m := Parse(MergeTexts(base, ours, theirs, printable));
      && KeepsAllChanges(b.frontmatter, o.frontmatter, t.frontmatter, m.frontmatter)
      && Elements(m.frontmatter.tags) == Elements(o.frontmatter.tags) + Elements(t.frontmatter.tags)
      && NoEarlier(o.frontmatter.updated, m.frontmatter.updated)
      && NoEarlier(t.frontmatter.updated, m.frontmatter.updated)
      && KeepsChanges("\n" + b.body, "\n" + o.body, "\n" + t.body, m.body)
      && m.warnings == []
  {
    hide Parse, Normalize, MergeTexts, Canonical, ScalarConflict, KeepsAllChanges, Union, MaxUpdated;
    var s := ParseSides(base, ours, theirs);
    var o, t := s.ours.frontmatter, s.theirs.frontmatter;
    CleanMergeReads(base, ours, theirs, printable);
    CleanMergeFaithfulIff(base, ours, theirs, printable);
    MergedKeepsChanges(s.base.frontmatter, o, t);
    UnionElements(o.tags, t.tags);
    MaxUpdatedRule(o.updated, t.updated);
    PrefixedBodies(s);
  }

  lemma PrefixedBodies(s: Sides)
    requires !BodyConflict(s)
    ensures KeepsChanges("\n" + s.base.body, "\n" + s.ours.body, "\n" + s.theirs.body, "\n" + MergedBody(s))
  {
    AddNewline(s.base.body, s.ours.body);
    AddNewline(s.base.body, s.theirs.body);
  }

  lemma AddNewline(x: string, y: string)
    ensures "\n" + x == "\n" + y <==> x == y
  {
    assert ("\n" + x)[1..] == x && ("\n" + y)[1..] == y;
  }

  // Symmetry

  predicate SameScalars(f: Frontmatter, g: Frontmatter) {
    && f.title == g.title && f.itemType == g.itemType && f.scope == g.scope && f.workspace == g.workspace
    && f.visibility == g.visibility && f.confidence == g.confidence && f.expires == g.expires
    && f.updated == g.updated
  }

  lemma SwappedFrontmatter(b: Frontmatter, o: Frontmatter, t: Frontmatter)
    ensures ScalarConflict(b, o, t) <==> ScalarConflict(b, t, o)
    ensures !ScalarConflict(b, o, t)
      ==> SameScalars(MergedFrontmatter(b, o, t), MergedFrontmatter(b, t, o))
    ensures Elements(MergedFrontmatter(b, o, t).tags) == Elements(MergedFrontmatter(b, t, o).tags)
  {
    hide Union, MaxUpdated;
    MaxUpdatedRule(o.updated, t.updated);
    UnionElements(o.tags, t.tags);
    UnionElements(t.tags, o.tags);
  }

  lemma SameScalarsNormalize(f: Frontmatter, g: Frontmatter, printable: Printable)
    requires SameScalars(f, g)
    ensures SameScalars(Normalize(f, printable), Normalize(g, printable))
  {
    hide ReadBack, ReadBackTokens, ReadBackList, QuotedValue, TokensValue;
  }

  lemma TagsNormalize(f: Frontmatter, printable: Printable)
    ensures Normalize(f, printable).tags == ReadBackList(f.tags)
  {
  }

  /**
   Swapping the two sides never changes whether the merge conflicts; a clean merge re-reads to the same scalars,
   `updated` and body and to the same set of tags either way.
   */
  lemma MergeIsSymmetric(base: string, ours: string, theirs: string, printable: Printable)
    ensures Conflict(ParseSides(base, ours, theirs)) <==> Conflict(ParseSides(base, theirs, ours))
    ensures !Conflict(ParseSides(base, ours, theirs)) ==>
      var m := Parse(MergeTexts(base, ours, theirs, printable));
      var n := Parse(MergeTexts(base, theirs, ours, printable));
      && SameScalars(m.frontmatter, n.frontmatter)
      && m.body == n.body && m.warnings == n.warnings
      && Elements(m.frontmatter.tags) == Elements(n.frontmatter.tags)
  {
    hide Parse, Normalize, MergeTexts, ScalarConflict, MergedFrontmatter, SameScalars, ReadBackList;
    var s, r := ParseSides(base, ours, theirs), ParseSides(base, theirs, ours);
    SwappedFrontmatter(s.base.frontmatter, s.ours.frontmatter, s.theirs.frontmatter);
    if !Conflict(s) {
      CleanMergeReads(base, ours, theirs, printable);
      CleanMergeReads(base, theirs, ours, printable);
      SameScalarsNormalize(MergedOf(s), MergedOf(r), printable);
      SameItemsReadBack(MergedOf(s).tags, MergedOf(r).tags);
      TagsNormalize(MergedOf(s), printable);
      TagsNormalize(MergedOf(r), printable);
    }
  }

  /** A side that equals the base never causes a conflict, and the other side's scalars and body are the result. */
  lemma UnchangedSideYields(base: string, ours: string, printable: Printable)
    ensures var s := ParseSides(base, ours, base);
      && !Conflict(s)
      && MergedOf(s).(tags := s.ours.frontmatter.tags, updated := s.ours.frontmatter.updated) == s.ours.frontmatter
      && MergedBody(s) == s.ours.body
      && Parse(MergeTexts(base, ours, base, printable)).body == "\n" + s.ours.body
  {
    hide Parse, Normalize, MergeTexts, Union, MaxUpdated;
    CleanMergeReads(base, ours, base, printable);
  }

  /** Two sides that are the same never conflict, and are the result. */
  lemma SameSidesAgree(base: string, side: string, printable: Printable)
    ensures var s := ParseSides(base, side, side);
      && !Conflict(s) && MergedOf(s) == s.ours.frontmatter && MergedBody(s) == s.ours.body
      && Parse(MergeTexts(base, side, side, printable)).body == "\n" + s.ours.body
  {
    hide Parse, Normalize, MergeTexts;
    var s := ParseSides(base, side, side);
    var tags, updated := s.ours.frontmatter.tags, s.ours.frontmatter.updated;
    UnionSame(tags, tags);
    if updated.Some? { LexTotal(updated.value, updated.value); }
    CleanMergeReads(base, side, side, printable);
  }

  lemma {:induction false} UnionSame(tags: seq<string>, some: seq<string>)
    requires forall t :: t in some ==> t in tags
    ensures Union(tags, some) == tags
    decreases |some|
  {
    if some != [] { UnionSame(tags, some[1..]); }
  }

  // Conflicts

  predicate StartsWith(s: string, prefix: string) { prefix <= s }

  /** `a` and `b` are disjoint parts of `s`, in this order. */
  ghost predicate DisjointParts(s: string, a: string, b: string) {
    exists i, j :: PartAt(s, i, a) && PartAt(s, j, b) && i + |a| <= j
  }

  predicate PartAt(s: string, i: int, part: string) {
    0 <= i && i + |part| <= |s| && s[i..i + |part|] == part
  }

  lemma RenderStarts(fm: Frontmatter, rest: string, printable: Printable)
    ensures (Render(fm, printable) + rest)[0] == '-'
  {
    hide BlockLines;
  }

  lemma HeaderStarts(ours: string, printable: Printable)
    ensures CONFLICT_MARKER <= ConflictHeader(ours, printable)
    ensures FirstLine(ConflictHeader(ours, printable)) == CONFLICT_MARKER + "\n"
    ensures ConflictHeader(ours, printable)[0] == '<'
  {
    hide ActorLine;
    var rest := CONFLICT_NOTE + "\n\n" + ActorLine("ours", ours, printable);
    assert ConflictHeader(ours, printable) == CONFLICT_MARKER + "\n" + rest;
    HeaderOf(CONFLICT_MARKER, rest) by { MarkerIsOneLine(); }
  }

  lemma HeaderOf(marker: string, rest: string)
    requires NoNewline(marker) && marker != ""
    ensures marker <= marker + "\n" + rest
    ensures FirstLine(marker + "\n" + rest) == marker + "\n"
    ensures (marker + "\n" + rest)[0] == marker[0]
  {
    FirstLineOf(marker, rest);
  }

  lemma MarkerIsOneLine()
    ensures NoNewline(CONFLICT_MARKER) && CONFLICT_MARKER[0] == '<'
  {
  }

  lemma ConflictKeepsBoth(ours: string, theirs: string, printable: Printable)
    ensures DisjointParts(RenderConflict(ours, theirs, printable), TrimEnd(ours), TrimEnd(theirs))
    ensures StartsWith(RenderConflict(ours, theirs, printable), CONFLICT_MARKER)
  {
    hide ConflictHeader, ConflictSeparator, TrimEnd;
    var a, b := TrimEnd(ours), TrimEnd(theirs);
    var header, separator := ConflictHeader(ours, printable), ConflictSeparator(theirs, printable);
    var s := RenderConflict(ours, theirs, printable);
    assert s == header + a + separator + b + "\n";
    var i := |header|;
    var j := i + |a| + |separator|;
    assert PartAt(s, i, a) && PartAt(s, j, b);
    HeaderStarts(ours, printable);
  }

  /**
   In a conflicted file each version stands right below the line that names its own side and its own author, as far as
   its frontmatter tells who that is.
   */
  lemma ConflictNamesActors(base: string, ours: string, theirs: string, printable: Printable)
    requires Conflict(ParseSides(base, ours, theirs))
    ensures var out := MergeTexts(base, ours, theirs, printable);
      && "<!-- wkp-merge-conflict -->\n" <= out
      && DisjointParts(out, Named("ours", ours, printable), Named("theirs", theirs, printable))
  {
    hide *;
    NamedIs("ours", ours, printable);
    NamedIs("theirs", theirs, printable);
    ConflictText(base, ours, theirs, printable);
    Assembled(CONFLICT_MARKER, CONFLICT_NOTE, ActorLine("ours", ours, printable), TrimEnd(ours),
              ActorLine("theirs", theirs, printable), TrimEnd(theirs));
    MarkerFirst();
    LabelledParts(CONFLICT_MARKER + "\n", CONFLICT_NOTE + "\n\n", Named("ours", ours, printable),
                  Named("theirs", theirs, printable), MergeTexts(base, ours, theirs, printable));
  }

  lemma ConflictText(base: string, ours: string, theirs: string, printable: Printable)
    requires Conflict(ParseSides(base, ours, theirs))
    ensures MergeTexts(base, ours, theirs, printable)
         == (CONFLICT_MARKER + "\n" + CONFLICT_NOTE + "\n\n" + ActorLine("ours", ours, printable)) + TrimEnd(ours)
            + ("\n\n" + ActorLine("theirs", theirs, printable)) + TrimEnd(theirs) + "\n"
  {
    hide Parse, TrimEnd, ActorLine, Conflict, CONFLICT_MARKER, CONFLICT_NOTE;
  }

  lemma Assembled(marker: string, note: string, a: string, ours: string, b: string, theirs: string)
    ensures (marker + "\n" + note + "\n\n" + a) + ours + ("\n\n" + b) + theirs + "\n"
         == (marker + "\n") + (note + "\n\n") + (a + ours) + "\n\n" + (b + theirs) + "\n"
  {
  }

  /** A version below its line, less trailing white space. */
  function Named(side: string, text: string, printable: Printable): string {
    var actor := Parse(text).frontmatter.provenance.actor;
    var name := if actor == None then "unknown" else actor.value;
    "<!-- " + side + " (provenance.actor: " + Debug(name, printable) + ") -->\n" + TrimEnd(text)
  }

  lemma NamedIs(side: string, text: string, printable: Printable)
    ensures Named(side, text, printable) == ActorLine(side, text, printable) + TrimEnd(text)
  {
    hide Parse, Debug, TrimEnd;
  }

  lemma LabelledParts(first: string, note: string, a: string, b: string, out: string)
    requires out == first + note + a + "\n\n" + b + "\n"
    ensures first <= out && DisjointParts(out, a, b)
  {
    var i := |first + note|;
    assert PartAt(out, i, a) && PartAt(out, i + |a| + 2, b);
  }

  lemma MarkerFirst()
    ensures CONFLICT_MARKER + "\n" == "<!-- wkp-merge-conflict -->\n"
  {
  }

  /** A text that does not open with a delimiter is all body. */
  lemma NoOpening(text: string)
    requires text != "" && !IsSpace(text[0]) && text[0] != '-'
    ensures Parse(text) == Parsed(EMPTY, text, [])
  {
    hide SplitAtClosing, ParseLines;
    var first := FirstLine(text);
    assert first[0] == text[0];
    assert "" + first == first;
    OkfLines.NotDelimiter("", first);
  }

  /**
   The output starts with the conflict marker exactly when a scalar or the body diverged.  Then both inputs, less
   trailing white space, are disjoint parts of it in order, and re-reading it gives no frontmatter and the whole
   text as body.
   */
  lemma MarkerIffConflict(base: string, ours: string, theirs: string, printable: Printable)
    ensures var out := MergeTexts(base, ours, theirs, printable);
      && (StartsWith(out, CONFLICT_MARKER) <==> Conflict(ParseSides(base, ours, theirs)))
      && (Conflict(ParseSides(base, ours, theirs)) ==>
            && DisjointParts(out, TrimEnd(ours), TrimEnd(theirs))
            && Parse(out) == Parsed(EMPTY, out, []))
  {
    hide Parse, Render, RenderConflict, Conflict, DisjointParts, TrimEnd, MergedFrontmatter;
    var s := ParseSides(base, ours, theirs);
    MarkerIsOneLine();
    if Conflict(s) {
      ConflictKeepsBoth(ours, theirs, printable);
      var out := RenderConflict(ours, theirs, printable);
      assert out[0] == CONFLICT_MARKER[0];
      NoOpening(out);
    } else {
      var rest := "\n" + MergedBody(s);
      RenderStarts(MergedOf(s), rest, printable);
      assert Render(MergedOf(s), printable) + "\n" + MergedBody(s) == Render(MergedOf(s), printable) + rest;
    }
  }

  // Where keeping everything stops

  /**
   `refs`, tokens and provenance of a clean merge are what re-reading ours alone would give, whatever theirs are.  When
   the merged frontmatter is canonical they are ours, so that theirs survive exactly where they are there already.
   */
  lemma RestComesFromOurs(base: string, ours: string, theirs: string, printable: Printable)
    requires !Conflict(ParseSides(base, ours, theirs))
    ensures var s := ParseSides(base, ours, theirs);
      var o, t := s.ours.frontmatter, s.theirs.frontmatter;
      var m, alone := Parse(MergeTexts(base, ours, theirs, printable)).frontmatter, Normalize(o, printable);
      && m.refs == alone.refs && m.tokensRaw == alone.tokensRaw && m.tokens == alone.tokens
      && m.provenance == alone.provenance
      && (Canonical(MergedOf(s), printable) ==>
            && m.refs == o.refs && m.tokensRaw == o.tokensRaw && m.tokens == o.tokens && m.provenance == o.provenance
            && (Elements(t.refs) <= Elements(m.refs) <==> Elements(t.refs) <= Elements(o.refs))
            && (m.tokensRaw == t.tokensRaw <==> t.tokensRaw == o.tokensRaw)
            && (m.provenance == t.provenance <==> t.provenance == o.provenance))
  {
    hide Parse, MergeTexts, Canonical, ScalarConflict, Union, MaxUpdated, ThreeWay;
    hide ReadBack, ReadBackTokens, ReadBackList, ReadBackProvenance, QuotedValue;
    CleanMergeReads(base, ours, theirs, printable);
    CleanMergeFaithfulIff(base, ours, theirs, printable);
  }

  /** No parsed value of either side is missing: every change of either, and the tags and references of both. */
  predicate LosesNothing(b: Parsed, o: Parsed, t: Parsed, m: Parsed) {
    && KeepsAllChanges(b.frontmatter, o.frontmatter, t.frontmatter, m.frontmatter)
    && Elements(o.frontmatter.tags) + Elements(t.frontmatter.tags) <= Elements(m.frontmatter.tags)
    && Elements(o.frontmatter.refs) + Elements(t.frontmatter.refs) <= Elements(m.frontmatter.refs)
    && KeepsChanges(b.frontmatter.tokensRaw, o.frontmatter.tokensRaw, t.frontmatter.tokensRaw, m.frontmatter.tokensRaw)
    && KeepsChanges(b.frontmatter.provenance, o.frontmatter.provenance, t.frontmatter.provenance,
                    m.frontmatter.provenance)
    && NoEarlier(o.frontmatter.updated, m.frontmatter.updated)
    && NoEarlier(t.frontmatter.updated, m.frontmatter.updated)
    && KeepsChanges("\n" + b.body, "\n" + o.body, "\n" + t.body, m.body)
  }

  /** Nothing of either side is missing in `out`, neither a parsed value nor a line that no value shows. */
  predicate DiscardsNothing(base: string, ours: string, theirs: string, out: string) {
    && LosesNothing(Parse(base), Parse(ours), Parse(theirs), Parse(out))
    && Elements(Unread(ours)) + Elements(Unread(theirs)) <= Elements(Unread(out))
  }

  /** Theirs has nothing new where the driver does not look. */
  predicate NothingNewInTheirs(b: Frontmatter, o: Frontmatter, t: Frontmatter) {
    && Elements(t.refs) <= Elements(o.refs)
    && (t.tokensRaw == b.tokensRaw || t.tokensRaw == o.tokensRaw)
    && (t.provenance == b.provenance || t.provenance == o.provenance)
  }

  lemma OnlyResolved<T>(base: T, ours: T, theirs: T, v: T)
    requires ThreeWay(base, ours, theirs).Some?
    ensures KeepsChanges(base, ours, theirs, v) <==> v == Resolved(base, ours, theirs)
  {
  }

  /** Ours's tokens and provenance as they are read back, and the later date, still hold what both sides changed. */
  predicate RestSurvives(b: Frontmatter, o: Frontmatter, t: Frontmatter, printable: Printable) {
    var updated := ReadBack(QuotedValue(MaxUpdated(o.updated, t.updated), printable));
    && Elements(t.refs) <= Elements(o.refs)
    && KeepsChanges(b.tokensRaw, o.tokensRaw, t.tokensRaw, ReadBack(TokensValue(o)))
    && KeepsChanges(b.provenance, o.provenance, t.provenance, ReadBackProvenance(o.provenance, printable))
    && NoEarlier(o.updated, updated) && NoEarlier(t.updated, updated)
  }

  lemma ScalarsKeptIff(b: Frontmatter, o: Frontmatter, t: Frontmatter, printable: Printable)
    requires !ScalarConflict(b, o, t) && SingleLine(MergedFrontmatter(b, o, t))
    ensures var m := MergedFrontmatter(b, o, t);
      KeepsAllChanges(b, o, t, Normalize(m, printable))
      <==> && QuotedCanonical(m.title, printable) && TypeCanonical(m.itemType) && ScopeCanonical(m.scope)
           && (m.workspace.Some? ==> BareCanonical(m.workspace.value))
           && VisibilityCanonical(m.visibility) && ConfidenceCanonical(m.confidence)
           && QuotedCanonical(m.expires, printable)
  {
    hide ThreeWay, Resolved, KeepsChanges, QuotedValue, QuotedCanonical, TypeCanonical, ScopeCanonical, NoNewline;
    hide VisibilityCanonical, ConfidenceCanonical, ShowItemType, ShowScope, ShowVisibility, ShowConfidence, BareKept;
    hide ItemTypeOf, ScopeOf, VisibilityOf, ConfidenceOf, Union, MaxUpdated, Unquote, OptString, ReadBackList;
    hide ReadBackProvenance, ReadBackTokens, TokensValue, ShowSource;
    var m := MergedFrontmatter(b, o, t);
    var n := Normalize(m, printable);
    OnlyResolved(b.title, o.title, t.title, n.title);
    OnlyResolved(b.itemType, o.itemType, t.itemType, n.itemType);
    OnlyResolved(b.scope, o.scope, t.scope, n.scope);
    OnlyResolved(b.workspace, o.workspace, t.workspace, n.workspace);
    OnlyResolved(b.visibility, o.visibility, t.visibility, n.visibility);
    OnlyResolved(b.confidence, o.confidence, t.confidence, n.confidence);
    OnlyResolved(b.expires, o.expires, t.expires, n.expires);
    QuotedIff(m.title, printable);
    TypeIff(m.itemType);
    ScopeIff(m.scope);
    if m.workspace.Some? { BareIff(m.workspace.value); }
    VisibilityIff(m.visibility);
    ConfidenceIff(m.confidence);
    QuotedIff(m.expires, printable);
  }

  /** Exactly when every parsed value survives, for every clean merge, canonical or not. */
  lemma NoValueLostIff(base: string, ours: string, theirs: string, printable: Printable)
    requires !Conflict(ParseSides(base, ours, theirs))
    ensures var s := ParseSides(base, ours, theirs);
      LosesNothing(s.base, s.ours, s.theirs, Parse(MergeTexts(base, ours, theirs, printable)))
      <==> && MostlyCanonical(MergedOf(s), printable)
           && RestSurvives(s.base.frontmatter, s.ours.frontmatter, s.theirs.frontmatter, printable)
  {
    hide Parse, Normalize, MergeTexts, ScalarConflict, KeepsAllChanges, NoEarlier, KeepsChanges, Union, MaxUpdated;
    hide ListCanonical, QuotedCanonical, TypeCanonical, ScopeCanonical, VisibilityCanonical, ConfidenceCanonical;
    hide BareCanonical, SingleLine;
    var s := ParseSides(base, ours, theirs);
    var b, o, t := s.base.frontmatter, s.ours.frontmatter, s.theirs.frontmatter;
    CleanMergeReads(base, ours, theirs, printable);
    ParsedIsSingleLine(base);
    ParsedIsSingleLine(ours);
    ParsedIsSingleLine(theirs);
    MergedIsSingleLine(b, o, t);
    ScalarsKeptIff(b, o, t, printable);
    PrefixedBodies(s);
    RestNormalized(MergedOf(s), o, printable);
    TagsKeptIff(o, t, MergedOf(s));
    RefsKeptIff(o, t);
  }

  /** What re-reading makes of the fields that are not merged by the three-way rule. */
  lemma RestNormalized(m: Frontmatter, o: Frontmatter, printable: Printable)
    requires m.tokensRaw == o.tokensRaw && m.tokens == o.tokens && m.provenance == o.provenance && m.refs == o.refs
    ensures var n := Normalize(m, printable);
      && n.tokensRaw == ReadBack(TokensValue(o)) && n.provenance == ReadBackProvenance(o.provenance, printable)
      && n.tags == ReadBackList(m.tags) && n.refs == ReadBackList(o.refs)
      && n.updated == ReadBack(QuotedValue(m.updated, printable))
  {
    hide ReadBack, ReadBackTokens, ReadBackList, ReadBackProvenance, QuotedValue;
  }

  lemma TagsKeptIff(o: Frontmatter, t: Frontmatter, m: Frontmatter)
    requires m.tags == Union(o.tags, t.tags) && SingleLine(m)
    ensures Elements(o.tags) + Elements(t.tags) <= Elements(ReadBackList(m.tags)) <==> ListCanonical(m.tags)
  {
    hide ReadBackList, ListCanonical, Union, NoNewline, ShowItemType, ShowScope, ShowVisibility, ShowConfidence;
    UnionElements(o.tags, t.tags);
    NoItemMissingIff(m.tags);
  }

  lemma RefsKeptIff(o: Frontmatter, t: Frontmatter)
    requires SingleLine(o)
    ensures Elements(o.refs) + Elements(t.refs) <= Elements(ReadBackList(o.refs))
       <==> ListCanonical(o.refs) && Elements(t.refs) <= Elements(o.refs)
  {
    hide ReadBackList, ListCanonical, NoNewline, ShowItemType, ShowScope, ShowVisibility, ShowConfidence;
    NoItemMissingIff(o.refs);
    ListIff(o.refs);
  }

  /** With canonical frontmatter that is a condition on theirs alone. */
  lemma NothingNewIff(base: string, ours: string, theirs: string, printable: Printable)
    requires !Conflict(ParseSides(base, ours, theirs))
    requires Canonical(MergedOf(ParseSides(base, ours, theirs)), printable)
    ensures var s := ParseSides(base, ours, theirs);
      LosesNothing(s.base, s.ours, s.theirs, Parse(MergeTexts(base, ours, theirs, printable)))
      <==> NothingNewInTheirs(s.base.frontmatter, s.ours.frontmatter, s.theirs.frontmatter)
  {
    hide Parse, Normalize, MergeTexts, Canonical, ScalarConflict, KeepsAllChanges, MergedFrontmatter, NoEarlier;
    CleanMergeKeepsChanges(base, ours, theirs, printable);
    RestComesFromOurs(base, ours, theirs, printable);
  }

  /** What is unread in a clean merge: with all but tokens and provenance canonical, only a line of blank tokens. */
  lemma CleanMergeUnread(base: string, ours: string, theirs: string, printable: Printable)
    requires !Conflict(ParseSides(base, ours, theirs))
    ensures var s, out := ParseSides(base, ours, theirs), MergeTexts(base, ours, theirs, printable);
      && (MostlyCanonical(MergedOf(s), printable) ==> Unread(out) == BlankTokens(s.ours.frontmatter))
      && (Canonical(MergedOf(s), printable) ==> Unread(out) == [])
  {
    hide Parse, Render, SingleLine, Conflict, Canonical, Unread, BlankLine, BlankLines, MostlyCanonical;
    hide LeadingFields, TrailingFields, Union, MaxUpdated, Resolved;
    var s := ParseSides(base, ours, theirs);
    ParsedIsSingleLine(base);
    ParsedIsSingleLine(ours);
    ParsedIsSingleLine(theirs);
    MergedIsSingleLine(s.base.frontmatter, s.ours.frontmatter, s.theirs.frontmatter);
    var m, body := MergedOf(s), "\n" + MergedBody(s);
    assert Render(m, printable) + "\n" + MergedBody(s) == Render(m, printable) + body;
    PrintedUnread(m, body, printable);
    if MostlyCanonical(m, printable) { MostlySolid(m, printable); }
    if Canonical(m, printable) { CanonicalIsRead(m, body, printable); }
  }

  function BlankTokens(o: Frontmatter): seq<string> { BlankLine(Field("tokens", TokensValue(o))) }

  /**
   Exactly when a clean merge discards nothing, for any three texts: what the three-way rule chose and the lists can be
   read back, ours's tokens and provenance still hold what both sides changed, and neither side has a line that its
   parsed frontmatter does not show, unless it is the line that blank tokens are printed as.  With canonical merged
   frontmatter: if and only if theirs adds no reference, changes neither tokens nor provenance to something that ours
   does not have, and neither side has an unread line.  And the merge is re-read as it was computed and discards
   nothing, if and only if that holds and it is canonical.
   */
  lemma NothingLostIff(base: string, ours: string, theirs: string, printable: Printable)
    requires !Conflict(ParseSides(base, ours, theirs))
    ensures var s, out := ParseSides(base, ours, theirs), MergeTexts(base, ours, theirs, printable);
      var b, o, t := s.base.frontmatter, s.ours.frontmatter, s.theirs.frontmatter;
      var kept := NothingNewInTheirs(b, o, t) && Unread(ours) == [] && Unread(theirs) == [];
      && (DiscardsNothing(base, ours, theirs, out)
          <==> && MostlyCanonical(MergedOf(s), printable) && RestSurvives(b, o, t, printable)
               && Elements(Unread(ours)) + Elements(Unread(theirs)) <= Elements(BlankTokens(o)))
      && (Canonical(MergedOf(s), printable) ==> (DiscardsNothing(base, ours, theirs, out) <==> kept))
      && (Parse(out).frontmatter == MergedOf(s) && DiscardsNothing(base, ours, theirs, out)
          <==> Canonical(MergedOf(s), printable) && kept)
  {
    hide Parse, MergeTexts, Canonical, Conflict, LosesNothing, MergedFrontmatter, Unread, NothingNewInTheirs;
    hide MostlyCanonical, RestSurvives, BlankTokens;
    CleanMergeFaithfulIff(base, ours, theirs, printable);
    NoValueLostIff(base, ours, theirs, printable);
    CleanMergeUnread(base, ours, theirs, printable);
    if Canonical(MergedOf(ParseSides(base, ours, theirs)), printable) {
      NothingNewIff(base, ours, theirs, printable);
      NoElements(Unread(ours));
      NoElements(Unread(theirs));
    }
  }

  lemma NoElements(s: seq<string>)
    ensures Elements(s) <= Elements([]) <==> s == []
  {
    if s != [] { assert s[0] in Elements(s); }
  }

  /** A line with an unknown key that only our side added is gone, though the merge is clean and every value is kept. */
  lemma UnknownLineIsLost(printable: Printable)
    ensures var base, ours := FileOf([], "text"), FileOf([Field("custom", Some("x"))], "text");
      var s, out := ParseSides(base, ours, base), MergeTexts(base, ours, base, printable);
      && !Conflict(s) && Canonical(MergedOf(s), printable)
      && NothingNewInTheirs(s.base.frontmatter, s.ours.frontmatter, s.theirs.frontmatter)
      && LosesNothing(s.base, s.ours, s.theirs, Parse(out))
      && Unread(base) == [] && |Unread(ours)| == 1 && Unread(out) == []
      && out == MergeTexts(base, base, base, printable)
  {
    hide Parse, FileOf, Render, SetField, KeyOf, Canonical, Unread, LosesNothing, ScalarSetting;
    var fields := [Field("custom", Some("x"))];
    var base, ours := FileOf([], "text"), FileOf(fields, "text");
    WrittenFileParses([], "text");
    assert SetFields(EMPTY, []) == EMPTY;
    UnknownField();
    WrittenFileParses(fields, "text");
    assert fields[1..] == [];
    assert SetFields(EMPTY, fields) == EMPTY;
    assert Parse(ours) == Parse(base);
    EmptyIsCanonical(printable);
    assert !Conflict(ParseSides(base, ours, base)) && MergedOf(ParseSides(base, ours, base)) == EMPTY;
    NothingNewIff(base, ours, base, printable);
    CleanMergeUnread(base, ours, base, printable);
    FieldsUnread(fields, "text");
    FieldsUnread([], "text");
  }

  lemma EmptyIsCanonical(printable: Printable)
    ensures Canonical(EMPTY, printable)
  {
  }

  lemma UnknownField()
    ensures var f := Field("custom", Some("x"));
      && ValidField(f) && SetField(EMPTY, KeyOf("custom"), Some("x")) == EMPTY
      && |LostLines(FieldSettings([f], true))| == 1 && LostLines(FieldSettings([], true)) == []
  {
    hide Trim, Unquote, OkfLines.LineFor, ValidField;
    var f := Field("custom", Some("x"));
    assert KeyOf("custom") == UnknownKey;
    assert Trim("x") == "x" by { TrimFixpoint("x"); }
    LettersMakeField("custom", Some("x"));
    assert [f][1..] == [];
    var s := FieldSetting(f, true)[0];
    assert s.Nothing? && |s.lines| == 1;
    assert FieldSettings([f], true) == [s];
    assert [s][1..] == [];
  }

  /** A reference that only their side added is gone after a clean merge. */
  lemma TheirNewRefIsLost(printable: Printable)
    ensures var base, theirs := FileOf([], "text"), FileOf([Field("refs", Some("[x]"))], "text");
      && !Conflict(ParseSides(base, base, theirs))
      && Parse(theirs).frontmatter.refs == ["x"]
      && Parse(MergeTexts(base, base, theirs, printable)).frontmatter.refs == []
  {
    hide Parse, FileOf, MergeTexts, Unquote, ListOf, SetField, KeyOf, Canonical;
    var fields := [Field("refs", Some("[x]"))];
    var base, theirs := FileOf([], "text"), FileOf(fields, "text");
    var withRef := EMPTY.(refs := ["x"]);
    WrittenFileParses([], "text");
    assert SetFields(EMPTY, []) == EMPTY;
    OneRef();
    WrittenFileParses(fields, "text");
    assert fields[1..] == [];
    assert SetFields(EMPTY, fields) == withRef;
    assert ScalarConflict(EMPTY, EMPTY, withRef) == false;
    assert MergedOf(ParseSides(base, base, theirs)) == EMPTY;
    CleanMergeReads(base, base, theirs, printable);
    EmptyListReadBack();
  }

  lemma OneRef()
    ensures ValidField(Field("refs", Some("[x]")))
    ensures SetField(EMPTY, KeyOf("refs"), Some("[x]")) == EMPTY.(refs := ["x"])
  {
    hide Trim, Unquote, ListOf, KeyOf, ValidField;
    KeyNames();
    assert Join(["x"]) == "x";
    BracketsKept("x");
    assert "[" + "x" + "]" == "[x]";
    LettersMakeField("refs", Some("[x]"));
    assert ListOf("[x]") == ["x"] by {
      assert ListCanonical(["x"]) by { assert ItemCanonical("x"); }
      ListIff(["x"]);
    }
  }

  /** Merging three identical files can alter the frontmatter: a quote inside a title comes back escaped. */
  lemma QuoteInTitleIsAltered(printable: Printable)
    ensures var file := FileOf([Field("title", Some("a\"b"))], "text");
      && !Conflict(ParseSides(file, file, file))
      && Parse(file).frontmatter.title == Some("a\"b")
      && Parse(MergeTexts(file, file, file, printable)).frontmatter.title != Some("a\"b")
  {
    hide Parse, FileOf, MergeTexts, SetField, KeyOf, ValidField, ReadBack, QuotedValue;
    var title := "a\"b";
    var fields := [Field("title", Some(title))];
    var file := FileOf(fields, "text");
    QuotedTitle();
    WrittenFileParses(fields, "text");
    assert fields[1..] == [];
    assert SetFields(EMPTY, fields) == EMPTY.(title := Some(title));
    CleanMergeReads(file, file, file, printable);
    QuotedIff(Some(title), printable);
    assert !Plain(title[1], printable);
  }

  lemma QuotedTitle()
    ensures ValidField(Field("title", Some("a\"b")))
    ensures SetField(EMPTY, KeyOf("title"), Some("a\"b")) == EMPTY.(title := Some("a\"b"))
  {
    hide KeyOf, ValidField, ApplyScalarField, Trim;
    KeyNames();
    var s := "a\"b";
    LettersMakeField("title", Some(s));
    assert Trimmed(s) && !QuoteWrapped(s) && |s| == 3;
    assert |"null"| == 4 && |"~"| == 1;
    BareIff(s);
    assert Trim(s) == s by { TrimFixpoint(s); }
    assert ApplyScalarField(EMPTY, TitleKey, s) == EMPTY.(title := Some(s)) by { TitleApplied(s); }
    UnquoteFixpoint(s);
  }

  lemma TitleApplied(s: string)
    ensures ApplyScalarField(EMPTY, TitleKey, s) == EMPTY.(title := OptString(s))
  {
  }

  /** `text` merged with itself `n` times over. */
  function Remerged(text: string, n: nat, printable: Printable): string {
    if n == 0 then text
    else var t := Remerged(text, n - 1, printable); MergeTexts(t, t, t, printable)
  }

  function Newlines(n: nat): string { if n == 0 then "" else "\n" + Newlines(n - 1) }

  /** Merging identical files is never the identity: each pass puts one more newline before the body. */
  lemma {:induction false} RemergeGrowsBody(text: string, n: nat, printable: Printable)
    ensures Parse(Remerged(text, n, printable)).body == Newlines(n) + Parse(text).body
  {
    hide Parse, MergeTexts, Normalize, MergedFrontmatter, ThreeWay;
    if n == 0 {
      assert "" + Parse(text).body == Parse(text).body;
    } else {
      var t := Remerged(text, n - 1, printable);
      RemergeGrowsBody(text, n - 1, printable);
      UnchangedSideYields(t, t, printable);
      assert "\n" + (Newlines(n - 1) + Parse(text).body) == Newlines(n) + Parse(text).body;
    }
  }
}
