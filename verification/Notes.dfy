/**
 The notes that resolving a modify/delete conflict leaves in `inbox/`
 (crates/wkp-cli/src/resolve_conflicts.rs and remember.rs).
 */
module Notes {
  import opened Wrappers
  import opened Git
  import opened Okf
  import opened OkfCanonical
  import opened OkfRoundTrip
  import opened Text

  function Line(text: string): string { text + "\n" }

  /** `remember_frontmatter_block` without a scope and a session. */
  function RememberBlock(title: string, itemType: string, actor: string, printable: Printable): string {
    "---\n" + (Line("title: " + Debug(title, printable)) + Line("type: " + itemType) + Line("provenance:")
              + Line("  actor: " + Debug(actor, printable)) + Line("  source: conversation")
              + Line("confidence: proposed"))
    + "---\n"
  }

  function NoteTitle(path: string): string { "deletion of " + path + " needs confirmation" }

  function NoteClaim(path: string, deletedBy: Side): string {
    var deleter := match deletedBy case Ours => "our side" case Theirs => "the other side";
    var survivor := match deletedBy case Ours => "the other side's" case Theirs => "our";
    "\n`" + path + "` was deleted by " + deleter + " during a sync merge, but " + survivor
  }

  function NoteBody(path: string, deletedBy: Side): string {
    NoteClaim(path, deletedBy)
    + (" modification survived and was kept in place (design 6.2: a deletion always loses to a modification)."
       + " Confirm whether `" + path + "` should still be deleted.\n")
  }

  function NoteText(path: string, deletedBy: Side, printable: Printable): string {
    RememberBlock(NoteTitle(path), "project-state", "agent:wkp-merge-resolver", printable) + NoteBody(path, deletedBy)
  }

  const ACTOR := "agent:wkp-merge-resolver"

  function NoteFrontmatter(path: string): Frontmatter {
    EMPTY.(title := Some(NoteTitle(path)), itemType := Some(ProjectState),
           provenance := Provenance(Some(ACTOR), None, Some(Conversation)), confidence := Some(Proposed))
  }

  lemma Labels()
    ensures "title" + ": " == "title: " && "  actor" + ": " == "  actor: "
    ensures "type" + ": " + "project-state" == "type: project-state"
    ensures "  source" + ": " + "conversation" == "  source: conversation"
    ensures "confidence" + ": " + "proposed" == "confidence: proposed"
  {
  }

  lemma LeadingLines(path: string, printable: Printable)
    ensures FieldLines(LeadingFields(NoteFrontmatter(path), printable))
         == ["title: " + Debug(NoteTitle(path), printable), "type: project-state"]
  {
    hide Debug, NoteTitle, FieldLines, FieldLine;
    Labels();
    var fs := LeadingFields(NoteFrontmatter(path), printable);
    assert fs == [fs[0], fs[1]] + fs[2..];
    SomeThenSome(fs[0], fs[1], fs[2..]);
    NoFields(fs[2..]);
  }

  lemma SourceLines(path: string, printable: Printable)
    ensures ProvenanceLines(NoteFrontmatter(path).provenance, printable)
         == ["provenance:", "  actor: " + Debug(ACTOR, printable), "  source: conversation"]
  {
    hide Debug, FieldLines, FieldLine;
    Labels();
    var fs := ProvenanceFields(NoteFrontmatter(path).provenance, printable);
    assert fs == [fs[0], fs[1], fs[2]];
    SomeNoneSome(fs[0], fs[1], fs[2]);
  }

  lemma ConfidenceLines(path: string, printable: Printable)
    ensures FieldLines(TrailingFields(NoteFrontmatter(path), printable)) == ["confidence: proposed"]
  {
    Labels();
    hide FieldLines, FieldLine;
    var fs := TrailingFields(NoteFrontmatter(path), printable);
    assert fs == [fs[0]] + fs[1..];
    SomeThen(fs[0], fs[1..]);
    NoFields(fs[1..]);
  }

  lemma BlockIsRendered(path: string, printable: Printable)
    ensures RememberBlock(NoteTitle(path), "project-state", ACTOR, printable)
      == Render(NoteFrontmatter(path), printable)
  {
    hide Debug, NoteTitle, FieldLines, LeadingFields, TrailingFields, ProvenanceLines, Unlines, Line, NoteFrontmatter;
    hide BlockLines;
    LeadingLines(path, printable);
    SourceLines(path, printable);
    ConfidenceLines(path, printable);
    Labels();
    var a, d := "title: " + Debug(NoteTitle(path), printable), "  actor: " + Debug(ACTOR, printable);
    assert "type: " + "project-state" == "type: project-state";
    InBlock(NoteFrontmatter(path), printable, a, "type: project-state", "provenance:", d, "  source: conversation",
            "confidence: proposed");
    SixLines(a, "type: project-state", "provenance:", d, "  source: conversation", "confidence: proposed");
  }

  lemma InBlock(fm: Frontmatter, printable: Printable, a: string, b: string, c: string, d: string, e: string, f: string)
    requires FieldLines(LeadingFields(fm, printable)) == [a, b]
    requires ProvenanceLines(fm.provenance, printable) == [c, d, e]
    requires FieldLines(TrailingFields(fm, printable)) == [f]
    ensures BlockLines(fm, printable) == [a, b, c, d, e, f]
  {
  }

  lemma SixLines(a: string, b: string, c: string, d: string, e: string, f: string)
    ensures Unlines([a, b, c, d, e, f]) == Line(a) + Line(b) + Line(c) + Line(d) + Line(e) + Line(f)
  {
    FirstLineFirst(a, [b, c, d, e, f]);
    FirstLineFirst(b, [c, d, e, f]);
    FirstLineFirst(c, [d, e, f]);
    FirstLineFirst(d, [e, f]);
    FirstLineFirst(e, [f]);
    FirstLineFirst(f, []);
    hide Unlines, Line;
    assert [a] + [b, c, d, e, f] == [a, b, c, d, e, f];
    assert [b] + [c, d, e, f] == [b, c, d, e, f];
    assert [c] + [d, e, f] == [c, d, e, f];
    assert [d] + [e, f] == [d, e, f];
    assert [e] + [f] == [e, f];
  }

  lemma FirstLineFirst(first: string, rest: seq<string>)
    ensures Unlines([first] + rest) == Line(first) + Unlines(rest)
    ensures Unlines([first]) == Line(first)
  {
    assert ([first] + rest)[1..] == rest;
    assert [first][1..] == [];
  }

  lemma SomeThen(a: Field, rest: seq<Field>)
    requires a.value.Some?
    ensures FieldLines([a] + rest) == [a.name + ": " + a.value.value] + FieldLines(rest)
  {
    assert ([a] + rest)[1..] == rest;
  }

  lemma SomeThenSome(a: Field, b: Field, rest: seq<Field>)
    requires a.value.Some? && b.value.Some?
    ensures FieldLines([a, b] + rest) == [a.name + ": " + a.value.value, b.name + ": " + b.value.value]
      + FieldLines(rest)
  {
    SomeThen(a, [b] + rest);
    SomeThen(b, rest);
    assert [a, b] + rest == [a] + ([b] + rest);
  }

  lemma SomeNoneSome(a: Field, b: Field, c: Field)
    requires a.value.Some? && b.value == None && c.value.Some?
    ensures FieldLines([a, b, c]) == [a.name + ": " + a.value.value, c.name + ": " + c.value.value]
  {
    assert [a, b, c] == [a] + [b, c] && [b, c][1..] == [c] && [c] == [c] + [];
    SomeThen(a, [b, c]);
    SomeThen(c, []);
    assert FieldLines([b, c]) == FieldLines([c]);
  }

  lemma {:induction false} NoFields(fields: seq<Field>)
    requires forall f :: f in fields ==> f.value == None
    ensures FieldLines(fields) == []
  {
    if fields != [] { NoFields(fields[1..]); }
  }

  /**
   Whatever the path is called, even with quotes or newlines in it, the note is read as a proposal of the project's
   state with its whole text as the body and nothing to warn about.
   */
  lemma NoteIsProposed(path: string, deletedBy: Side, printable: Printable)
    ensures var p := Parse(NoteText(path, deletedBy, printable));
      && p.warnings == [] && p.body == NoteBody(path, deletedBy)
      && p.frontmatter.itemType == Some(ProjectState)
      && p.frontmatter.confidence == Some(Proposed)
      && p.frontmatter.provenance.source == Some(Conversation)
      && p.frontmatter.provenance.actor == Some("agent:wkp-merge-resolver") && p.frontmatter.provenance.session == None
      && p.frontmatter.scope == None && p.frontmatter.visibility == None
      && (AllPlain(path, printable) ==> p.frontmatter.title == Some("deletion of " + path + " needs confirmation"))
  {
    NoteNamesPath(path, printable);
    ActorReadBack(printable);
    hide Parse, Render, RememberBlock, NoteBody, Debug, NoteTitle, ReadBack, ReadBackList, ReadBackTokens, ItemTypeOf;
    hide ConfidenceOf, SourceOf, ShowItemType, ShowConfidence, ShowSource;
    BlockIsRendered(path, printable);
    var fm := NoteFrontmatter(path);
    KeywordsReadBack();
    assert ReadBack(None) == None by { NoneReadBack(); }
    RenderThenParse(fm, NoteBody(path, deletedBy), printable);
  }

  lemma NoteNamesPath(path: string, printable: Printable)
    ensures AllPlain(path, printable) ==>
      var title := Some("deletion of " + path + " needs confirmation");
      ReadBack(QuotedValue(Some(NoteTitle(path)), printable)) == title
  {
    hide ReadBack, QuotedValue, Plain;
    var title := NoteTitle(path);
    QuotedIff(Some(title), printable);
    if AllPlain(path, printable) {
      var a, b := "deletion of ", " needs confirmation";
      assert title == a + path + b;
      assert AllPlain(a, printable) && AllPlain(b, printable) by { WordsPlain(printable); }
      assert |title| > 4;
    }
  }

  lemma WordsPlain(printable: Printable)
    ensures AllPlain("deletion of ", printable) && AllPlain(" needs confirmation", printable)
    ensures AllPlain("agent:wkp-merge-resolver", printable)
  {
  }

  lemma ActorReadBack(printable: Printable)
    ensures ReadBack(QuotedValue(Some(ACTOR), printable)) == Some("agent:wkp-merge-resolver")
  {
    hide ReadBack, QuotedValue, AllPlain;
    WordsPlain(printable);
    QuotedIff(Some(ACTOR), printable);
  }

  /** The note says who deleted the file and whose modification is kept. */
  lemma NoteNamesSides(path: string)
    ensures "\n`" + path + "` was deleted by " + "our side" + " during a sync merge, but " + "the other side's"
         <= NoteBody(path, Ours)
    ensures "\n`" + path + "` was deleted by " + "the other side" + " during a sync merge, but " + "our"
         <= NoteBody(path, Theirs)
  {
    assert NoteClaim(path, Ours)
        == "\n`" + path + "` was deleted by " + "our side" + " during a sync merge, but " + "the other side's";
    assert NoteClaim(path, Theirs)
        == "\n`" + path + "` was deleted by " + "the other side" + " during a sync merge, but " + "our";
    hide NoteClaim;
    StartsWithClaim(path, Ours);
    StartsWithClaim(path, Theirs);
  }

  lemma StartsWithClaim(path: string, deletedBy: Side)
    ensures NoteClaim(path, deletedBy) <= NoteBody(path, deletedBy)
  {
    hide NoteClaim;
  }

  lemma NoneReadBack()
    ensures ReadBack(None) == None
  {
  }

  lemma KeywordsReadBack()
    ensures NoNewline(ShowItemType(ProjectState)) && NoNewline(ShowConfidence(Proposed))
      && NoNewline(ShowSource(Conversation))
    ensures MapOption(ReadBack(Some(ShowItemType(ProjectState))), ItemTypeOf) == Some(ProjectState)
    ensures MapOption(ReadBack(Some(ShowConfidence(Proposed))), ConfidenceOf) == Some(Proposed)
    ensures MapOption(ReadBack(Some(ShowSource(Conversation))), SourceOf) == Some(Conversation)
  {
    hide Unquote;
    BareIff("project-state");
    BareIff("proposed");
    BareIff("conversation");
  }
}
