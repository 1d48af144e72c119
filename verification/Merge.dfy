/**
 The three-way merge driver (crates/wkp-core/src/merge.rs): what it computes, as functions of the three texts,
 and the loops that compute it.
 */
module Merge {
  import opened Wrappers
  import opened Text
  import opened Okf
  import OkfProgram

  const CONFLICT_MARKER := "<!-- wkp-merge-conflict -->"

  const CONFLICT_NOTE :=
    "<!-- wkp: this item could not be merged structurally; both versions are kept below. "
    + "Resolve by hand and commit normally. -->"

  /** The three versions of one file, parsed. */
  datatype Sides = Sides(base: Parsed, ours: Parsed, theirs: Parsed)

  function ParseSides(base: string, ours: string, theirs: string): Sides {
    Sides(Parse(base), Parse(ours), Parse(theirs))
  }

  /** `None` when both sides changed the value, differently. */
  function ThreeWay<T(==)>(base: T, ours: T, theirs: T): Option<T> {
    if ours == theirs then Some(ours)
    else if ours == base then Some(theirs)
    else if theirs == base then Some(ours)
    else None
  }

  /** What `resolve_scalar` leaves in the field. */
  function Resolved<T(==)>(base: T, ours: T, theirs: T): T {
    match ThreeWay(base, ours, theirs)
    case Some(v) => v
    case None => ours
  }

  predicate ScalarConflict(b: Frontmatter, o: Frontmatter, t: Frontmatter) {
    || ThreeWay(b.title, o.title, t.title).None?
    || ThreeWay(b.itemType, o.itemType, t.itemType).None?
    || ThreeWay(b.scope, o.scope, t.scope).None?
    || ThreeWay(b.workspace, o.workspace, t.workspace).None?
    || ThreeWay(b.visibility, o.visibility, t.visibility).None?
    || ThreeWay(b.confidence, o.confidence, t.confidence).None?
    || ThreeWay(b.expires, o.expires, t.expires).None?
  }

  predicate BodyConflict(s: Sides) {
    s.ours.body != s.base.body && s.theirs.body != s.base.body && s.ours.body != s.theirs.body
  }

  predicate Conflict(s: Sides) {
    ScalarConflict(s.base.frontmatter, s.ours.frontmatter, s.theirs.frontmatter) || BodyConflict(s)
  }

  /** `ours` followed by each of `theirs` that is not there yet. */
  function Union(ours: seq<string>, theirs: seq<string>): seq<string>
    decreases |theirs|
  {
    if theirs == [] then ours
    else Union(if theirs[0] in ours then ours else ours + [theirs[0]], theirs[1..])
  }

  /** Rust's order on strings. */
  predicate LexLe(a: string, b: string) {
    a == "" || (b != "" && (a[0] < b[0] || (a[0] == b[0] && LexLe(a[1..], b[1..]))))
  }

  function MaxUpdated(ours: Option<string>, theirs: Option<string>): Option<string> {
    match (ours, theirs)
    case (Some(o), Some(t)) => Some(if LexLe(t, o) then o else t)
    case (Some(o), None) => Some(o)
    case (None, t) => t
  }

  function MergedFrontmatter(b: Frontmatter, o: Frontmatter, t: Frontmatter): Frontmatter {
    o.(tags := Union(o.tags, t.tags),
       updated := MaxUpdated(o.updated, t.updated),
       title := Resolved(b.title, o.title, t.title),
       itemType := Resolved(b.itemType, o.itemType, t.itemType),
       scope := Resolved(b.scope, o.scope, t.scope),
       workspace := Resolved(b.workspace, o.workspace, t.workspace),
       visibility := Resolved(b.visibility, o.visibility, t.visibility),
       confidence := Resolved(b.confidence, o.confidence, t.confidence),
       expires := Resolved(b.expires, o.expires, t.expires))
  }

  function MergedBody(s: Sides): string {
    if s.ours.body != s.base.body then s.ours.body else s.theirs.body
  }

  function MergedOf(s: Sides): Frontmatter {
    MergedFrontmatter(s.base.frontmatter, s.ours.frontmatter, s.theirs.frontmatter)
  }

  function ActorOf(text: string): string {
    match Parse(text).frontmatter.provenance.actor
    case Some(actor) => actor
    case None => "unknown"
  }

  function ActorLine(side: string, text: string, printable: Printable): string {
    "<!-- " + side + " (provenance.actor: " + Debug(ActorOf(text), printable) + ") -->\n"
  }

  function ConflictHeader(ours: string, printable: Printable): string {
    CONFLICT_MARKER + "\n" + CONFLICT_NOTE + "\n\n" + ActorLine("ours", ours, printable)
  }

  function ConflictSeparator(theirs: string, printable: Printable): string {
    "\n\n" + ActorLine("theirs", theirs, printable)
  }

  function RenderConflict(ours: string, theirs: string, printable: Printable): string {
    ConflictHeader(ours, printable) + TrimEnd(ours) + ConflictSeparator(theirs, printable) + TrimEnd(theirs) + "\n"
  }

  function MergeTexts(base: string, ours: string, theirs: string, printable: Printable): string {
    var s := ParseSides(base, ours, theirs);
    if Conflict(s) then RenderConflict(ours, theirs, printable)
    else Render(MergedOf(s), printable) + "\n" + MergedBody(s)
  }

  // The driver as it runs

  method ResolveScalar<T(==)>(field: T, base: T, ours: T, theirs: T) returns (resolved: T, conflict: bool)
    ensures conflict <==> ThreeWay(base, ours, theirs).None?
    ensures resolved == if conflict then field else ThreeWay(base, ours, theirs).value
  {
    if ours == theirs {
      return ours, false;
    } else if ours == base {
      return theirs, false;
    } else if theirs == base {
      return ours, false;
    }
    return field, true;
  }

  method UnionTags(ours: seq<string>, theirs: seq<string>) returns (result: seq<string>)
    ensures result == Union(ours, theirs)
  {
    result := ours;
    var i := 0;
    assert theirs[0..] == theirs;
    while i < |theirs|
      invariant 0 <= i <= |theirs|
      invariant Union(result, theirs[i..]) == Union(ours, theirs)
    {
      assert theirs[i..][1..] == theirs[i + 1..];
      if theirs[i] !in result {
        result := result + [theirs[i]];
      }
      i := i + 1;
    }
  }

  method MergeFiles(base: string, ours: string, theirs: string, printable: Printable) returns (out: string)
    ensures out == MergeTexts(base, ours, theirs, printable)
  {
    hide Parse, Render, Union, MaxUpdated, RenderConflict, ThreeWay;
    var b := OkfProgram.ParseFile(base);
    var o := OkfProgram.ParseFile(ours);
    var t := OkfProgram.ParseFile(theirs);
    var bf, of, tf := b.frontmatter, o.frontmatter, t.frontmatter;

    var tags := UnionTags(of.tags, tf.tags);
    var merged := of.(tags := tags, updated := MaxUpdated(of.updated, tf.updated));
    var title, c1 := ResolveScalar(merged.title, bf.title, of.title, tf.title);
    var itemType, c2 := ResolveScalar(merged.itemType, bf.itemType, of.itemType, tf.itemType);
    var scope, c3 := ResolveScalar(merged.scope, bf.scope, of.scope, tf.scope);
    var workspace, c4 := ResolveScalar(merged.workspace, bf.workspace, of.workspace, tf.workspace);
    var visibility, c5 := ResolveScalar(merged.visibility, bf.visibility, of.visibility, tf.visibility);
    var confidence, c6 := ResolveScalar(merged.confidence, bf.confidence, of.confidence, tf.confidence);
    var expires, c7 := ResolveScalar(merged.expires, bf.expires, of.expires, tf.expires);
    merged := merged.(title := title, itemType := itemType, scope := scope, workspace := workspace,
                      visibility := visibility, confidence := confidence, expires := expires);
    var hardConflict := c1 || c2 || c3 || c4 || c5 || c6 || c7;
    var bodyConflict := o.body != b.body && t.body != b.body && o.body != t.body;

    if hardConflict || bodyConflict {
      return RenderConflict(ours, theirs, printable);
    }
    var body := if o.body != b.body then o.body else t.body;
    var block := OkfProgram.RenderBlock(merged, printable);
    out := block + "\n" + body;
  }
}
