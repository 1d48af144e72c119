/**
 Scanning a whole JSON object: the answer depends on its top-level members alone, and a cut object has no answer.
 */
module JsonTree {
  import opened Wrappers
  import opened Text
  import opened Json
  import opened JsonTheorems

  // Syntax trees, with the white space of the text they are printed as

  datatype Tree =
    | Atom(text: string)
    | Str(pieces: seq<Piece>)
    | Arr(open: string, elems: Elems)
    | Obj(open: string, members: Members)

  datatype Elems = NoElem | Elem(before: string, value: Tree, after: string, rest: Elems)

  datatype Members =
    | NoMember
    | Member(before: string, key: seq<Piece>, mid: string, gap: string, value: Tree, after: string, rest: Members)

  function Print(t: Tree): string
    decreases t, 0
  {
    match t
    case Atom(text) => text
    case Str(ps) => Quoted(ps)
    case Arr(open, elems) => "[" + (open + PrintElems(elems)) + "]"
    case Obj(open, members) => "{" + (open + PrintMembers(members)) + "}"
  }

  function PrintElems(es: Elems): string
    decreases es, 0
  {
    match es
    case NoElem => ""
    case Elem(before, value, after, rest) =>
      before + (Print(value) + (after + (if rest.NoElem? then "" else "," + PrintElems(rest))))
  }

  function PrintMembers(ms: Members): string
    decreases ms, 0
  {
    match ms
    case NoMember => ""
    case Member(before, key, mid, gap, value, after, rest) =>
      before + (Quoted(key) + (mid + (":" + (gap + (Print(value) + (after + MoreMembers(rest)))))))
  }

  function MoreMembers(ms: Members): string
    decreases ms, 1
  {
    if ms.NoMember? then "" else "," + PrintMembers(ms)
  }

  /** Insignificant white space of RFC 8259 section 2. */
  predicate Blank(ws: string) {
    forall i :: 0 <= i < |ws| ==> ws[i] == ' ' || ws[i] == '\t' || ws[i] == '\n' || ws[i] == '\r'
  }

  /** The characters of numbers and of `true`, `false` and `null`. */
  predicate AtomText(s: string) {
    s != "" && forall i :: 0 <= i < |s| ==>
      'a' <= s[i] <= 'z' || 'A' <= s[i] <= 'Z' || '0' <= s[i] <= '9' || s[i] == '-' || s[i] == '+' || s[i] == '.'
  }

  predicate Valid(t: Tree) {
    match t
    case Atom(text) => AtomText(text)
    case Str(ps) => ValidPieces(ps)
    case Arr(open, elems) => Blank(open) && ValidElems(elems)
    case Obj(open, members) => Blank(open) && ValidMembers(members)
  }

  predicate ValidElems(es: Elems) {
    es.Elem? ==> Blank(es.before) && Valid(es.value) && Blank(es.after) && ValidElems(es.rest)
  }

  predicate ValidMembers(ms: Members) {
    ms.Member? ==>
      && Blank(ms.before) && ValidPieces(ms.key) && Blank(ms.mid) && Blank(ms.gap)
      && Valid(ms.value) && Blank(ms.after) && ValidMembers(ms.rest)
  }

  // The reference answer

  /** The values of the members named `field`, in order. */
  function Named(ms: Members, field: string): seq<Tree>
    requires ValidMembers(ms)
  {
    if ms.NoMember? then []
    else (if PiecesString(ms.key) == field then [ms.value] else []) + Named(ms.rest, field)
  }

  predicate AllStrings(values: seq<Tree>) {
    forall i :: 0 <= i < |values| ==> values[i].Str? && ValidPieces(values[i].pieces)
  }

  /** Nothing if some member of that name is not a string, otherwise the value of the last one. */
  function Answer(values: seq<Tree>): Option<string> {
    if values == [] || !AllStrings(values) then None
    else Some(PiecesString(values[|values| - 1].pieces))
  }

  // Passing over a piece of text

  /** Characters that scanning passes over at any depth. */
  predicate Neutral(s: string) {
    forall i :: 0 <= i < |s| ==>
      s[i] != '"' && s[i] != '{' && s[i] != '[' && s[i] != '}' && s[i] != ']'
  }

  lemma {:induction false} PassNeutral(s: string, r: string, field: string, depth: nat, found: Option<string>)
    requires Neutral(s)
    ensures Scan(s + r, field, depth, found) == Scan(r, field, depth, found)
  {
    hide Scan;
    if s == "" {
      assert s + r == r;
    } else {
      assert (s + r)[1..] == s[1..] + r;
      ScanOther(s + r, field, depth, found);
      PassNeutral(s[1..], r, field, depth, found);
    }
  }

  lemma PassOpen(bracket: string, r: string, field: string, depth: nat, found: Option<string>)
    requires bracket == "{" || bracket == "["
    ensures Scan(bracket + r, field, depth, found) == Scan(r, field, depth + 1, found)
  {
    hide Scan;
    assert (bracket + r)[1..] == r;
    ScanOther(bracket + r, field, depth, found);
  }

  lemma PassClose(bracket: string, r: string, field: string, depth: nat, found: Option<string>)
    requires bracket == "}" || bracket == "]"
    requires depth > 0
    ensures Scan(bracket + r, field, depth, found) == Scan(r, field, depth - 1, found)
  {
    hide Scan;
    assert (bracket + r)[1..] == r;
    ScanOther(bracket + r, field, depth, found);
  }

  lemma QuotedRead(ps: seq<Piece>, r: string)
    requires ValidPieces(ps)
    ensures var s := Quoted(ps) + r;
      s != "" && s[0] == '"' && ReadBody(s[1..]) == Some((PiecesString(ps), r))
  {
    hide ReadBody, PiecesText;
    LiteralRead(ps, r);
    assert (Quoted(ps) + r)[1..] == PiecesText(ps) + "\"" + r;
  }

  lemma PassQuoted(ps: seq<Piece>, r: string, field: string, depth: nat, found: Option<string>)
    requires ValidPieces(ps)
    requires depth != 1 || !ColonNext(r) || PiecesString(ps) != field
    ensures Scan(Quoted(ps) + r, field, depth, found) == Scan(r, field, depth, found)
  {
    hide Scan, ReadBody, Quoted, ColonNext, ValidPiece, ReadMatch;
    QuotedRead(ps, r);
    ScanString(Quoted(ps) + r, field, depth, found, PiecesString(ps), r);
  }

  lemma {:induction false} SkipBlank(ws: string, r: string)
    requires Blank(ws)
    ensures SkipSpace(ws + r) == SkipSpace(r)
  {
    if ws == "" {
      assert ws + r == r;
    } else {
      assert (ws + r)[1..] == ws[1..] + r;
      SkipBlank(ws[1..], r);
    }
  }

  /** Every value, at any depth, leaves the scan as it was; a string at the top level must not be a key. */
  lemma {:induction false} PassTree(t: Tree, r: string, field: string, depth: nat, found: Option<string>)
    requires Valid(t) && depth > 0 && (depth > 1 || !ColonNext(r))
    ensures Scan(Print(t) + r, field, depth, found) == Scan(r, field, depth, found)
    decreases t
  {
    hide Scan, Quoted, ColonNext;
    match t
    case Atom(text) => PassNeutral(text, r, field, depth, found);
    case Str(ps) => PassQuoted(ps, r, field, depth, found);
    case Arr(open, elems) =>
      PassElems(elems, "]" + r, field, depth + 1, found);
      PassBracketed("[", open, PrintElems(elems), "]", r, field, depth, found);
    case Obj(open, members) =>
      PassMembers(members, "}" + r, field, depth + 1, found);
      PassBracketed("{", open, PrintMembers(members), "}", r, field, depth, found);
  }

  lemma PassBracketed(a: string, open: string, inner: string, b: string, r: string, field: string, depth: nat,
                      found: Option<string>)
    requires a == "{" || a == "["
    requires b == "}" || b == "]"
    requires Blank(open)
    requires Scan(inner + (b + r), field, depth + 1, found) == Scan(b + r, field, depth + 1, found)
    ensures Scan(a + (open + inner) + b + r, field, depth, found) == Scan(r, field, depth, found)
  {
    hide Scan;
    assert a + (open + inner) + b + r == a + (open + (inner + (b + r)));
    PassOpen(a, open + (inner + (b + r)), field, depth, found);
    PassNeutral(open, inner + (b + r), field, depth + 1, found);
    PassClose(b, r, field, depth + 1, found);
  }

  lemma {:induction false} PassElems(es: Elems, r: string, field: string, depth: nat, found: Option<string>)
    requires ValidElems(es) && depth > 1
    ensures Scan(PrintElems(es) + r, field, depth, found) == Scan(r, field, depth, found)
    decreases es
  {
    hide Scan, Print, Valid;
    if es.NoElem? {
      assert "" + r == r;
    } else {
      var more := if es.rest.NoElem? then "" else "," + PrintElems(es.rest);
      assert PrintElems(es) + r == es.before + (Print(es.value) + (es.after + (more + r)));
      PassNeutral(es.before, Print(es.value) + (es.after + (more + r)), field, depth, found);
      PassTree(es.value, es.after + (more + r), field, depth, found);
      PassNeutral(es.after, more + r, field, depth, found);
      if es.rest.NoElem? {
        assert more + r == r;
      } else {
        assert more + r == "," + (PrintElems(es.rest) + r);
        PassNeutral(",", PrintElems(es.rest) + r, field, depth, found);
        PassElems(es.rest, r, field, depth, found);
      }
    }
  }

  /** The members of a nested object, whatever their names. */
  lemma {:induction false} PassMembers(ms: Members, r: string, field: string, depth: nat, found: Option<string>)
    requires ValidMembers(ms) && depth > 1
    ensures Scan(PrintMembers(ms) + r, field, depth, found) == Scan(r, field, depth, found)
    decreases ms
  {
    hide Scan, Print, Valid, Quoted, PrintMembers, MoreMembers;
    MoreShape(ms, r);
    if ms.Member? {
      var tail := ms.after + (MoreMembers(ms.rest) + r);
      var behindKey := ms.mid + (":" + (ms.gap + (Print(ms.value) + tail)));
      MemberShape(ms, r);
      PassNeutral(ms.before, Quoted(ms.key) + behindKey, field, depth, found);
      PassQuoted(ms.key, behindKey, field, depth, found);
      PassColon(ms.mid, ms.gap, Print(ms.value) + tail, field, depth, found);
      PassTree(ms.value, tail, field, depth, found);
      PassNeutral(ms.after, MoreMembers(ms.rest) + r, field, depth, found);
      MoreShape(ms.rest, r);
      if ms.rest.Member? {
        PassNeutral(",", PrintMembers(ms.rest) + r, field, depth, found);
        PassMembers(ms.rest, r, field, depth, found);
      }
    }
  }

  lemma MoreShape(ms: Members, r: string)
    ensures ms.NoMember? ==> PrintMembers(ms) + r == r && MoreMembers(ms) + r == r
    ensures ms.Member? ==> MoreMembers(ms) + r == "," + (PrintMembers(ms) + r)
  {
    hide Print, Quoted;
    if ms.NoMember? {
      assert "" + r == r;
    } else {
      hide PrintMembers;
      assert ("," + PrintMembers(ms)) + r == "," + (PrintMembers(ms) + r);
    }
  }

  lemma MemberShape(ms: Members, r: string)
    requires ms.Member?
    ensures PrintMembers(ms) + r
         == ms.before + (Quoted(ms.key) + (ms.mid + (":" + (ms.gap + (Print(ms.value)
            + (ms.after + (MoreMembers(ms.rest) + r)))))))
  {
    hide Print, Quoted, MoreMembers;
    Chain(ms.before, Quoted(ms.key), ms.mid, ":", ms.gap, Print(ms.value), ms.after, MoreMembers(ms.rest), r);
  }

  lemma Chain(a: string, b: string, c: string, d: string, e: string, f: string, g: string, h: string, r: string)
    ensures a + (b + (c + (d + (e + (f + (g + h)))))) + r == a + (b + (c + (d + (e + (f + (g + (h + r)))))))
  {
    Chain4(e, f, g, h, r);
    Chain4(a, b, c, d + (e + (f + (g + h))), r);
    assert d + (e + (f + (g + h))) + r == d + (e + (f + (g + h)) + r);
  }

  lemma Chain4(a: string, b: string, c: string, d: string, r: string)
    ensures a + (b + (c + d)) + r == a + (b + (c + (d + r)))
  {
  }

  lemma PassColon(mid: string, gap: string, r: string, field: string, depth: nat, found: Option<string>)
    requires Blank(mid) && Blank(gap)
    ensures Scan(mid + (":" + (gap + r)), field, depth, found) == Scan(r, field, depth, found)
  {
    hide Scan;
    PassNeutral(mid, ":" + (gap + r), field, depth, found);
    PassNeutral(":", gap + r, field, depth, found);
    PassNeutral(gap, r, field, depth, found);
  }

  // The top level

  /** What the scan has found after these members, or `None` when it gave up. */
  function Progress(ms: Members, field: string, found: Option<string>): Option<Option<string>>
    requires ValidMembers(ms)
  {
    if ms.NoMember? then Some(found)
    else if PiecesString(ms.key) != field then Progress(ms.rest, field, found)
    else if ms.value.Str? then
      assert Valid(ms.value);
      Progress(ms.rest, field, Some(PiecesString(ms.value.pieces)))
    else None
  }

  lemma NoColonAfter(after: string, ms: Members, r: string)
    requires Blank(after) && (r == "" || r[0] == '}')
    ensures !ColonNext(after + (MoreMembers(ms) + r))
  {
    hide PrintMembers, MoreMembers, SkipSpace;
    SkipBlank(after, MoreMembers(ms) + r);
    MoreShape(ms, r);
    NoColonFirst(MoreMembers(ms) + r);
  }

  lemma NoColonFirst(s: string)
    requires s == "" || s[0] == '}' || s[0] == ','
    ensures !ColonNext(s)
  {
  }

  lemma ColonAfterKey(mid: string, rest: string)
    requires Blank(mid)
    ensures SkipSpace(mid + (":" + rest)) == ":" + rest
    ensures ColonNext(mid + (":" + rest))
  {
    SkipBlank(mid, ":" + rest);
    assert (":" + rest)[0] == ':';
  }

  /** A member with the wanted name: its string value is taken, any other value ends the scan. */
  lemma MatchedValue(mid: string, gap: string, value: Tree, tail: string)
    requires Blank(mid) && Blank(gap) && Valid(value)
    ensures var rest := mid + (":" + (gap + (Print(value) + tail)));
      && ColonNext(rest)
      && ReadMatch(rest) == if value.Str? then Some((PiecesString(value.pieces), tail)) else None
  {
    hide ReadBody, SkipSpace;
    var after := gap + (Print(value) + tail);
    ColonAfterKey(mid, after);
    assert (":" + after)[1..] == after;
    SkipBlank(gap, Print(value) + tail);
    FirstOfTree(value, tail);
    if value.Str? { QuotedRead(value.pieces, tail); }
  }

  lemma FirstOfTree(t: Tree, tail: string)
    requires Valid(t)
    ensures var s := Print(t) + tail;
      s != "" && SkipSpace(s) == s && (s[0] == '"' <==> t.Str?)
  {
    hide PrintElems, PrintMembers;
    var s := Print(t) + tail;
    assert s[0] == Print(t)[0];
    assert !IsAsciiSpace(s[0]);
  }

  lemma MoreAtTop(ms: Members, field: string, found: Option<string>, r: string)
    ensures Scan(MoreMembers(ms) + r, field, 1, found) == Scan(PrintMembers(ms) + r, field, 1, found)
  {
    hide Scan;
    if ms.NoMember? {
      assert MoreMembers(ms) + r == PrintMembers(ms) + r;
    } else {
      assert MoreMembers(ms) + r == "," + (PrintMembers(ms) + r);
      PassNeutral(",", PrintMembers(ms) + r, field, 1, found);
    }
  }

  lemma {:induction false} TopMembers(ms: Members, field: string, found: Option<string>, r: string)
    requires ValidMembers(ms) && r != "" && r[0] == '}'
    ensures Scan(PrintMembers(ms) + r, field, 1, found)
         == match Progress(ms, field, found) case None => None case Some(f) => Scan(r, field, 1, f)
    decreases ms
  {
    hide Scan, Print, Quoted, ColonNext, ReadMatch, MoreMembers, Blank;
    if ms.NoMember? {
      assert "" + r == r;
    } else {
      var tail := ms.after + (MoreMembers(ms.rest) + r);
      var behindKey := ms.mid + (":" + (ms.gap + (Print(ms.value) + tail)));
      MemberShape(ms, r);
      assert Neutral(ms.before) by { BlankIsNeutral(ms.before); }
      PassNeutral(ms.before, Quoted(ms.key) + behindKey, field, 1, found);
      NoColonAfter(ms.after, ms.rest, r);
      if PiecesString(ms.key) != field {
        PassQuoted(ms.key, behindKey, field, 1, found);
        PassColon(ms.mid, ms.gap, Print(ms.value) + tail, field, 1, found);
        PassTree(ms.value, tail, field, 1, found);
        AfterMember(ms, field, found, r);
      } else {
        MatchedValue(ms.mid, ms.gap, ms.value, tail);
        QuotedRead(ms.key, behindKey);
        ScanString(Quoted(ms.key) + behindKey, field, 1, found, field, behindKey);
        if ms.value.Str? { AfterMember(ms, field, Some(PiecesString(ms.value.pieces)), r); }
      }
    }
  }

  lemma BlankIsNeutral(ws: string)
    requires Blank(ws)
    ensures Neutral(ws)
  {
  }

  lemma AfterMember(ms: Members, field: string, found: Option<string>, r: string)
    requires ms.Member? && ValidMembers(ms) && r != "" && r[0] == '}'
    ensures Scan(ms.after + (MoreMembers(ms.rest) + r), field, 1, found)
         == match Progress(ms.rest, field, found) case None => None case Some(f) => Scan(r, field, 1, f)
    decreases ms, 0
  {
    hide Scan, PrintMembers, MoreMembers;
    PassNeutral(ms.after, MoreMembers(ms.rest) + r, field, 1, found);
    MoreAtTop(ms.rest, field, found, r);
    TopMembers(ms.rest, field, found, r);
  }

  lemma AllStringsCons(value: Tree, rest: seq<Tree>)
    ensures AllStrings([value] + rest) <==> value.Str? && ValidPieces(value.pieces) && AllStrings(rest)
  {
    var values := [value] + rest;
    assert values[0] == value && forall i :: 0 <= i < |rest| ==> values[i + 1] == rest[i];
    if value.Str? && ValidPieces(value.pieces) && AllStrings(rest) {
      forall i | 0 <= i < |values| ensures values[i].Str? && ValidPieces(values[i].pieces) {
        if i > 0 { assert values[i] == rest[i - 1]; }
      }
    }
  }

  lemma {:induction false} ProgressAnswer(ms: Members, field: string, found: Option<string>)
    requires ValidMembers(ms)
    ensures var values := Named(ms, field);
      Progress(ms, field, found) ==
      if !AllStrings(values) then None else if values == [] then Some(found) else Some(Answer(values))
  {
    hide Valid, PiecesString;
    if ms.Member? {
      var values, rest := Named(ms, field), Named(ms.rest, field);
      if PiecesString(ms.key) != field {
        assert values == rest;
        ProgressAnswer(ms.rest, field, found);
      } else {
        assert values == [ms.value] + rest;
        AllStringsCons(ms.value, rest);
        if ms.value.Str? {
          assert ValidPieces(ms.value.pieces) by { StrPieces(ms.value); }
          ProgressAnswer(ms.rest, field, Some(PiecesString(ms.value.pieces)));
        }
      }
    }
  }

  lemma StrPieces(t: Tree)
    requires Valid(t) && t.Str?
    ensures ValidPieces(t.pieces)
  {
  }

  lemma {:induction false} TrimBlank(ws: string, r: string)
    requires Blank(ws)
    ensures TrimStart(ws + r) == TrimStart(r)
  {
    forall i | 0 <= i < |ws| ensures IsSpace(ws[i]) { }
    TrimStartSpaces(ws, r);
  }

  lemma OpenObject(before: string, text: string, field: string)
    requires Blank(before) && text != "" && text[0] == '{'
    ensures Extract(before + text, field) == Scan(text, field, 0, None)
  {
    hide Scan;
    TrimBlank(before, text);
  }

  /** Scanning one object from its opening brace to its closing one. */
  lemma ScanObject(open: string, members: Members, r: string, field: string)
    requires Blank(open) && ValidMembers(members)
    ensures var inner := open + (PrintMembers(members) + ("}" + r));
      Scan("{" + inner, field, 0, None)
      == match Progress(members, field, None) case None => None case Some(f) => Scan(r, field, 0, f)
  {
    hide Scan, PrintMembers, Blank, Neutral, ValidMembers, Progress;
    var inner := PrintMembers(members) + ("}" + r);
    PassOpen("{", open + inner, field, 0, None);
    BlankIsNeutral(open);
    PassNeutral(open, inner, field, 1, None);
    TopMembers(members, field, None, "}" + r);
    var result := Progress(members, field, None);
    if result.Some? { PassClose("}", r, field, 1, result.value); }
  }

  lemma PassRest(after: string, field: string, found: Option<string>)
    requires Blank(after)
    ensures Scan(after, field, 0, found) == found
  {
    hide Scan, Neutral, Blank;
    BlankIsNeutral(after);
    assert after + "" == after;
    PassNeutral(after, "", field, 0, found);
    ScanEnd(field, 0, found);
  }

  /**
   For every JSON object, printed with any white space around and inside it: the field is found exactly as the
   tree says.  Nested members and the contents of strings never matter.
   */
  lemma ExtractFromObject(before: string, open: string, members: Members, after: string, field: string)
    requires Blank(before) && Blank(open) && ValidMembers(members) && Blank(after)
    ensures Extract(before + Print(Obj(open, members)) + after, field) == Answer(Named(members, field))
  {
    hide Scan, PrintMembers, Blank, ValidMembers, Progress, Extract, Named, Answer, AllStrings;
    var inner := open + (PrintMembers(members) + ("}" + after));
    var text := "{" + inner;
    assert before + Print(Obj(open, members)) + after == before + text;
    OpenObject(before, text, field);
    ScanObject(open, members, after, field);
    ProgressAnswer(members, field, None);
    var result := Progress(members, field, None);
    if result.Some? { PassRest(after, field, result.value); }
    NoAnswer();
  }

  lemma NoAnswer()
    ensures Answer([]) == None
    ensures forall values :: !AllStrings(values) ==> Answer(values) == None
  {
  }

  /** A text that is no object, after any white space, has no field. */
  lemma OnlyObjectsHaveFields(ws: string, rest: string, field: string)
    requires (forall c :: c in ws ==> IsSpace(c)) && (rest != "" ==> !IsSpace(rest[0]) && rest[0] != '{')
    ensures Extract(ws + rest, field) == None
  {
    hide Scan;
    assert TrimStart(rest) == rest;
    TrimStartSpaces(ws, rest);
  }
}
