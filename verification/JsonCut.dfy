/**
 Truncated input: no proper prefix of a printed JSON object yields a field value.
 */
module JsonCut {
  import opened Wrappers
  import opened Json
  import opened JsonTheorems
  import opened JsonTree

  lemma CutConcat(a: string, b: string, p: string)
    requires p <= a + b
    ensures p <= a || (|a| < |p| && p == a + p[|a|..] && p[|a|..] <= b)
  {
  }

  lemma CutNeutral(s: string, p: string, field: string, depth: nat, found: Option<string>)
    requires Neutral(s) && p <= s && depth > 0
    ensures Scan(p, field, depth, found) == None
  {
    hide Scan;
    assert p + "" == p;
    PassNeutral(p, "", field, depth, found);
    ScanEnd(field, depth, found);
  }

  lemma CutQuoted(ps: seq<Piece>, p: string, field: string, depth: nat, found: Option<string>)
    requires ValidPieces(ps) && p <= Quoted(ps) && depth > 0
    ensures Scan(p, field, depth, found) == None
  {
    hide Scan, ReadBody, PiecesText;
    if p == "" {
      ScanEnd(field, depth, found);
    } else if p == Quoted(ps) {
      assert p + "" == p;
      PassQuoted(ps, "", field, depth, found);
      ScanEnd(field, depth, found);
    } else {
      assert p[1..] <= PiecesText(ps);
      CutLiteral(ps, p[1..]);
      ScanBadString(p, field, depth, found);
    }
  }

  /** A prefix of a value, even all of it, leaves the scan inside whatever encloses the value. */
  lemma {:induction false} CutTree(t: Tree, p: string, field: string, depth: nat, found: Option<string>)
    requires Valid(t) && p <= Print(t) && depth > 0
    ensures Scan(p, field, depth, found) == None
    decreases t
  {
    hide Scan, Quoted, PrintElems, PrintMembers;
    match t
    case Atom(text) => CutNeutral(text, p, field, depth, found);
    case Str(ps) => CutQuoted(ps, p, field, depth, found);
    case Arr(open, elems) =>
      var inner := PrintElems(elems);
      var q := Inside(p, open);
      if q <= inner { CutElems(elems, q, field, depth + 1, found); }
      PassElems(elems, "]", field, depth + 1, found);
      CutBracketed("[", open, inner, "]", p, field, depth, found);
    case Obj(open, members) =>
      var inner := PrintMembers(members);
      var q := Inside(p, open);
      if q <= inner { CutMembers(members, q, field, depth + 1, found); }
      PassMembers(members, "}", field, depth + 1, found);
      CutBracketed("{", open, inner, "}", p, field, depth, found);
  }

  /** The part of a cut bracketed value behind its opening bracket and the white space there. */
  function Inside(p: string, open: string): string {
    if |p| > 1 + |open| then p[1 + |open|..] else ""
  }

  lemma CutBracketed(a: string, open: string, inner: string, b: string, p: string, field: string, depth: nat,
                     found: Option<string>)
    requires a == "{" || a == "["
    requires b == "}" || b == "]"
    requires Blank(open) && depth > 0 && p <= a + (open + inner) + b
    requires Inside(p, open) <= inner ==> Scan(Inside(p, open), field, depth + 1, found) == None
    requires Scan(inner + b, field, depth + 1, found) == Scan(b, field, depth + 1, found)
    ensures Scan(p, field, depth, found) == None
  {
    hide Scan, Neutral;
    BlankIsNeutral(open);
    if p == "" {
      ScanEnd(field, depth, found);
    } else {
      var q := p[1..];
      assert p == a + q;
      PassOpen(a, q, field, depth, found);
      assert a + (open + inner) + b == a + (open + (inner + b));
      assert q <= open + (inner + b);
      CutConcat(open, inner + b, q);
      if q <= open {
        CutNeutral(open, q, field, depth + 1, found);
      } else {
        var x := q[|open|..];
        assert x == Inside(p, open);
        PassNeutral(open, x, field, depth + 1, found);
        if !(x <= inner) {
          CutConcat(inner, b, x);
          assert x == inner + b;
          assert b + "" == b;
          PassClose(b, "", field, depth + 1, found);
          ScanEnd(field, depth, found);
        }
      }
    }
  }

  lemma NeutralConcat(a: string, b: string)
    requires Neutral(a) && Neutral(b)
    ensures Neutral(a + b)
  {
  }

  lemma {:induction false} CutElems(es: Elems, p: string, field: string, depth: nat, found: Option<string>)
    requires ValidElems(es) && p <= PrintElems(es) && depth > 1
    ensures Scan(p, field, depth, found) == None
    decreases es
  {
    hide Scan, Print, Valid, Neutral, Blank;
    if es.NoElem? {
      ScanEnd(field, depth, found);
    } else {
      var more := if es.rest.NoElem? then "" else "," + PrintElems(es.rest);
      BlankIsNeutral(es.before);
      CutConcat(es.before, Print(es.value) + (es.after + more), p);
      if p <= es.before {
        CutNeutral(es.before, p, field, depth, found);
      } else {
        var q := p[|es.before|..];
        PassNeutral(es.before, q, field, depth, found);
        CutConcat(Print(es.value), es.after + more, q);
        if q <= Print(es.value) {
          CutTree(es.value, q, field, depth, found);
        } else {
          var x := q[|Print(es.value)|..];
          PassTree(es.value, x, field, depth, found);
          BlankIsNeutral(es.after);
          if es.rest.NoElem? {
            assert es.after + more == es.after;
            CutNeutral(es.after, x, field, depth, found);
          } else {
            CutTail(es.after, PrintElems(es.rest), x, field, depth, found);
            if |x| > |es.after| + 1 { CutElems(es.rest, x[|es.after| + 1..], field, depth, found); }
          }
        }
      }
    }
  }

  /** A cut behind a value that is followed by a comma. */
  lemma CutTail(after: string, rest: string, x: string, field: string, depth: nat, found: Option<string>)
    requires Neutral(after) && x <= after + ("," + rest) && depth > 0
    ensures |x| <= |after| + 1 ==> Scan(x, field, depth, found) == None
    ensures |x| > |after| + 1 ==>
      && x[|after| + 1..] <= rest
      && Scan(x, field, depth, found) == Scan(x[|after| + 1..], field, depth, found)
  {
    hide Scan;
    NeutralConcat(after, ",");
    assert after + ("," + rest) == after + "," + rest;
    CutConcat(after + ",", rest, x);
    if |x| <= |after| + 1 {
      CutNeutral(after + ",", x, field, depth, found);
    } else {
      PassNeutral(after + ",", x[|after| + 1..], field, depth, found);
    }
  }

  lemma MemberParts(ms: Members)
    requires ms.Member?
    ensures PrintMembers(ms)
         == ms.before + (Quoted(ms.key)
                         + (ms.mid + ":" + ms.gap + (Print(ms.value) + (ms.after + MoreMembers(ms.rest)))))
  {
    hide Print, Quoted, MoreMembers;
    var tail := Print(ms.value) + (ms.after + MoreMembers(ms.rest));
    assert ms.mid + (":" + (ms.gap + tail)) == ms.mid + ":" + ms.gap + tail;
  }

  lemma ColonNeutral(mid: string, gap: string)
    requires Blank(mid) && Blank(gap)
    ensures Neutral(mid + ":" + gap)
  {
  }

  lemma {:induction false} CutMembers(ms: Members, p: string, field: string, depth: nat, found: Option<string>)
    requires ValidMembers(ms) && p <= PrintMembers(ms) && depth > 1
    ensures Scan(p, field, depth, found) == None
    decreases ms
  {
    hide Scan, Print, Valid, Neutral, Blank, Quoted, PrintMembers;
    if ms.NoMember? {
      assert PrintMembers(ms) == "" by { NothingPrinted(); }
      ScanEnd(field, depth, found);
    } else {
      MemberParts(ms);
      var colon := ms.mid + ":" + ms.gap;
      var tail := Print(ms.value) + (ms.after + MoreMembers(ms.rest));
      BlankIsNeutral(ms.before);
      ColonNeutral(ms.mid, ms.gap);
      CutConcat(ms.before, Quoted(ms.key) + (colon + tail), p);
      if p <= ms.before {
        CutNeutral(ms.before, p, field, depth, found);
      } else {
        var q := p[|ms.before|..];
        PassNeutral(ms.before, q, field, depth, found);
        CutConcat(Quoted(ms.key), colon + tail, q);
        if q <= Quoted(ms.key) {
          CutQuoted(ms.key, q, field, depth, found);
        } else {
          var x := q[|Quoted(ms.key)|..];
          PassQuoted(ms.key, x, field, depth, found);
          CutConcat(colon, tail, x);
          if x <= colon {
            CutNeutral(colon, x, field, depth, found);
          } else {
            var y := x[|colon|..];
            PassNeutral(colon, y, field, depth, found);
            CutValue(ms, y, field, depth, found);
          }
        }
      }
    }
  }

  lemma NothingPrinted()
    ensures PrintMembers(NoMember) == ""
  {
  }

  /** A cut at or behind the value of a nested member. */
  lemma CutValue(ms: Members, y: string, field: string, depth: nat, found: Option<string>)
    requires ms.Member? && ValidMembers(ms) && depth > 1
    requires y <= Print(ms.value) + (ms.after + MoreMembers(ms.rest))
    ensures Scan(y, field, depth, found) == None
    decreases ms, 0
  {
    hide Scan, Print, Valid, Neutral, Blank, PrintMembers;
    CutConcat(Print(ms.value), ms.after + MoreMembers(ms.rest), y);
    if y <= Print(ms.value) {
      CutTree(ms.value, y, field, depth, found);
    } else {
      var z := y[|Print(ms.value)|..];
      PassTree(ms.value, z, field, depth, found);
      BlankIsNeutral(ms.after);
      if ms.rest.NoMember? {
        assert ms.after + MoreMembers(ms.rest) == ms.after;
        CutNeutral(ms.after, z, field, depth, found);
      } else {
        CutTail(ms.after, PrintMembers(ms.rest), z, field, depth, found);
        if |z| > |ms.after| + 1 { CutMembers(ms.rest, z[|ms.after| + 1..], field, depth, found); }
      }
    }
  }

  // The top level

  lemma NoColonCut(after: string, ms: Members, z: string)
    requires Blank(after) && z <= after + MoreMembers(ms)
    ensures !ColonNext(z)
  {
    hide PrintMembers;
    CutConcat(after, MoreMembers(ms), z);
    if z <= after {
      assert Blank(z);
      assert z + "" == z;
      SkipBlank(z, "");
    } else {
      var x := z[|after|..];
      SkipBlank(after, x);
      assert x[0] == MoreMembers(ms)[0] == ',';
    }
  }

  /** A cut inside the members of the outermost object. */
  lemma {:induction false} CutTop(ms: Members, p: string, field: string, found: Option<string>)
    requires ValidMembers(ms) && p <= PrintMembers(ms)
    ensures Scan(p, field, 1, found) == None
    decreases ms, 2
  {
    hide Scan, Print, Valid, Neutral, Blank, Quoted, PrintMembers, ColonNext;
    if ms.NoMember? {
      NothingPrinted();
      ScanEnd(field, 1, found);
    } else {
      MemberParts(ms);
      var behind := ms.mid + ":" + ms.gap + (Print(ms.value) + (ms.after + MoreMembers(ms.rest)));
      BlankIsNeutral(ms.before);
      CutConcat(ms.before, Quoted(ms.key) + behind, p);
      if p <= ms.before {
        CutNeutral(ms.before, p, field, 1, found);
      } else {
        var q := p[|ms.before|..];
        PassNeutral(ms.before, q, field, 1, found);
        CutConcat(Quoted(ms.key), behind, q);
        if q <= Quoted(ms.key) {
          CutQuoted(ms.key, q, field, 1, found);
        } else {
          CutBehindKey(ms, q[|Quoted(ms.key)|..], field, found);
        }
      }
    }
  }

  lemma CutBehindKey(ms: Members, x: string, field: string, found: Option<string>)
    requires ms.Member? && ValidMembers(ms)
    requires x <= ms.mid + ":" + ms.gap + (Print(ms.value) + (ms.after + MoreMembers(ms.rest)))
    ensures Scan(Quoted(ms.key) + x, field, 1, found) == None
    decreases ms, 1
  {
    hide Scan, Print, Valid, Neutral, Blank, Quoted, PrintMembers, ColonNext, ReadMatch, MoreMembers, ReadBody;
    var colon := ms.mid + ":" + ms.gap;
    var tail := Print(ms.value) + (ms.after + MoreMembers(ms.rest));
    QuotedRead(ms.key, x);
    ScanString(Quoted(ms.key) + x, field, 1, found, PiecesString(ms.key), x);
    if ColonNext(x) && PiecesString(ms.key) == field {
      ColonIsThere(x);
      CutMatch(ms, x);
      if ReadMatch(x).Some? {
        CutAfterTop(ms, ReadMatch(x).value.1, field, Some(ReadMatch(x).value.0));
      }
    } else {
      ColonNeutral(ms.mid, ms.gap);
      CutConcat(colon, tail, x);
      if x <= colon {
        CutNeutral(colon, x, field, 1, found);
      } else {
        var y := x[|colon|..];
        PassNeutral(colon, y, field, 1, found);
        CutTopValue(ms, y, field, found);
      }
    }
  }

  lemma CutTopValue(ms: Members, y: string, field: string, found: Option<string>)
    requires ms.Member? && ValidMembers(ms)
    requires y <= Print(ms.value) + (ms.after + MoreMembers(ms.rest))
    ensures Scan(y, field, 1, found) == None
    decreases ms, 0, 1
  {
    hide Scan, Print, Valid, Neutral, Blank, PrintMembers, ColonNext, MoreMembers;
    CutConcat(Print(ms.value), ms.after + MoreMembers(ms.rest), y);
    if y <= Print(ms.value) {
      CutTree(ms.value, y, field, 1, found);
    } else {
      var z := y[|Print(ms.value)|..];
      NoColonCut(ms.after, ms.rest, z);
      PassTree(ms.value, z, field, 1, found);
      CutAfterTop(ms, z, field, found);
    }
  }

  lemma CutAfterTop(ms: Members, z: string, field: string, found: Option<string>)
    requires ms.Member? && ValidMembers(ms) && z <= ms.after + MoreMembers(ms.rest)
    ensures Scan(z, field, 1, found) == None
    decreases ms, 0, 0
  {
    hide Scan, Neutral, Blank, PrintMembers, Valid;
    BlankIsNeutral(ms.after);
    if ms.rest.NoMember? {
      assert ms.after + MoreMembers(ms.rest) == ms.after;
      CutNeutral(ms.after, z, field, 1, found);
    } else {
      CutTail(ms.after, PrintMembers(ms.rest), z, field, 1, found);
      if |z| > |ms.after| + 1 { CutTop(ms.rest, z[|ms.after| + 1..], field, found); }
    }
  }

  lemma ColonIsThere(x: string)
    requires ColonNext(x)
    ensures SkipSpace(x) != ""
  {
  }

  /** Looking up the value of a matching key in a cut text: at most a whole string is found, never a part of one. */
  lemma CutMatch(ms: Members, x: string)
    requires ms.Member? && ValidMembers(ms) && ColonNext(x)
    requires x <= ms.mid + ":" + ms.gap + (Print(ms.value) + (ms.after + MoreMembers(ms.rest)))
    ensures ReadMatch(x).Some? ==> ReadMatch(x).value.1 <= ms.after + MoreMembers(ms.rest)
  {
    hide Print, PrintMembers, ReadBody, MoreMembers, SkipSpace, Blank, Valid, ReadMatch, ColonNext;
    ColonIsThere(x);
    var tail := Print(ms.value) + (ms.after + MoreMembers(ms.rest));
    var behind := ":" + (ms.gap + tail);
    assert ms.mid + ":" + ms.gap + tail == ms.mid + behind;
    CutConcat(ms.mid, behind, x);
    if x <= ms.mid {
      BlankHasNoColon(ms.mid, x);
    } else {
      var y := x[|ms.mid|..][1..];
      assert x[|ms.mid|..] == ":" + y && y <= ms.gap + tail;
      CutMatchedValue(ms.mid, ms.gap, ms.value, ms.after + MoreMembers(ms.rest), y);
    }
  }

  lemma CutMatchedValue(mid: string, gap: string, value: Tree, tail: string, y: string)
    requires Blank(mid) && Blank(gap) && Valid(value) && y <= gap + (Print(value) + tail)
    ensures ColonNext(mid + (":" + y))
    ensures ReadMatch(mid + (":" + y)).Some? ==> ReadMatch(mid + (":" + y)).value.1 <= tail
  {
    hide Print, ReadBody, SkipSpace, Blank, Valid;
    ColonAfterKey(mid, y);
    assert (":" + y)[1..] == y;
    CutConcat(gap, Print(value) + tail, y);
    if y <= gap {
      BlankSkipped(gap, y);
    } else {
      var z := y[|gap|..];
      SkipBlank(gap, z);
      CutStringValue(value, tail, z);
    }
  }

  lemma BlankSkipped(ws: string, x: string)
    requires Blank(ws) && x <= ws
    ensures SkipSpace(x) == ""
  {
    assert Blank(x) && x + "" == x;
    SkipBlank(x, "");
  }

  lemma BlankHasNoColon(ws: string, x: string)
    requires Blank(ws) && x <= ws
    ensures !ColonNext(x)
  {
    BlankSkipped(ws, x);
  }

  lemma CutStringValue(t: Tree, tail: string, z: string)
    requires Valid(t) && z <= Print(t) + tail && z != ""
    ensures SkipSpace(z) == z
    ensures z[0] == '"' ==> t.Str? && (ReadBody(z[1..]).Some? ==> ReadBody(z[1..]).value.1 <= tail)
  {
    hide ReadBody, Print, Quoted, SkipSpace;
    FirstOfTree(t, tail);
    assert z[0] == (Print(t) + tail)[0];
    assert SkipSpace(z) == z by { FirstKept(Print(t) + tail, z); }
    if t.Str? && z[0] == '"' {
      assert Print(t) == Quoted(t.pieces) by { PrintStr(t); }
      CutConcat(Quoted(t.pieces), tail, z);
      if z <= Quoted(t.pieces) && z != Quoted(t.pieces) {
        CutQuotedRead(t.pieces, z);
      } else {
        var r := z[|Quoted(t.pieces)|..];
        assert z == Quoted(t.pieces) + r && r <= tail;
        QuotedRead(t.pieces, r);
      }
    }
  }

  lemma PrintStr(t: Tree)
    requires t.Str? && Valid(t)
    ensures Print(t) == Quoted(t.pieces) && ValidPieces(t.pieces)
  {
  }

  lemma FirstKept(s: string, z: string)
    requires s != "" && SkipSpace(s) == s && z != "" && z[0] == s[0]
    ensures SkipSpace(z) == z
  {
  }

  lemma CutQuotedRead(ps: seq<Piece>, z: string)
    requires ValidPieces(ps) && z <= Quoted(ps) && z != Quoted(ps) && z != ""
    ensures ReadBody(z[1..]) == None
  {
    hide ReadBody, PiecesText;
    assert z[1..] <= PiecesText(ps);
    CutLiteral(ps, z[1..]);
  }

  /** No proper prefix of a JSON object, with or without white space before it, yields a value for any field. */
  lemma CutObjectHasNoField(before: string, open: string, members: Members, p: string, field: string)
    requires Blank(before) && Blank(open) && ValidMembers(members)
    requires p <= before + Print(Obj(open, members)) && |p| < |before + Print(Obj(open, members))|
    ensures Extract(p, field) == None
  {
    hide Scan, PrintMembers, Blank, Neutral, ValidMembers, Extract;
    var inner := open + PrintMembers(members);
    var body := "{" + inner;
    assert before + Print(Obj(open, members)) == before + (body + "}");
    CutConcat(before, body + "}", p);
    if p <= before {
      assert Extract(p, field) == None by { BlankHasNoField(before, p, field); }
    } else {
      var q := p[|before|..];
      assert q[0] == '{';
      OpenObject(before, q, field);
      var x := q[1..];
      assert q == "{" + x && x <= inner;
      PassOpen("{", x, field, 0, None);
      BlankIsNeutral(open);
      CutConcat(open, PrintMembers(members), x);
      if x <= open {
        CutNeutral(open, x, field, 1, None);
      } else {
        PassNeutral(open, x[|open|..], field, 1, None);
        CutTop(members, x[|open|..], field, None);
      }
    }
  }

  lemma BlankHasNoField(ws: string, p: string, field: string)
    requires Blank(ws) && p <= ws
    ensures Extract(p, field) == None
  {
    assert Blank(p) && p + "" == p;
    TrimBlank(p, "");
  }
}
