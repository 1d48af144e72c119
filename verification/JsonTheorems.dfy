/**
 The scanner against JSON itself: texts are printed from syntax trees that follow RFC 8259 (sections 2, 4 and 7)
 with any white space, and the scanner must answer from the tree.
 */
module JsonTheorems {
  import opened Wrappers
  import opened Text
  import opened Json

  // String literals

  /** One unit between the quotes of a string literal: an unescaped character or an escape. */
  datatype Piece = Raw(c: char) | Short(letter: char) | Code(h: string)

  predicate ValidPiece(p: Piece) {
    match p
    case Raw(c) => c >= ' ' && c != '"' && c != '\\'
    case Short(letter) => ShortEscape(letter).Some?
    case Code(h) => |h| == 4 && AllHex(h)
  }

  predicate ValidPieces(ps: seq<Piece>) {
    forall i :: 0 <= i < |ps| ==> ValidPiece(ps[i])
  }

  function PieceText(p: Piece): string {
    match p
    case Raw(c) => [c]
    case Short(letter) => ['\\', letter]
    case Code(h) => "\\u" + h
  }

  function PiecesText(ps: seq<Piece>): string {
    if ps == [] then "" else PieceText(ps[0]) + PiecesText(ps[1..])
  }

  function Quoted(ps: seq<Piece>): string {
    "\"" + PiecesText(ps) + "\""
  }

  function CodeOf(p: Piece): nat
    requires p.Code? && ValidPiece(p)
  {
    ParseHex4(p.h).value
  }

  /** The character the scanner takes a piece for. */
  function PieceChar(p: Piece): char
    requires ValidPiece(p)
  {
    match p
    case Raw(c) => c
    case Short(letter) => ShortEscape(letter).value
    case Code(h) => CharOf(CodeOf(p))
  }

  function PiecesString(ps: seq<Piece>): (s: string)
    requires ValidPieces(ps)
    ensures |s| == |ps|
  {
    if ps == [] then "" else [PieceChar(ps[0])] + PiecesString(ps[1..])
  }

  lemma EscapeRead(p: Piece, r: string)
    requires ValidPiece(p) && !p.Raw?
    ensures var s := PieceText(p) + r;
      s != "" && s[0] == '\\' && ReadEscape(s) == Some((PieceChar(p), |PieceText(p)|)) && s[|PieceText(p)|..] == r
  {
    hide ParseHex4;
    var s := PieceText(p) + r;
    if p.Code? {
      assert s[2..6] == p.h;
      assert ParseHex4(p.h).Some? by { HexParses(p.h); }
    } else {
      assert ShortEscape('u') == None;
    }
  }

  lemma HexParses(h: string)
    requires |h| == 4 && AllHex(h)
    ensures ParseHex4(h).Some?
  {
  }

  lemma RawRead(c: char, r: string)
    requires c != '"' && c != '\\'
    ensures ReadBody([c] + r) == Prepend([c], ReadBody(r))
  {
    hide Prepend;
    assert ([c] + r)[1..] == r;
    ReadBodyStep([c] + r);
  }

  lemma PieceRead(p: Piece, r: string)
    requires ValidPiece(p)
    ensures ReadBody(PieceText(p) + r) == Prepend([PieceChar(p)], ReadBody(r))
  {
    hide ReadEscape, Prepend, ReadBody;
    if p.Raw? {
      RawRead(p.c, r);
    } else {
      EscapeRead(p, r);
      ReadBodyStep(PieceText(p) + r);
    }
  }

  /** Reading any string literal, whatever follows it: its characters in order, and exactly the text behind it. */
  lemma {:induction false} LiteralRead(ps: seq<Piece>, r: string)
    requires ValidPieces(ps)
    ensures ReadBody(PiecesText(ps) + "\"" + r) == Some((PiecesString(ps), r))
  {
    hide ReadBody, PieceText, PieceChar, ValidPiece;
    if ps == [] {
      assert "" + "\"" + r == "\"" + r && ("\"" + r)[1..] == r;
      ClosingQuote("\"" + r, "");
      PrependNothing(ReadBody("\"" + r));
    } else {
      var rest := PiecesText(ps[1..]) + "\"" + r;
      assert PiecesText(ps) + "\"" + r == PieceText(ps[0]) + rest;
      assert ValidPiece(ps[0]);
      PieceRead(ps[0], rest);
      LiteralRead(ps[1..], r);
    }
  }

  /** A literal cut before its closing quote is not read at all. */
  lemma {:induction false} CutLiteral(ps: seq<Piece>, p: string)
    requires ValidPieces(ps) && p <= PiecesText(ps)
    ensures ReadBody(p) == None
  {
    hide ReadBody, PieceText, ValidPiece;
    if p == "" {
      NothingToRead("");
      PrependNothing(ReadBody(""));
    } else {
      assert ValidPiece(ps[0]);
      var head := PieceText(ps[0]);
      if |head| <= |p| {
        assert p == head + p[|head|..];
        assert p[|head|..] <= PiecesText(ps[1..]);
        PieceRead(ps[0], p[|head|..]);
        CutLiteral(ps[1..], p[|head|..]);
      } else {
        assert p <= head;
        CutPiece(ps[0], p);
      }
    }
  }

  lemma CutPiece(piece: Piece, p: string)
    requires ValidPiece(piece) && p != "" && p <= PieceText(piece) && |p| < |PieceText(piece)|
    ensures ReadBody(p) == None
  {
    hide ParseHex4;
    assert p[0] == '\\';
    assert ReadEscape(p) == None by {
      if |p| >= 2 { assert p[1] == PieceText(piece)[1]; }
    }
    ReadBodyStep(p);
  }

  // The printer's strings

  function PieceFor(c: char): Piece {
    if c == '"' then Short('"')
    else if c == '\\' then Short('\\')
    else if c == '\n' then Short('n')
    else if c == '\r' then Short('r')
    else if c == '\t' then Short('t')
    else if c < ' ' then Code(Hex4(c as int))
    else Raw(c)
  }

  function PiecesFor(s: string): seq<Piece> {
    if s == "" then [] else [PieceFor(s[0])] + PiecesFor(s[1..])
  }

  lemma HexDigitValue(n: nat)
    requires n < 16
    ensures IsHexDigit(HexDigit(n)) && HexValue(HexDigit(n)) == n
  {
  }

  lemma Hex4Parses(n: nat)
    requires n < 32
    ensures AllHex(Hex4(n)) && ParseHex4(Hex4(n)) == Some(n)
  {
    hide HexDigit;
    var h := Hex4(n);
    assert n / 4096 == 0 && n / 256 % 16 == 0;
    HexDigitValue(0);
    HexDigitValue(n / 16 % 16);
    HexDigitValue(n % 16);
    assert AllHex(h);
    assert n == n / 16 * 16 + n % 16;
  }

  lemma PieceForChar(c: char)
    ensures ValidPiece(PieceFor(c)) && PieceText(PieceFor(c)) == JsonChar(c) && PieceChar(PieceFor(c)) == c
  {
    hide Hex4, ParseHex4, AllHex;
    if c < ' ' {
      Hex4Parses(c as int);
      assert |Hex4(c as int)| == 4 by { Hex4Length(c as int); }
    }
  }

  lemma Hex4Length(n: nat)
    requires n < 0x1_0000
    ensures |Hex4(n)| == 4
  {
  }

  lemma {:induction false} PiecesForString(s: string)
    ensures ValidPieces(PiecesFor(s)) && PiecesText(PiecesFor(s)) == JsonBody(s) && PiecesString(PiecesFor(s)) == s
  {
    hide JsonChar, PieceFor, PieceText, PieceChar, ValidPiece;
    if s != "" {
      PieceForChar(s[0]);
      PiecesForString(s[1..]);
      assert ([PieceFor(s[0])] + PiecesFor(s[1..]))[1..] == PiecesFor(s[1..]);
    }
  }

  /** A printed string, wherever it stands, is read back as the string and its exact end. */
  lemma PrintedStringRead(prefix: string, s: string, suffix: string)
    ensures ReadAt(prefix + JsonString(s) + suffix, |prefix|) == Some((s, |prefix| + |JsonString(s)|))
  {
    hide ReadBody, JsonBody, ReadAt;
    var input := prefix + JsonString(s) + suffix;
    assert input[|prefix| + 1..] == JsonBody(s) + "\"" + suffix;
    PiecesForString(s);
    LiteralRead(PiecesFor(s), suffix);
    ReadAtBody(input, |prefix|);
  }

  // RFC 8259 section 7: how a character may be spelled

  /** `x` is a hexadecimal digit, in either case, and stands for `d`. */
  predicate DigitIs(x: char, d: nat) {
    d < 16 && (x == "0123456789abcdef"[d] || x == "0123456789ABCDEF"[d])
  }

  predicate AnyDigit(x: char) { exists d: nat | d < 16 :: DigitIs(x, d) }

  lemma DigitRead(x: char, d: nat)
    requires DigitIs(x, d)
    ensures IsHexDigit(x) && HexValue(x) == d
  {
  }

  lemma OnlyDigits(x: char)
    ensures IsHexDigit(x) <==> AnyDigit(x)
  {
    if IsHexDigit(x) { assert DigitIs(x, HexValue(x)); }
    if AnyDigit(x) {
      var d: nat :| d < 16 && DigitIs(x, d);
      DigitRead(x, d);
    }
  }

  /** The letters behind a backslash, and what they stand for. */
  predicate ShortFor(letter: char, c: char) {
    || (letter == '"' && c == '"') || (letter == '\\' && c == '\\') || (letter == '/' && c == '/')
    || (letter == 'b' && c as int == 0x08) || (letter == 'f' && c as int == 0x0C) || (letter == 'n' && c as int == 0x0A)
    || (letter == 'r' && c as int == 0x0D) || (letter == 't' && c as int == 0x09)
  }

  predicate FourDigits(h: string, i: nat, j: nat, k: nat, l: nat) {
    |h| == 4 && DigitIs(h[0], i) && DigitIs(h[1], j) && DigitIs(h[2], k) && DigitIs(h[3], l)
  }

  /** A piece that spells the character: itself, a letter for it, or its code. */
  ghost predicate Spells(p: Piece, c: char) {
    match p
    case Raw(x) => x == c && c >= ' ' && c != '"' && c != '\\'
    case Short(letter) => ShortFor(letter, c)
    case Code(h) =>
      && !(0xD800 <= c as int < 0xE000)
      && exists i: nat, j: nat, k: nat, l: nat ::
           FourDigits(h, i, j, k, l) && c as int == i * 4096 + j * 256 + k * 16 + l
  }

  lemma SpelledPiece(p: Piece, c: char)
    requires Spells(p, c)
    ensures ValidPiece(p) && PieceChar(p) == c
  {
    if p.Code? {
      var i: nat, j: nat, k: nat, l: nat :|
        FourDigits(p.h, i, j, k, l) && c as int == i * 4096 + j * 256 + k * 16 + l;
      FourRead(p.h, i, j, k, l);
    }
  }

  lemma FourRead(h: string, i: nat, j: nat, k: nat, l: nat)
    requires FourDigits(h, i, j, k, l)
    ensures AllHex(h) && ParseHex4(h) == Some(i * 4096 + j * 256 + k * 16 + l)
  {
    DigitRead(h[0], i);
    DigitRead(h[1], j);
    DigitRead(h[2], k);
    DigitRead(h[3], l);
    hide IsHexDigit, HexValue, DigitIs;
  }

  /** A literal that spells a string character by character, each in any way the RFC allows, is read as that string. */
  lemma {:induction false} SpelledRead(ps: seq<Piece>, s: string, r: string)
    requires |ps| == |s| && forall i :: 0 <= i < |s| ==> Spells(ps[i], s[i])
    ensures ReadBody(PiecesText(ps) + "\"" + r) == Some((s, r))
  {
    hide Spells, ReadBody, PiecesText, PieceChar, ValidPiece;
    SpelledString(ps, s);
    LiteralRead(ps, r);
  }

  lemma {:induction false} SpelledString(ps: seq<Piece>, s: string)
    requires |ps| == |s| && forall i :: 0 <= i < |s| ==> Spells(ps[i], s[i])
    ensures ValidPieces(ps) && PiecesString(ps) == s
  {
    hide Spells, PieceChar, ValidPiece;
    forall i | 0 <= i < |ps| ensures ValidPiece(ps[i]) && PieceChar(ps[i]) == s[i] { SpelledPiece(ps[i], s[i]); }
    if ps != [] {
      assert forall i :: 0 <= i < |ps[1..]| ==> ps[1..][i] == ps[i + 1] && s[1..][i] == s[i + 1];
      SpelledString(ps[1..], s[1..]);
      assert s == [s[0]] + s[1..];
    }
  }

  /** What else is behind a backslash makes a literal unreadable, but for a plus sign in front of three digits. */
  lemma EscapesReadIff(letter: char, h: string, r: string)
    requires |h| == 4
    ensures ReadBody(['\\', letter] + r).Some? ==> letter == 'u' || exists c :: ShortFor(letter, c)
    ensures ReadBody("\\u" + h + r).Some? ==>
      (AnyDigit(h[0]) || h[0] == '+') && AnyDigit(h[1]) && AnyDigit(h[2]) && AnyDigit(h[3])
  {
    hide ReadBody, IsHexDigit, HexValue, AnyDigit;
    var s, t := ['\\', letter] + r, "\\u" + h + r;
    ReadBodyStep(s);
    ReadBodyStep(t);
    if letter != 'u' && ShortEscape(letter).Some? { assert ShortFor(letter, ShortEscape(letter).value); }
    assert t[2..6] == h && t[1] == 'u';
    OnlyDigits(h[0]);
    OnlyDigits(h[1]);
    OnlyDigits(h[2]);
    OnlyDigits(h[3]);
    if ParseHex4(h).Some? { PlusDigits(h); }
  }

  /** Rust reads a code with a plus sign for its first digit as if that were a zero, which the RFC does not allow. */
  lemma PlusRead(h: string, j: nat, k: nat, l: nat)
    requires |h| == 4 && h[0] == '+' && DigitIs(h[1], j) && DigitIs(h[2], k) && DigitIs(h[3], l)
    ensures ParseHex4(h) == Some(j * 256 + k * 16 + l)
  {
    DigitRead(h[1], j);
    DigitRead(h[2], k);
    DigitRead(h[3], l);
    assert !IsHexDigit('+');
    hide IsHexDigit, HexValue, DigitIs;
    assert h[1..][0] == h[1] && h[1..][1] == h[2] && h[1..][2] == h[3];
  }

  lemma PlusDigits(h: string)
    requires |h| == 4 && ParseHex4(h).Some?
    ensures (IsHexDigit(h[0]) || h[0] == '+') && IsHexDigit(h[1]) && IsHexDigit(h[2]) && IsHexDigit(h[3])
  {
    hide IsHexDigit, HexValue;
    assert h[1..][0] == h[1] && h[1..][1] == h[2] && h[1..][2] == h[3];
  }

  // RFC 8259 section 7: two adjacent surrogate escapes stand for one character

  predicate HighSurrogate(p: Piece)
    requires ValidPiece(p)
  {
    p.Code? && 0xD800 <= CodeOf(p) < 0xDC00
  }

  predicate LowSurrogate(p: Piece)
    requires ValidPiece(p)
  {
    p.Code? && 0xDC00 <= CodeOf(p) < 0xE000
  }

  predicate SurrogateFree(ps: seq<Piece>)
    requires ValidPieces(ps)
  {
    forall i :: 0 <= i < |ps| ==> !HighSurrogate(ps[i]) && !LowSurrogate(ps[i])
  }

  function PairChar(high: Piece, low: Piece): char
    requires ValidPiece(high) && ValidPiece(low) && HighSurrogate(high) && LowSurrogate(low)
  {
    ((CodeOf(high) - 0xD800) * 0x400 + (CodeOf(low) - 0xDC00) + 0x1_0000) as char
  }

  /** What RFC 8259 says a literal means; `None` when a surrogate escape stands alone. */
  function Meaning(ps: seq<Piece>): (r: Option<string>)
    requires ValidPieces(ps)
    ensures r.Some? ==> |r.value| <= |ps|
  {
    if ps == [] then Some("")
    else if HighSurrogate(ps[0]) then
      if |ps| > 1 && LowSurrogate(ps[1]) then
        match Meaning(ps[2..])
        case None => None
        case Some(s) => Some([PairChar(ps[0], ps[1])] + s)
      else None
    else if LowSurrogate(ps[0]) then None
    else
      match Meaning(ps[1..])
      case None => None
      case Some(s) => Some([PieceChar(ps[0])] + s)
  }

  /** The scanner reads what the RFC means exactly when the literal has no surrogate escape. */
  lemma {:induction false} SurrogatesIff(ps: seq<Piece>)
    requires ValidPieces(ps)
    ensures Meaning(ps) == Some(PiecesString(ps)) <==> SurrogateFree(ps)
  {
    hide PairChar, PieceChar, CodeOf;
    if ps != [] {
      var rest := ps[1..];
      SurrogatesIff(rest);
      assert forall i :: 0 <= i < |rest| ==> rest[i] == ps[i + 1];
      if !HighSurrogate(ps[0]) && !LowSurrogate(ps[0]) {
        if Meaning(rest).Some? {
          assert ([PieceChar(ps[0])] + Meaning(rest).value)[1..] == Meaning(rest).value;
          assert ([PieceChar(ps[0])] + PiecesString(rest))[1..] == PiecesString(rest);
        }
        if SurrogateFree(rest) {
          forall i | 0 <= i < |ps| ensures !HighSurrogate(ps[i]) && !LowSurrogate(ps[i]) {
            if i > 0 { assert ps[i] == rest[i - 1]; }
          }
        }
      } else {
        assert Meaning(ps).Some? ==> |Meaning(ps).value| < |ps|;
      }
    }
  }
}
