/**
 Quoted values as Rust string literals: reading the escapes back by Rust's rules gives the text that was printed.
 */
module OkfDebug {
  import opened Wrappers
  import opened Text
  import opened Okf

  function HexValueOf(c: char): Option<nat> {
    if '0' <= c <= '9' then Some(c as int - '0' as int)
    else if 'a' <= c <= 'f' then Some(c as int - 'a' as int + 10)
    else None
  }

  /** The code of a `\u{…}` escape from its digits on, and what follows the brace. */
  function ReadCode(s: string, soFar: nat): Option<(nat, string)> {
    if s == "" then None
    else if s[0] == '}' then Some((soFar, s[1..]))
    else
      match HexValueOf(s[0])
      case None => None
      case Some(d) => ReadCode(s[1..], soFar * 16 + d)
  }

  lemma {:induction false} CodeIsShorter(s: string, soFar: nat)
    ensures ReadCode(s, soFar).Some? ==> |ReadCode(s, soFar).value.1| < |s|
  {
    if s != "" && s[0] != '}' && HexValueOf(s[0]).Some? { CodeIsShorter(s[1..], soFar * 16 + HexValueOf(s[0]).value); }
  }

  /** What a letter behind a backslash stands for, in code points. */
  function EscapeCode(letter: char): Option<nat> {
    match letter
    case '0' => Some(0x00)
    case 't' => Some(0x09)
    case 'n' => Some(0x0A)
    case 'r' => Some(0x0D)
    case '"' => Some(0x22)
    case '\\' => Some(0x5C)
    case _ => None
  }

  /** The code points of the inside of a Rust string literal. */
  function Codes(s: string): Option<seq<nat>>
    decreases |s|
  {
    if s == "" then Some([])
    else if s[0] != '\\' then
      match Codes(s[1..])
      case None => None
      case Some(rest) => Some([s[0] as nat] + rest)
    else if |s| > 2 && s[1] == 'u' && s[2] == '{' then
      CodeIsShorter(s[3..], 0);
      match ReadCode(s[3..], 0)
      case None => None
      case Some((code, after)) =>
        match Codes(after)
        case None => None
        case Some(rest) => Some([code] + rest)
    else if |s| > 1 && EscapeCode(s[1]).Some? then
      match Codes(s[2..])
      case None => None
      case Some(rest) => Some([EscapeCode(s[1]).value] + rest)
    else None
  }

  function CodesOf(s: string): seq<nat> {
    if s == "" then [] else [s[0] as nat] + CodesOf(s[1..])
  }

  lemma HexDigitRead(d: nat)
    requires d < 16
    ensures HexValueOf(HexDigit(d)) == Some(d) && HexDigit(d) != '}'
  {
  }

  lemma {:induction false} HexRead(n: nat, after: string)
    ensures ReadCode(HexLower(n) + after, 0) == ReadCode(after, n)
    decreases n
  {
    hide HexDigit, HexValueOf;
    HexDigitRead(n % 16);
    if n < 16 {
      assert ([HexDigit(n)] + after)[1..] == after;
    } else {
      var last := [HexDigit(n % 16)] + after;
      assert HexLower(n) + after == HexLower(n / 16) + last;
      HexRead(n / 16, last);
      assert last[1..] == after;
    }
  }

  function Followed(code: nat, rest: Option<seq<nat>>): Option<seq<nat>> {
    match rest
    case None => None
    case Some(codes) => Some([code] + codes)
  }

  lemma ItselfRead(c: char, r: string)
    requires c != '\\'
    ensures Codes([c] + r) == Followed(c as nat, Codes(r))
  {
    assert ([c] + r)[1..] == r;
  }

  lemma LetterRead(letter: char, r: string)
    requires EscapeCode(letter).Some?
    ensures Codes(['\\', letter] + r) == Followed(EscapeCode(letter).value, Codes(r))
  {
    assert (['\\', letter] + r)[2..] == r && EscapeCode('u') == None;
  }

  lemma CodeRead(code: nat, r: string)
    ensures Codes("\\u{" + HexLower(code) + "}" + r) == Followed(code, Codes(r))
  {
    hide HexLower, ReadCode;
    var s := "\\u{" + HexLower(code) + "}" + r;
    assert s[3..] == HexLower(code) + ("}" + r);
    HexRead(code, "}" + r);
    CodeEnds(r, code);
  }

  lemma CharRead(c: char, r: string, printable: Printable)
    ensures Codes(DebugChar(c, printable) + r) == Followed(c as nat, Codes(r))
  {
    var shown := DebugChar(c, printable);
    if Plain(c, printable) {
      ItselfRead(c, r);
    } else if shown == "\\u{" + HexLower(c as int) + "}" {
      CodeRead(c as int, r);
    } else {
      assert |shown| == 2 && shown == ['\\', shown[1]] && EscapeCode(shown[1]) == Some(c as nat);
      hide Codes, DebugChar;
      LetterRead(shown[1], r);
    }
  }

  lemma CodeEnds(r: string, n: nat)
    ensures ReadCode("}" + r, n) == Some((n, r))
  {
    assert ("}" + r)[1..] == r;
  }

  /** The inside of a printed literal stands for exactly the text. */
  lemma {:induction false} LiteralStandsFor(s: string, printable: Printable)
    ensures Codes(Escaped(s, printable)) == Some(CodesOf(s))
  {
    hide DebugChar, Codes;
    if s == "" {
      NoCodes();
    } else {
      LiteralStandsFor(s[1..], printable);
      CharRead(s[0], Escaped(s[1..], printable), printable);
    }
  }

  lemma NoCodes()
    ensures Codes("") == Some([])
  {
  }

  /** Which characters are printed as they are, and how short the others are. */
  lemma EscapesMean(c: char, printable: Printable)
    ensures c as int < 0x80 ==>
      (DebugChar(c, printable) == [c] <==> 0x20 <= c as int <= 0x7E && c as int != 0x22 && c as int != 0x5C)
    ensures c as int >= 0x80 ==> (DebugChar(c, printable) == [c] <==> printable(c))
    ensures |DebugChar(c, printable)| == 2
       <==> c as int == 0x00 || c as int == 0x09 || c as int == 0x0A || c as int == 0x0D || c as int == 0x22
            || c as int == 0x5C
  {
    hide HexLower;
    assert |DebugChar(c, printable)| == 1 ==> Plain(c, printable);
  }
}
