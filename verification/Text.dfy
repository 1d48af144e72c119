/**
 Text primitives of Rust's standard library that the parsers rely on: trimming,
 line splitting and prefix tests.  A string is a sequence of Unicode scalar
 values, so offsets count characters; every place the modelled code cuts a string is
 next to an ASCII character, where byte and character cuts agree.
 */
module Text {
  import opened Wrappers

  /** `char::is_whitespace`: the Unicode White_Space property. */
  predicate IsSpace(c: char) {
    || '\t' <= c <= '\r'
    || c == ' '
    || c == '\U{85}'
    || c == '\U{A0}'
    || c == '\U{1680}'
    || '\U{2000}' <= c <= '\U{200A}'
    || c == '\U{2028}' || c == '\U{2029}' || c == '\U{202F}'
    || c == '\U{205F}' || c == '\U{3000}'
  }

  /** `u8::is_ascii_whitespace`: no vertical tab, unlike `IsSpace`. */
  predicate IsAsciiSpace(c: char) {
    c == ' ' || c == '\t' || c == '\n' || c == '\r' || c == '\U{0C}'
  }

  predicate AllSpace(s: string) {
    forall i :: 0 <= i < |s| ==> IsSpace(s[i])
  }

  predicate NoNewline(s: string) {
    '\n' !in s
  }

  /** Neither end of `s` is white space. */
  predicate Trimmed(s: string) {
    s != "" ==> !IsSpace(s[0]) && !IsSpace(s[|s| - 1])
  }

  function TrimStart(s: string): (r: string)
    ensures |r| <= |s| && r == s[|s| - |r|..]
  {
    if s != "" && IsSpace(s[0]) then TrimStart(s[1..]) else s
  }

  function TrimEnd(s: string): (r: string)
    ensures r <= s
  {
    if s == "" then ""
    else
      var t := TrimEnd(s[1..]);
      if t == "" && IsSpace(s[0]) then "" else [s[0]] + t
  }

  function Trim(s: string): (r: string)
    ensures |r| <= |s|
    ensures forall c :: c in r ==> c in s
  {
    TrimEnd(TrimStart(s))
  }

  /** The part of `s` up to and including its first newline. */
  function FirstLine(s: string): (line: string)
    ensures line <= s
    ensures s != "" ==> line != ""
  {
    if s == "" then ""
    else if s[0] == '\n' then "\n"
    else [s[0]] + FirstLine(s[1..])
  }

  /** What `str::lines` drops from the end of one line. */
  function Chomp(line: string): string {
    if line == "" || line[|line| - 1] != '\n' then line
    else StripCr(line[..|line| - 1])
  }

  function StripCr(line: string): string {
    if line != "" && line[|line| - 1] == '\r' then line[..|line| - 1] else line
  }

  /** `str::lines`. */
  function Lines(s: string): seq<string> {
    if s == "" then []
    else [Chomp(FirstLine(s))] + Lines(s[|FirstLine(s)|..])
  }

  /** The text whose lines are `ls`, each ended by a newline. */
  function Unlines(ls: seq<string>): string {
    if ls == [] then "" else ls[0] + "\n" + Unlines(ls[1..])
  }

  /** `str::split_once` for one character. */
  function SplitOnce(s: string, c: char): (r: Option<(string, string)>)
    ensures r.Some? ==> s == r.value.0 + [c] + r.value.1 && c !in r.value.0
    ensures r.None? ==> c !in s
  {
    if s == "" then None
    else if s[0] == c then Some(("", s[1..]))
    else
      match SplitOnce(s[1..], c)
      case None => None
      case Some((a, b)) =>
        assert s == [s[0]] + s[1..];
        Some(([s[0]] + a, b))
  }

  /** Splitting at the first occurrence of a character. */
  lemma {:induction false} SplitOnceAt(a: string, c: char, b: string)
    requires c !in a
    ensures SplitOnce(a + [c] + b, c) == Some((a, b))
  {
    if a == "" {
      assert a + [c] + b == [c] + b;
      assert ([c] + b)[1..] == b;
    } else {
      assert (a + [c] + b)[1..] == a[1..] + [c] + b;
      SplitOnceAt(a[1..], c, b);
      assert [a[0]] + a[1..] == a;
    }
  }

  lemma {:induction false} SplitOnceMissing(s: string, c: char)
    requires c !in s
    ensures SplitOnce(s, c) == None
  {
    if s != "" { SplitOnceMissing(s[1..], c); }
  }

  function HexDigit(n: nat): char
    requires n < 16
  {
    "0123456789abcdef"[n]
  }

  function Elements(s: seq<string>): set<string> { set x | x in s }

  // Trimming

  lemma TrimEndCons(c: char, s: string)
    ensures TrimEnd([c] + s) == if TrimEnd(s) == "" && IsSpace(c) then "" else [c] + TrimEnd(s)
  {
    assert ([c] + s)[1..] == s;
  }

  lemma {:induction false} TrimEndConcat(a: string, b: string)
    ensures TrimEnd(a + b) == if TrimEnd(b) != "" then a + TrimEnd(b) else TrimEnd(a)
  {
    if a == "" {
      assert a + b == b;
    } else {
      hide TrimEnd, IsSpace;
      var c, rest := a[0], a[1..];
      assert a == [c] + rest && a + b == [c] + (rest + b);
      TrimEndCons(c, rest + b);
      TrimEndCons(c, rest);
      TrimEndConcat(rest, b);
    }
  }

  lemma {:induction false} TrimEndLast(s: string)
    ensures TrimEnd(s) != "" ==> !IsSpace(TrimEnd(s)[|TrimEnd(s)| - 1])
    ensures TrimEnd(s) == "" <==> AllSpace(s)
    ensures s != "" && !IsSpace(s[|s| - 1]) ==> TrimEnd(s) == s
  {
    if s != "" {
      TrimEndLast(s[1..]);
      assert AllSpace(s) <==> IsSpace(s[0]) && AllSpace(s[1..]) by {
        if IsSpace(s[0]) && AllSpace(s[1..]) {
          forall i | 0 <= i < |s| ensures IsSpace(s[i]) {
            if i > 0 { assert s[i] == s[1..][i - 1]; }
          }
        }
        if AllSpace(s) {
          forall i | 0 <= i < |s[1..]| ensures IsSpace(s[1..][i]) { assert s[1..][i] == s[i + 1]; }
        }
      }
    }
  }

  lemma {:induction false} TrimCommutes(s: string)
    ensures TrimStart(TrimEnd(s)) == TrimEnd(TrimStart(s))
  {
    if s != "" {
      TrimCommutes(s[1..]);
    }
  }

  lemma {:induction false} TrimStartFirst(s: string)
    ensures TrimStart(s) != "" ==> !IsSpace(TrimStart(s)[0])
  {
    if s != "" && IsSpace(s[0]) {
      TrimStartFirst(s[1..]);
    }
  }

  /** Trimming yields trimmed text and leaves trimmed text alone, and only then keeps the length. */
  lemma TrimFixpoint(s: string)
    ensures Trimmed(Trim(s))
    ensures Trimmed(s) <==> Trim(s) == s
    ensures |Trim(s)| == |s| <==> Trim(s) == s
  {
    if Trimmed(s) && s != "" { assert TrimStart(s) == s; }
    TrimStartFirst(s);
    TrimEndLast(TrimStart(s));
    hide TrimStart, TrimEnd, IsSpace, AllSpace;
    var t := Trim(s);
    if t != "" { assert t[0] == TrimStart(s)[0]; }
    if |Trim(s)| == |s| {
      assert |TrimStart(s)| == |s|;
      assert TrimStart(s) == s;
    }
  }

  lemma {:induction false} TrimStartSpaces(ws: string, s: string)
    requires AllSpace(ws)
    ensures TrimStart(ws + s) == TrimStart(s)
  {
    if ws == "" {
      assert ws + s == s;
    } else {
      assert (ws + s)[1..] == ws[1..] + s;
      forall i | 0 <= i < |ws[1..]| ensures IsSpace(ws[1..][i]) { assert ws[1..][i] == ws[i + 1]; }
      TrimStartSpaces(ws[1..], s);
    }
  }

  /** A value written after one space and read back untrimmed at its end is the value trimmed. */
  lemma TrimAfterSpace(s: string)
    ensures Trim(TrimEnd(" " + s)) == Trim(s)
  {
    TrimStartSpaces(" ", s);
    TrimCommutes(" " + s);
    TrimEndLast(TrimStart(s));
    var t := TrimEnd(TrimStart(s));
    TrimEndIdempotent(TrimStart(s));
  }

  lemma TrimEndIdempotent(s: string)
    ensures TrimEnd(TrimEnd(s)) == TrimEnd(s)
  {
    TrimEndLast(s);
    TrimEndLast(TrimEnd(s));
  }

  lemma TrimOfTrimEnd(s: string)
    ensures Trim(TrimEnd(s)) == Trim(s)
  {
    TrimCommutes(s);
    TrimEndIdempotent(TrimStart(s));
  }

  // Lines

  lemma {:induction false} FirstLineOf(l: string, r: string)
    requires NoNewline(l)
    ensures FirstLine(l + "\n" + r) == l + "\n"
    ensures (l + "\n" + r)[|l| + 1..] == r
  {
    if l == "" {
      assert l + "\n" + r == "\n" + r;
    } else {
      assert (l + "\n" + r)[1..] == l[1..] + "\n" + r;
      FirstLineOf(l[1..], r);
      assert [l[0]] + (l[1..] + "\n") == l + "\n";
    }
  }

  lemma {:induction false} FirstLineWhole(l: string)
    requires NoNewline(l)
    ensures FirstLine(l) == l
  {
    if l != "" {
      FirstLineWhole(l[1..]);
    }
  }

  lemma LinesCons(l: string, r: string)
    requires NoNewline(l)
    ensures Lines(l + "\n" + r) == [StripCr(l)] + Lines(r)
  {
    FirstLineOf(l, r);
    assert (l + "\n")[..|l|] == l;
  }

  /** Every text is its first line followed by the rest, and a first line has no inner newline. */
  lemma {:induction false} FirstLineShape(s: string)
    requires s != ""
    ensures var line := FirstLine(s);
      || (NoNewline(line) && line == s)
      || (line[|line| - 1] == '\n' && NoNewline(line[..|line| - 1]))
  {
    if s[0] != '\n' && |s| > 1 {
      FirstLineShape(s[1..]);
      var line, sub := FirstLine(s), FirstLine(s[1..]);
      assert line == [s[0]] + sub;
      if sub[|sub| - 1] == '\n' {
        assert line[..|line| - 1] == [s[0]] + sub[..|sub| - 1];
      }
    }
  }

  lemma ChompIsLine(s: string)
    requires s != ""
    ensures NoNewline(Chomp(FirstLine(s)))
  {
    FirstLineShape(s);
    hide FirstLine;
    var line := FirstLine(s);
    if line[|line| - 1] == '\n' {
      var l := line[..|line| - 1];
      assert forall c :: c in StripCr(l) ==> c in l;
    }
  }

  /** No line of a text contains a newline. */
  lemma {:induction false} LinesAreLines(s: string)
    ensures forall l :: l in Lines(s) ==> NoNewline(l)
  {
    if s != "" {
      hide NoNewline, Chomp, FirstLine;
      ChompIsLine(s);
      LinesAreLines(s[|FirstLine(s)|..]);
    }
  }
}
