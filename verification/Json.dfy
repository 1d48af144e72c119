/**
 The hand-written JSON string printer (crates/wkp-cli/src/search.rs) and top-level field scanner
 (crates/wkp-cli/src/prompt_hook.rs).  The specification functions read a string from its front; the methods are
 the index loops that run.
 */
module Json {
  import opened Wrappers
  import opened Text

  // The printer

  /** `{:04x}` of a number below 2^16. */
  function Hex4(n: nat): string
    requires n < 0x1_0000
  {
    [HexDigit(n / 4096), HexDigit(n / 256 % 16), HexDigit(n / 16 % 16), HexDigit(n % 16)]
  }

  function JsonChar(c: char): string {
    if c == '"' then "\\\""
    else if c == '\\' then "\\\\"
    else if c == '\n' then "\\n"
    else if c == '\r' then "\\r"
    else if c == '\t' then "\\t"
    else if c < ' ' then "\\u" + Hex4(c as int)
    else [c]
  }

  function JsonBody(s: string): string {
    if s == "" then "" else JsonChar(s[0]) + JsonBody(s[1..])
  }

  function JsonString(s: string): string {
    "\"" + JsonBody(s) + "\""
  }

  lemma {:induction false} JsonBodySnoc(s: string, c: char)
    ensures JsonBody(s + [c]) == JsonBody(s) + JsonChar(c)
  {
    if s == "" {
      assert s + [c] == [c] && [c][1..] == "";
      assert JsonBody([c]) == JsonChar(c) + "";
    } else {
      assert (s + [c])[1..] == s[1..] + [c];
      JsonBodySnoc(s[1..], c);
      assert JsonChar(s[0]) + (JsonBody(s[1..]) + JsonChar(c)) == JsonBody(s) + JsonChar(c);
    }
  }

  method PrintString(s: string) returns (out: string)
    ensures out == JsonString(s)
  {
    hide JsonChar;
    out := "\"";
    var i := 0;
    assert JsonBody(s[..0]) == "";
    hide JsonBody;
    while i < |s|
      invariant 0 <= i <= |s|
      invariant out == "\"" + JsonBody(s[..i])
    {
      JsonBodySnoc(s[..i], s[i]);
      assert s[..i] + [s[i]] == s[..i + 1];
      out := out + JsonChar(s[i]);
      i := i + 1;
    }
    assert s[..|s|] == s;
    out := out + "\"";
  }

  // Reading one string literal

  predicate IsHexDigit(c: char) {
    '0' <= c <= '9' || 'a' <= c <= 'f' || 'A' <= c <= 'F'
  }

  function HexValue(c: char): (n: nat)
    requires IsHexDigit(c)
    ensures n < 16
  {
    if c <= '9' then c as int - '0' as int
    else if 'a' <= c then c as int - 'a' as int + 10
    else c as int - 'A' as int + 10
  }

  predicate AllHex(s: string) {
    forall i :: 0 <= i < |s| ==> IsHexDigit(s[i])
  }

  /** `u32::from_str_radix(h, 16)` on four characters: a leading plus sign is accepted. */
  function ParseHex4(h: string): (r: Option<nat>)
    requires |h| == 4
    ensures r.Some? ==> r.value < 0x1_0000
  {
    if AllHex(h) then
      Some(HexValue(h[0]) * 4096 + HexValue(h[1]) * 256 + HexValue(h[2]) * 16 + HexValue(h[3]))
    else if h[0] == '+' && AllHex(h[1..]) then
      Some(HexValue(h[1..][0]) * 256 + HexValue(h[1..][1]) * 16 + HexValue(h[1..][2]))
    else None
  }

  predicate IsSurrogate(code: nat) {
    0xD800 <= code < 0xE000
  }

  /** `char::from_u32(code).unwrap_or('\u{FFFD}')`. */
  function CharOf(code: nat): char
    requires code < 0x1_0000
  {
    if IsSurrogate(code) then '\U{FFFD}' else code as char
  }

  /** The characters that may follow a backslash, other than `u`, and what they stand for. */
  function ShortEscape(letter: char): Option<char> {
    if letter == '"' then Some('"')
    else if letter == '\\' then Some('\\')
    else if letter == '/' then Some('/')
    else if letter == 'n' then Some('\n')
    else if letter == 'r' then Some('\r')
    else if letter == 't' then Some('\t')
    else if letter == 'b' then Some('\U{8}')
    else if letter == 'f' then Some('\U{C}')
    else None
  }

  /** The escape at the front of `s`: the character it stands for and its length. */
  function ReadEscape(s: string): (r: Option<(char, nat)>)
    requires s != ""
    ensures r.Some? ==> 2 <= r.value.1 <= |s|
  {
    if |s| < 2 then None
    else if s[1] == 'u' then
      if |s| < 6 then None
      else
        match ParseHex4(s[2..6])
        case None => None
        case Some(code) => Some((CharOf(code), 6))
    else
      match ShortEscape(s[1])
      case None => None
      case Some(c) => Some((c, 2))
  }

  function Prepend(prefix: string, r: Option<(string, string)>): Option<(string, string)> {
    match r
    case None => None
    case Some((v, rest)) => Some((prefix + v, rest))
  }

  /** What follows an opening quote: the decoded content and the text behind the closing quote. */
  function ReadBody(s: string): (r: Option<(string, string)>)
    ensures r.Some? ==> |r.value.1| < |s| && r.value.1 == s[|s| - |r.value.1|..]
    decreases |s|
  {
    if s == "" then None
    else if s[0] == '"' then Some(("", s[1..]))
    else if s[0] == '\\' then
      match ReadEscape(s)
      case None => None
      case Some((c, n)) => Prepend([c], ReadBody(s[n..]))
    else Prepend([s[0]], ReadBody(s[1..]))
  }

  /** `ReadBody` in terms of offsets. */
  function ReadAt(input: string, start: nat): Option<(string, nat)>
    requires start <= |input|
  {
    if start == |input| || input[start] != '"' then None
    else
      match ReadBody(input[start + 1..])
      case None => None
      case Some((value, rest)) => Some((value, |input| - |rest|))
  }

  lemma PrependPrepend(a: string, b: string, r: Option<(string, string)>)
    ensures Prepend(a, Prepend(b, r)) == Prepend(a + b, r)
  {
    if r.Some? { assert a + (b + r.value.0) == a + b + r.value.0; }
  }

  lemma PrependNothing(r: Option<(string, string)>)
    ensures Prepend("", r) == r
  {
    if r.Some? { assert "" + r.value.0 == r.value.0; }
  }

  lemma ReadBodyStep(s: string)
    requires s != "" && s[0] != '"'
    ensures s[0] == '\\' && ReadEscape(s).None? ==> ReadBody(s) == None
    ensures s[0] == '\\' && ReadEscape(s).Some? ==>
      ReadBody(s) == Prepend([ReadEscape(s).value.0], ReadBody(s[ReadEscape(s).value.1..]))
    ensures s[0] != '\\' ==> ReadBody(s) == Prepend([s[0]], ReadBody(s[1..]))
  {
    hide ReadEscape;
  }

  method ReadJsonString(input: string, start: nat) returns (r: Option<(string, nat)>)
    requires start <= |input|
    ensures r == ReadAt(input, start)
    ensures r.Some? ==> start < r.value.1 <= |input|
  {
    hide ReadBody, ReadEscape, Prepend, ReadAt;
    if start == |input| || input[start] != '"' {
      NoQuote(input, start);
      return None;
    }
    var out, i := "", start + 1;
    var runStart := i;
    ghost var body := ReadBody(input[start + 1..]);
    PrependNothing(body);
    assert out + input[runStart..i] == "";
    while i < |input|
      invariant start + 1 <= runStart <= i <= |input|
      invariant body == Prepend(out + input[runStart..i], ReadBody(input[i..]))
    {
      ghost var rest := input[i..];
      if input[i] == '"' {
        out := out + input[runStart..i];
        assert rest[1..] == input[i + 1..];
        ClosingQuote(rest, out);
        ReadAtBody(input, start);
        return Some((out, i + 1));
      }
      ReadBodyStep(rest);
      if input[i] == '\\' {
        out := out + input[runStart..i];
        var escape := ReadEscape(input[i..]);
        match escape {
          case None =>
            PrependNone(out);
            ReadAtBody(input, start);
            return None;
          case Some((c, n)) =>
            assert rest[n..] == input[i + n..];
            PrependPrepend(out, [c], ReadBody(input[i + n..]));
            out := out + [c];
            i := i + n;
            runStart := i;
            assert out + input[runStart..i] == out;
        }
      } else {
        assert rest[1..] == input[i + 1..];
        PrependPrepend(out + input[runStart..i], [input[i]], ReadBody(input[i + 1..]));
        assert out + input[runStart..i] + [input[i]] == out + input[runStart..i + 1];
        i := i + 1;
      }
    }
    assert input[i..] == "";
    NothingToRead(out + input[runStart..i]);
    ReadAtBody(input, start);
    return None;
  }

  lemma NoQuote(input: string, start: nat)
    requires start <= |input| && (start == |input| || input[start] != '"')
    ensures ReadAt(input, start) == None
  {
  }

  lemma ReadAtBody(input: string, start: nat)
    requires start < |input| && input[start] == '"'
    ensures var body := ReadBody(input[start + 1..]);
      ReadAt(input, start) == if body.None? then None else Some((body.value.0, |input| - |body.value.1|))
  {
    hide ReadBody;
  }

  lemma ClosingQuote(s: string, out: string)
    requires s != "" && s[0] == '"'
    ensures Prepend(out, ReadBody(s)) == Some((out, s[1..]))
  {
    assert out + "" == out;
  }

  lemma PrependNone(out: string)
    ensures Prepend(out, None) == None
  {
  }

  lemma NothingToRead(out: string)
    ensures Prepend(out, ReadBody("")) == None
  {
  }

  // Scanning for a top-level field

  function SkipSpace(s: string): (r: string)
    ensures |r| <= |s| && r == s[|s| - |r|..]
  {
    if s != "" && IsAsciiSpace(s[0]) then SkipSpace(s[1..]) else s
  }

  /** The value of a matching key, whose name ended where `rest` starts: a string literal or nothing. */
  function ReadMatch(rest: string): (r: Option<(string, string)>)
    requires SkipSpace(rest) != ""
    ensures r.Some? ==> |r.value.1| < |rest|
  {
    var value := SkipSpace(SkipSpace(rest)[1..]);
    if value == "" || value[0] != '"' then None else ReadBody(value[1..])
  }

  predicate ColonNext(rest: string) {
    SkipSpace(rest) != "" && SkipSpace(rest)[0] == ':'
  }

  function Scan(s: string, field: string, depth: nat, found: Option<string>): Option<string>
    decreases |s|
  {
    if s == "" then
      if depth != 0 then None else found
    else if s[0] == '"' then
      match ReadBody(s[1..])
      case None => None
      case Some((value, rest)) =>
        if depth == 1 && ColonNext(rest) && value == field then
          match ReadMatch(rest)
          case None => None
          case Some((v, tail)) => Scan(tail, field, depth, Some(v))
        else Scan(rest, field, depth, found)
    else if s[0] == '{' || s[0] == '[' then Scan(s[1..], field, depth + 1, found)
    else if s[0] == '}' || s[0] == ']' then
      if depth == 0 then None else Scan(s[1..], field, depth - 1, found)
    else Scan(s[1..], field, depth, found)
  }

  function Extract(input: string, field: string): Option<string> {
    var s := TrimStart(input);
    if s == "" || s[0] != '{' then None else Scan(s, field, 0, None)
  }

  method SkipSpaces(input: string, from: nat) returns (j: nat)
    requires from <= |input|
    ensures from <= j <= |input|
    ensures input[j..] == SkipSpace(input[from..])
  {
    j := from;
    while j < |input| && IsAsciiSpace(input[j])
      invariant from <= j <= |input|
      invariant SkipSpace(input[from..]) == SkipSpace(input[j..])
    {
      assert input[j..][1..] == input[j + 1..];
      j := j + 1;
    }
  }

  lemma ScanString(s: string, field: string, depth: nat, found: Option<string>, value: string, rest: string)
    requires s != "" && s[0] == '"' && ReadBody(s[1..]) == Some((value, rest))
    ensures !(depth == 1 && ColonNext(rest) && value == field) ==>
      Scan(s, field, depth, found) == Scan(rest, field, depth, found)
    ensures depth == 1 && ColonNext(rest) && value == field ==>
      Scan(s, field, depth, found) ==
      if ReadMatch(rest).None? then None
      else Scan(ReadMatch(rest).value.1, field, depth, Some(ReadMatch(rest).value.0))
  {
    hide ReadBody, ColonNext, ReadMatch;
  }

  lemma ScanBadString(s: string, field: string, depth: nat, found: Option<string>)
    requires s != "" && s[0] == '"' && ReadBody(s[1..]) == None
    ensures Scan(s, field, depth, found) == None
  {
    hide ReadBody, ColonNext, ReadMatch;
  }

  lemma ScanOther(s: string, field: string, depth: nat, found: Option<string>)
    requires s != "" && s[0] != '"'
    ensures Scan(s, field, depth, found) ==
      if s[0] == '{' || s[0] == '[' then Scan(s[1..], field, depth + 1, found)
      else if s[0] == '}' || s[0] == ']' then
        if depth == 0 then None else Scan(s[1..], field, depth - 1, found)
      else Scan(s[1..], field, depth, found)
  {
    hide ReadBody, ColonNext, ReadMatch;
  }

  lemma ScanEnd(field: string, depth: nat, found: Option<string>)
    ensures Scan("", field, depth, found) == if depth != 0 then None else found
  {
  }

  lemma ReadAtRest(input: string, start: nat)
    requires start < |input| && input[start] == '"'
    ensures ReadAt(input, start).Some? <==> ReadBody(input[start + 1..]).Some?
    ensures ReadAt(input, start).Some? ==>
      var (value, end) := ReadAt(input, start).value;
      end <= |input| && ReadBody(input[start + 1..]) == Some((value, input[end..]))
  {
    hide ReadBody;
  }

  /** The string literal at `i`: where scanning goes on and what has been found by then, or nothing to go on with. */
  method PassString(input: string, i: nat, field: string, depth: nat, found: Option<string>)
    returns (next: Option<(nat, Option<string>)>)
    requires i < |input| && input[i] == '"'
    ensures next.None? ==> Scan(input[i..], field, depth, found) == None
    ensures next.Some? ==>
      && i < next.value.0 <= |input|
      && Scan(input[i..], field, depth, found) == Scan(input[next.value.0..], field, depth, next.value.1)
  {
    hide Scan, ReadAt, SkipSpace, ColonNext;
    var literal := ReadJsonString(input, i);
    if literal.None? {
      PassBad(input, i, field, depth, found);
      return None;
    }
    var (value, end) := literal.value;
    var j := SkipSpaces(input, end);
    ColonAt(input, end, j);
    if depth == 1 && j < |input| && input[j] == ':' && value == field {
      var k := SkipSpaces(input, j + 1);
      if k == |input| || input[k] != '"' {
        NoQuote(input, k);
        PassMatch(input, i, field, found, end, j, k);
        return None;
      }
      var content := ReadJsonString(input, k);
      PassMatch(input, i, field, found, end, j, k);
      if content.None? {
        return None;
      }
      return Some((content.value.1, Some(content.value.0)));
    }
    PassPlain(input, i, field, depth, found, value, end);
    return Some((end, found));
  }

  lemma PassBad(input: string, i: nat, field: string, depth: nat, found: Option<string>)
    requires i < |input| && input[i] == '"' && ReadAt(input, i) == None
    ensures Scan(input[i..], field, depth, found) == None
  {
    hide Scan, ReadBody, ReadAt;
    assert input[i..][1..] == input[i + 1..];
    ReadAtRest(input, i);
    ScanBadString(input[i..], field, depth, found);
  }

  lemma PassPlain(input: string, i: nat, field: string, depth: nat, found: Option<string>, value: string, end: nat)
    requires i < end <= |input| && input[i] == '"' && ReadAt(input, i) == Some((value, end))
    requires !(depth == 1 && ColonNext(input[end..]) && value == field)
    ensures Scan(input[i..], field, depth, found) == Scan(input[end..], field, depth, found)
  {
    hide Scan, ReadBody, ReadAt, ColonNext;
    assert input[i..][1..] == input[i + 1..];
    ReadAtRest(input, i);
    ScanString(input[i..], field, depth, found, value, input[end..]);
  }

  lemma ScanFieldName(input: string, i: nat, field: string, found: Option<string>, end: nat)
    requires i < |input| && input[i] == '"' && ReadAt(input, i) == Some((field, end)) && end <= |input|
    requires ColonNext(input[end..])
    ensures Scan(input[i..], field, 1, found)
         == if ReadMatch(input[end..]).None? then None
            else Scan(ReadMatch(input[end..]).value.1, field, 1, Some(ReadMatch(input[end..]).value.0))
  {
    hide Scan, ReadBody, ReadAt, ColonNext, ReadMatch, SkipSpace;
    assert input[i..][1..] == input[i + 1..];
    ReadAtRest(input, i);
    ScanString(input[i..], field, 1, found, field, input[end..]);
  }

  lemma PassMatch(input: string, i: nat, field: string, found: Option<string>, end: nat, j: nat, k: nat)
    requires i < end <= j < k <= |input| && input[i] == '"' && ReadAt(input, i) == Some((field, end))
    requires input[j..] == SkipSpace(input[end..]) && input[j] == ':'
    requires input[k..] == SkipSpace(input[j + 1..])
    ensures ReadAt(input, k).None? ==> Scan(input[i..], field, 1, found) == None
    ensures ReadAt(input, k).Some? ==>
      var (v, next) := ReadAt(input, k).value;
      next <= |input| && Scan(input[i..], field, 1, found) == Scan(input[next..], field, 1, Some(v))
  {
    hide Scan, ReadBody, ReadAt, ColonNext, ReadMatch, SkipSpace;
    ColonAt(input, end, j);
    ScanFieldName(input, i, field, found, end);
    MatchAt(input, end, j, k);
    if k < |input| && input[k] == '"' {
      ReadAtRest(input, k);
    } else {
      NoQuote(input, k);
    }
  }

  method ExtractField(input: string, field: string) returns (result: Option<string>)
    ensures result == Extract(input, field)
  {
    hide Scan, TrimStart;
    var s := TrimStart(input);
    var start := |input| - |s|;
    if s == "" || input[start] != '{' {
      return None;
    }
    var depth, found, i := 0, None, start;
    while i < |input|
      invariant start <= i <= |input|
      invariant Scan(input[i..], field, depth, found) == Extract(input, field)
    {
      if input[i] == '"' {
        var next := PassString(input, i, field, depth, found);
        if next.None? {
          return None;
        }
        i, found := next.value.0, next.value.1;
      } else {
        assert input[i..][1..] == input[i + 1..];
        ScanOther(input[i..], field, depth, found);
        if input[i] == '{' || input[i] == '[' {
          depth := depth + 1;
        } else if input[i] == '}' || input[i] == ']' {
          if depth == 0 {
            return None;
          }
          depth := depth - 1;
        }
        i := i + 1;
      }
    }
    assert input[i..] == "";
    ScanEnd(field, depth, found);
    return if depth != 0 then None else found;
  }

  lemma ColonAt(input: string, end: nat, j: nat)
    requires end <= j <= |input| && input[j..] == SkipSpace(input[end..])
    ensures ColonNext(input[end..]) <==> j < |input| && input[j] == ':'
  {
  }

  lemma MatchAt(input: string, end: nat, j: nat, k: nat)
    requires end <= j < |input| && input[j..] == SkipSpace(input[end..])
    requires j < k <= |input| && input[k..] == SkipSpace(input[j + 1..])
    ensures ReadMatch(input[end..]) == if k == |input| || input[k] != '"' then None else ReadBody(input[k + 1..])
  {
    hide ReadBody;
    assert input[j..][1..] == input[j + 1..];
    if k < |input| { assert input[k..][1..] == input[k + 1..]; }
  }
}
