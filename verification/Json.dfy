/** JSON objects whose members are strings, printed and parsed as section 7 of RFC 8259 describes. */
module Json {
  import opened Wrappers
  import opened Orders
  import opened StringOrder

  datatype Parse<+T> = Parsed(value: T, rest: string) | Malformed

  type CodeUnit = n: nat | n < 0x10000

  // ---- Printing -----------------------------------------------------------------------------

  function HexDigit(n: nat): char
    requires n < 16
  {
    if n < 10 then (n + 48) as char else (n + 87) as char
  }

  function Hex4(n: CodeUnit): string {
    [HexDigit(n / 4096), HexDigit(n / 256 % 16), HexDigit(n / 16 % 16), HexDigit(n % 16)]
  }

  function UnicodeEscape(n: CodeUnit): string {
    "\\u" + Hex4(n)
  }

  /** Everything outside printable ASCII is escaped, beyond the basic plane as a surrogate pair. */
  function EscapeChar(c: char): string {
    var n := c as int;
    if c == '"' then "\\\""
    else if c == '\\' then "\\\\"
    else if c == '\n' then "\\n"
    else if c == '\r' then "\\r"
    else if c == '\t' then "\\t"
    else if n == 12 then "\\f"
    else if n == 8 then "\\b"
    else if ' ' <= c <= '~' then [c]
    else if n < 0x10000 then UnicodeEscape(n)
    else UnicodeEscape(0xD800 + (n - 0x10000) / 1024) + UnicodeEscape(0xDC00 + (n - 0x10000) % 1024)
  }

  function Escape(s: string): string {
    if s == "" then "" else EscapeChar(s[0]) + Escape(s[1..])
  }

  function Quote(s: string): string {
    "\"" + Escape(s) + "\""
  }

  function Members(keys: seq<string>, m: map<string, string>): string
    requires keys != [] && forall k :: k in keys ==> k in m
    decreases |keys|, 0
  {
    Quote(keys[0]) + (":" + (Quote(m[keys[0]]) + AfterMember(keys[1..], m)))
  }

  function AfterMember(keys: seq<string>, m: map<string, string>): string
    requires forall k :: k in keys ==> k in m
    decreases |keys|, 1
  {
    if keys == [] then "}" else "," + Members(keys, m)
  }

  ghost function Dumps(m: map<string, string>): string {
    var keys := SortedStrings(m.Keys);
    if keys == [] then "{}" else "{" + Members(keys, m)
  }

  // ---- Parsing ------------------------------------------------------------------------------

  function SkipSpace(s: string): (rest: string)
    ensures |rest| <= |s|
  {
    if s != "" && s[0] in {' ', '\t', '\n', '\r'} then SkipSpace(s[1..]) else s
  }

  function HexValue(c: char): Option<nat> {
    if '0' <= c <= '9' then Some(c as int - 48)
    else if 'a' <= c <= 'f' then Some(c as int - 87)
    else if 'A' <= c <= 'F' then Some(c as int - 55)
    else None
  }

  function ParseHex4(s: string): Parse<CodeUnit> {
    if |s| < 4 then Malformed else
    match (HexValue(s[0]), HexValue(s[1]), HexValue(s[2]), HexValue(s[3]))
    case (Some(a), Some(b), Some(c), Some(d)) =>
      if a < 16 && b < 16 && c < 16 && d < 16 then Parsed(a * 4096 + b * 256 + c * 16 + d, s[4..]) else Malformed
    case _ => Malformed
  }

  /** One escape, read after its backslash. A lone surrogate is no character of this model. */
  function ParseEscape(s: string): (r: Parse<char>)
    ensures r.Parsed? ==> |r.rest| < |s|
  {
    if s == "" then Malformed
    else if s[0] in {'"', '\\', '/'} then Parsed(s[0], s[1..])
    else if s[0] == 'b' then Parsed(8 as char, s[1..])
    else if s[0] == 'f' then Parsed(12 as char, s[1..])
    else if s[0] == 'n' then Parsed('\n', s[1..])
    else if s[0] == 'r' then Parsed('\r', s[1..])
    else if s[0] == 't' then Parsed('\t', s[1..])
    else if s[0] == 'u' then
      match ParseHex4(s[1..])
      case Malformed => Malformed
      case Parsed(high, rest) =>
        if high < 0xD800 || high >= 0xE000 then Parsed(high as char, rest)
        else if high < 0xDC00 && "\\u" <= rest then
          match ParseHex4(rest[2..])
          case Malformed => Malformed
          case Parsed(low, rest') =>
            if 0xDC00 <= low < 0xE000 then
              Parsed((0x10000 + (high - 0xD800) * 1024 + (low - 0xDC00)) as char, rest')
            else Malformed
        else Malformed
    else Malformed
  }

  /** The rest of a string literal, read after its opening quote. */
  function ParseChars(s: string): (r: Parse<string>)
    ensures r.Parsed? ==> |r.rest| < |s|
    decreases |s|
  {
    if s == "" || s[0] as int < 32 then Malformed
    else if s[0] == '"' then Parsed("", s[1..])
    else
      var first := if s[0] == '\\' then ParseEscape(s[1..]) else Parsed(s[0], s[1..]);
      if first.Malformed? then Malformed else
      match ParseChars(first.rest)
      case Malformed => Malformed
      case Parsed(more, rest) => Parsed([first.value] + more, rest)
  }

  function ParseString(s: string): (r: Parse<string>)
    ensures r.Parsed? ==> |r.rest| < |s|
  {
    if s != "" && s[0] == '"' then ParseChars(s[1..]) else Malformed
  }

  function Expect(s: string, c: char): (r: Parse<()>)
    ensures r.Parsed? ==> |r.rest| < |s|
  {
    var t := SkipSpace(s);
    if t != "" && t[0] == c then Parsed((), SkipSpace(t[1..])) else Malformed
  }

  /** The members of an object up to and including its closing brace; a repeated key keeps its last value. */
  function ParseMembers(s: string, seen: map<string, string>): Parse<map<string, string>>
    decreases |s|
  {
    var key := ParseString(s);
    if key.Malformed? then Malformed else
    var colon := Expect(key.rest, ':');
    if colon.Malformed? then Malformed else
    var item := ParseString(colon.rest);
    if item.Malformed? then Malformed else
    var m := seen[key.value := item.value];
    var comma := Expect(item.rest, ',');
    if comma.Parsed? then ParseMembers(comma.rest, m) else
    var close := Expect(item.rest, '}');
    if close.Parsed? then Parsed(m, close.rest) else Malformed
  }

  function Loads(text: string): Option<map<string, string>> {
    var open := Expect(text, '{');
    if open.Malformed? then None else
    var empty := Expect(open.rest, '}');
    var members := if empty.Parsed? then Parsed(map[], empty.rest) else ParseMembers(open.rest, map[]);
    if members.Parsed? && members.rest == "" then Some(members.value) else None
  }

  // ---- What is printed is parsed back -------------------------------------------------------

  lemma HexDigitReads(n: nat)
    requires n < 16
    ensures HexValue(HexDigit(n)) == Some(n)
  {
  }

  lemma HexDigits(n: CodeUnit)
    ensures n == n / 4096 * 4096 + n / 256 % 16 * 256 + n / 16 % 16 * 16 + n % 16
  {
    assert n / 16 / 16 == n / 256 && n / 256 / 16 == n / 4096;
  }

  lemma ParsePrintedHex(n: CodeUnit, rest: string)
    ensures ParseHex4(Hex4(n) + rest) == Parsed(n, rest)
  {
    var text := Hex4(n) + rest;
    assert text[4..] == rest;
    HexDigitReads(n / 4096);
    HexDigitReads(n / 256 % 16);
    HexDigitReads(n / 16 % 16);
    HexDigitReads(n % 16);
    HexDigits(n);
  }

  lemma ParsePrintedUnicode(n: CodeUnit, rest: string)
    requires n < 0xD800 || n >= 0xE000
    ensures ParseEscape("u" + Hex4(n) + rest) == Parsed(n as char, rest)
  {
    assert ("u" + Hex4(n) + rest)[1..] == Hex4(n) + rest;
    ParsePrintedHex(n, rest);
  }

  lemma ParsePrintedPair(high: CodeUnit, low: CodeUnit, rest: string)
    requires 0xD800 <= high < 0xDC00 && 0xDC00 <= low < 0xE000
    ensures ParseEscape("u" + (Hex4(high) + (UnicodeEscape(low) + rest)))
         == Parsed((0x10000 + (high - 0xD800) * 1024 + (low - 0xDC00)) as char, rest)
  {
    var tail := UnicodeEscape(low) + rest;
    var text := Hex4(high) + tail;
    assert ("u" + text)[1..] == text;
    ParsePrintedHex(high, tail);
    assert tail == "\\u" + (Hex4(low) + rest);
    assert tail[2..] == Hex4(low) + rest;
    ParsePrintedHex(low, rest);
  }

  ghost predicate ReadsFirst(text: string, c: char, rest: string) {
    && text != "" && text[0] as int >= 32 && text[0] != '"'
    && (if text[0] == '\\' then ParseEscape(text[1..]) else Parsed(text[0], text[1..])) == Parsed(c, rest)
  }

  lemma ParsePrintedShort(c: char, rest: string)
    requires |EscapeChar(c)| <= 2
    ensures ReadsFirst(EscapeChar(c) + rest, c, rest)
  {
    var text := EscapeChar(c) + rest;
    if |EscapeChar(c)| == 1 {
      assert text[1..] == rest;
    } else {
      assert text[1..][1..] == rest;
    }
  }

  lemma ReadsEscape(text: string, c: char, rest: string)
    requires |text| > 0 && text[0] == '\\' && ParseEscape(text[1..]) == Parsed(c, rest)
    ensures ReadsFirst(text, c, rest)
  {
    hide ParseEscape;
  }

  lemma ReadsUnicode(n: CodeUnit, rest: string)
    requires n < 0xD800 || n >= 0xE000
    ensures ReadsFirst(UnicodeEscape(n) + rest, n as char, rest)
  {
    hide ParseEscape, ReadsFirst, Hex4;
    var text := UnicodeEscape(n) + rest;
    assert text[1..] == "u" + Hex4(n) + rest;
    ParsePrintedUnicode(n, rest);
    ReadsEscape(text, n as char, rest);
  }

  lemma ReadsPair(n: nat, rest: string)
    requires 0x10000 <= n < 0x11_0000
    ensures var high, low := 0xD800 + (n - 0x10000) / 1024, 0xDC00 + (n - 0x10000) % 1024;
      ReadsFirst(UnicodeEscape(high) + UnicodeEscape(low) + rest, n as char, rest)
  {
    hide ParseEscape, ReadsFirst, Hex4;
    var high, low := 0xD800 + (n - 0x10000) / 1024, 0xDC00 + (n - 0x10000) % 1024;
    var text := UnicodeEscape(high) + UnicodeEscape(low) + rest;
    assert text[1..] == "u" + (Hex4(high) + (UnicodeEscape(low) + rest));
    ParsePrintedPair(high, low, rest);
    ReadsEscape(text, n as char, rest);
  }

  lemma ParsePrintedChar(c: char, rest: string)
    ensures ReadsFirst(EscapeChar(c) + rest, c, rest)
  {
    hide ReadsFirst, UnicodeEscape;
    var n := c as int;
    if n < 0x10000 {
      if |EscapeChar(c)| <= 2 {
        ParsePrintedShort(c, rest);
      } else {
        ReadsUnicode(n, rest);
      }
    } else {
      ReadsPair(n, rest);
    }
  }

  lemma {:induction false} ParsePrintedChars(s: string, rest: string)
    ensures ParseChars(Escape(s) + "\"" + rest) == Parsed(s, rest)
  {
    var text := Escape(s) + "\"" + rest;
    if s == "" {
      assert text == ['"'] + rest;
    } else {
      var tail := Escape(s[1..]) + "\"" + rest;
      assert text == EscapeChar(s[0]) + tail;
      ParsePrintedChar(s[0], tail);
      ParsePrintedChars(s[1..], rest);
      assert s == [s[0]] + s[1..];
    }
  }

  lemma ParsePrintedString(s: string, rest: string)
    ensures ParseString(Quote(s) + rest) == Parsed(s, rest)
  {
    assert (Quote(s) + rest)[1..] == Escape(s) + "\"" + rest;
    ParsePrintedChars(s, rest);
  }

  lemma ExpectThenQuote(mark: char, s: string, rest: string)
    requires mark !in {' ', '\t', '\n', '\r'}
    ensures Expect([mark] + (Quote(s) + rest), mark) == Parsed((), Quote(s) + rest)
  {
  }

  /** One printed member is read, and the reader stands where the member ends. */
  lemma ParsePrintedMember(k: string, v: string, more: string, seen: map<string, string>)
    ensures ParseMembers(Quote(k) + (":" + (Quote(v) + more)), seen) ==
      var comma := Expect(more, ',');
      if comma.Parsed? then ParseMembers(comma.rest, seen[k := v]) else
      var close := Expect(more, '}');
      if close.Parsed? then Parsed(seen[k := v], close.rest) else Malformed
  {
    var item := Quote(v) + more;
    ParsePrintedString(k, ":" + item);
    ExpectThenQuote(':', v, more);
    ParsePrintedString(v, more);
  }

  function Picked(keys: seq<string>, m: map<string, string>): map<string, string>
    requires forall k :: k in keys ==> k in m
  {
    map k | k in keys :: m[k]
  }

  lemma {:induction false} ParsePrintedMembers(keys: seq<string>, m: map<string, string>, seen: map<string, string>)
    requires keys != [] && forall k :: k in keys ==> k in m
    ensures ParseMembers(Members(keys, m), seen) == Parsed(seen + Picked(keys, m), "")
  {
    hide Expect;
    var k, rest := keys[0], keys[1..];
    var seen' := seen[k := m[k]];
    ParsePrintedMember(k, m[k], AfterMember(rest, m), seen);
    assert keys == [k] + rest;
    if rest == [] {
      BraceEnds();
      assert seen' == seen + Picked(keys, m);
    } else {
      AfterComma(rest, m);
      ParsePrintedMembers(rest, m, seen');
      PickedCons(keys, m, seen);
    }
  }

  lemma BraceEnds()
    ensures Expect("}", ',').Malformed? && Expect("}", '}') == Parsed((), "")
  {
    assert "}"[1..] == "";
  }

  lemma PickedCons(keys: seq<string>, m: map<string, string>, seen: map<string, string>)
    requires keys != [] && forall k :: k in keys ==> k in m
    ensures seen[keys[0] := m[keys[0]]] + Picked(keys[1..], m) == seen + Picked(keys, m)
  {
    assert keys == [keys[0]] + keys[1..];
  }

  lemma AfterComma(keys: seq<string>, m: map<string, string>)
    requires keys != [] && forall k :: k in keys ==> k in m
    ensures Expect(AfterMember(keys, m), ',') == Parsed((), Members(keys, m))
    ensures Expect("{" + Members(keys, m), '{') == Parsed((), Members(keys, m))
    ensures Expect(Members(keys, m), '}') == Malformed
  {
    var tail := ":" + (Quote(m[keys[0]]) + AfterMember(keys[1..], m));
    ExpectThenQuote(',', keys[0], tail);
    ExpectThenQuote('{', keys[0], tail);
  }

  lemma LoadsEmpty()
    ensures Loads("{}") == Some(map[])
  {
    assert "{}"[1..] == "}";
    BraceEnds();
  }

  lemma LoadsMembers(keys: seq<string>, m: map<string, string>)
    requires keys != [] && forall k :: k in keys ==> k in m
    ensures Loads("{" + Members(keys, m)) == Some(Picked(keys, m))
  {
    hide Members, ParseMembers, Picked, Expect;
    AfterComma(keys, m);
    ParsePrintedMembers(keys, m, map[]);
    assert map[] + Picked(keys, m) == Picked(keys, m);
  }

  lemma PickedAll(keys: seq<string>, m: map<string, string>)
    requires Lists(StringBefore, m.Keys, keys)
    ensures (forall k :: k in keys ==> k in m) && Picked(keys, m) == m
    ensures keys == [] ==> m == map[]
  {
    assert forall k :: k in m.Keys <==> k in keys;
  }

  /** Printing then parsing any map of strings gives the map back. */
  lemma LoadsDumps(m: map<string, string>)
    ensures Loads(Dumps(m)) == Some(m)
  {
    var keys := SortedStrings(m.Keys);
    PickedAll(keys, m);
    if keys == [] {
      LoadsEmpty();
    } else {
      LoadsMembers(keys, m);
      assert Dumps(m) == "{" + Members(keys, m);
    }
  }
}
