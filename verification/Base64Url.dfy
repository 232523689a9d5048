/** Unpadded base64url, as section 5 of RFC 4648 defines it. */
module Base64Url {
  import opened Wrappers

  type Byte = n: nat | n < 256
  type Sextet = n: nat | n < 64
  type Nibble = n: nat | n < 16
  type Crumb = n: nat | n < 4

  predicate Ascii(text: string) {
    forall c :: c in text ==> c as int < 128
  }

  function Symbol(n: Sextet): (c: char)
    ensures Value(c) == Some(n)
    ensures c != '=' && c as int < 128
  {
    if n < 26 then (n + 65) as char
    else if n < 52 then (n + 71) as char
    else if n < 62 then (n - 4) as char
    else if n == 62 then '-' else '_'
  }

  /** The standard alphabet stays readable: only '-' and '_' are translated before decoding. */
  function Value(c: char): Option<Sextet> {
    if 'A' <= c <= 'Z' then Some(c as int - 65)
    else if 'a' <= c <= 'z' then Some(c as int - 71)
    else if '0' <= c <= '9' then Some(c as int + 4)
    else if c == '-' || c == '+' then Some(62)
    else if c == '_' || c == '/' then Some(63)
    else None
  }

  function Group(a: Byte, b: Byte, c: Byte): string {
    [Symbol(a / 4), Symbol(a % 4 * 16 + b / 16), Symbol(b % 16 * 4 + c / 64), Symbol(c % 64)]
  }

  function Padded(bytes: seq<Byte>): string {
    match |bytes|
    case 0 => ""
    case 1 => Group(bytes[0], 0, 0)[..2] + "=="
    case 2 => Group(bytes[0], bytes[1], 0)[..3] + "="
    case _ => Group(bytes[0], bytes[1], bytes[2]) + Padded(bytes[3..])
  }

  function RStrip(text: string, mark: char): string {
    if text != "" && text[|text| - 1] == mark then RStrip(text[..|text| - 1], mark) else text
  }

  function Repeat(mark: char, n: nat): string {
    seq(n, _ => mark)
  }

  /** What the reader has seen of the current group of four. */
  datatype Quad = Start | One(x: Sextet) | Two(y: Nibble) | Three(z: Crumb)

  /** The lenient decoder: symbols outside the alphabet are skipped, a completed padding ends the input. */
  function Scan(text: string, quad: Quad, pads: nat, out: seq<Byte>): Option<seq<Byte>> {
    if text == "" then
      if quad.Start? then Some(out) else None
    else
      var c := text[0];
      if c == '=' then
        if (quad.Two? && pads + 1 >= 2) || quad.Three? then Some(out)
        else Scan(text[1..], quad, if quad.Two? then pads + 1 else pads, out)
      else
        match Value(c)
        case None => Scan(text[1..], quad, pads, out)
        case Some(v) =>
          match quad
          case Start => Scan(text[1..], One(v), 0, out)
          case One(x) => Scan(text[1..], Two(v % 16), 0, out + [x * 4 + v / 16])
          case Two(y) => Scan(text[1..], Three(v % 4), 0, out + [y * 16 + v / 4])
          case Three(z) => Scan(text[1..], Start, 0, out + [z * 64 + v])
  }

  function Encode(bytes: seq<Byte>): string {
    RStrip(Padded(bytes), '=')
  }

  function Padding(text: string): string {
    Repeat('=', -|text| % 4)
  }

  function Decode(text: string): Option<seq<Byte>> {
    if Ascii(text) then Scan(text + Padding(text), Start, 0, []) else None
  }

  lemma ScanSymbol(n: Sextet, rest: string, quad: Quad, pads: nat, out: seq<Byte>)
    ensures Scan([Symbol(n)] + rest, quad, pads, out) ==
      match quad
      case Start => Scan(rest, One(n), 0, out)
      case One(x) => Scan(rest, Two(n % 16), 0, out + [x * 4 + n / 16])
      case Two(y) => Scan(rest, Three(n % 4), 0, out + [y * 16 + n / 4])
      case Three(z) => Scan(rest, Start, 0, out + [z * 64 + n])
  {
    assert ([Symbol(n)] + rest)[1..] == rest;
  }

  lemma FirstByte(a: Byte, b: Byte)
    ensures (a % 4 * 16 + b / 16) % 16 == b / 16 && a / 4 * 4 + (a % 4 * 16 + b / 16) / 16 == a
  {
  }

  lemma ScanTwo(a: Byte, b: Byte, c: Byte, rest: string, out: seq<Byte>)
    ensures Scan(Group(a, b, c)[..2] + rest, Start, 0, out) == Scan(rest, Two(b / 16), 0, out + [a])
  {
    var g := Group(a, b, c);
    hide Scan, Symbol;
    FirstByte(a, b);
    assert g[..2] + rest == [g[0]] + ([g[1]] + rest);
    ScanSymbol(a / 4, [g[1]] + rest, Start, 0, out);
    ScanSymbol(a % 4 * 16 + b / 16, rest, One(a / 4), 0, out);
  }

  lemma ScanThree(a: Byte, b: Byte, c: Byte, rest: string, out: seq<Byte>)
    ensures Scan(Group(a, b, c)[..3] + rest, Start, 0, out) == Scan(rest, Three(c / 64), 0, out + [a, b])
  {
    var g := Group(a, b, c);
    assert g[..3] + rest == g[..2] + ([g[2]] + rest);
    ScanTwo(a, b, c, [g[2]] + rest, out);
    ScanSymbol(b % 16 * 4 + c / 64, rest, Two(b / 16), 0, out + [a]);
    assert out + [a] + [b] == out + [a, b];
  }

  lemma ScanFour(a: Byte, b: Byte, c: Byte, rest: string, out: seq<Byte>)
    ensures Scan(Group(a, b, c) + rest, Start, 0, out) == Scan(rest, Start, 0, out + [a, b, c])
  {
    var g := Group(a, b, c);
    assert g + rest == g[..3] + ([g[3]] + rest);
    ScanThree(a, b, c, [g[3]] + rest, out);
    ScanSymbol(c % 64, rest, Three(c / 64), 0, out + [a, b]);
    assert out + [a, b] + [c] == out + [a, b, c];
  }

  lemma {:induction false} ScanPadded(bytes: seq<Byte>, out: seq<Byte>)
    ensures Scan(Padded(bytes), Start, 0, out) == Some(out + bytes)
  {
    match |bytes| {
      case 0 =>
        assert out + bytes == out;
      case 1 =>
        ScanTwo(bytes[0], 0, 0, "==", out);
        assert "=="[1..] == "=";
        assert out + [bytes[0]] == out + bytes;
      case 2 =>
        ScanThree(bytes[0], bytes[1], 0, "=", out);
        assert out + [bytes[0], bytes[1]] == out + bytes;
      case _ =>
        ScanFour(bytes[0], bytes[1], bytes[2], Padded(bytes[3..]), out);
        ScanPadded(bytes[3..], out + [bytes[0], bytes[1], bytes[2]]);
        assert out + [bytes[0], bytes[1], bytes[2]] + bytes[3..] == out + bytes;
    }
  }

  /** The symbols of an encoding, without its padding: eight bits a byte at six bits a symbol. */
  function Symbols(bytes: seq<Byte>): string {
    match |bytes|
    case 0 => ""
    case 1 => Group(bytes[0], 0, 0)[..2]
    case 2 => Group(bytes[0], bytes[1], 0)[..3]
    case _ => Group(bytes[0], bytes[1], bytes[2]) + Symbols(bytes[3..])
  }

  lemma {:induction false} SymbolsAreSymbols(bytes: seq<Byte>)
    ensures '=' !in Symbols(bytes) && Ascii(Symbols(bytes))
  {
    if |bytes| >= 3 {
      SymbolsAreSymbols(bytes[3..]);
      var g := Group(bytes[0], bytes[1], bytes[2]);
      assert forall c :: c in g ==> c == g[0] || c == g[1] || c == g[2] || c == g[3];
    }
  }

  function SymbolCount(n: nat): nat {
    n / 3 * 4 + if n % 3 == 0 then 0 else n % 3 + 1
  }

  lemma {:induction false} SymbolsLength(bytes: seq<Byte>)
    ensures |Symbols(bytes)| == SymbolCount(|bytes|)
  {
    if |bytes| >= 3 {
      SymbolsLength(bytes[3..]);
      var n := |bytes|;
      assert (n - 3) / 3 == n / 3 - 1 && (n - 3) % 3 == n % 3;
    }
  }

  lemma {:induction false} PaddedIsSymbolsThenPadding(bytes: seq<Byte>)
    ensures Padded(bytes) == Symbols(bytes) + Padding(Symbols(bytes))
  {
    if |bytes| >= 3 {
      PaddedIsSymbolsThenPadding(bytes[3..]);
      SamePadding(Symbols(bytes), Symbols(bytes[3..]));
      assert Padding(Symbols(bytes)) == Padding(Symbols(bytes[3..]));
    } else if |bytes| == 1 {
      assert Padding(Symbols(bytes)) == "==";
    } else if |bytes| == 2 {
      assert Padding(Symbols(bytes)) == "=";
    }
  }

  lemma SamePadding(s: string, t: string)
    requires |s| == |t| + 4
    ensures Padding(s) == Padding(t)
  {
    assert -|s| % 4 == -|t| % 4;
  }

  lemma {:induction false} RStripRepeat(text: string, n: nat)
    requires '=' !in text
    ensures RStrip(text + Repeat('=', n), '=') == text
  {
    var padded := text + Repeat('=', n);
    if n == 0 {
      assert padded == text;
    } else {
      assert padded[..|padded| - 1] == text + Repeat('=', n - 1);
      RStripRepeat(text, n - 1);
    }
  }

  lemma EncodeIsSymbols(bytes: seq<Byte>)
    ensures Encode(bytes) == Symbols(bytes)
    ensures Encode(bytes) + Padding(Encode(bytes)) == Padded(bytes)
  {
    SymbolsAreSymbols(bytes);
    PaddedIsSymbolsThenPadding(bytes);
    RStripRepeat(Symbols(bytes), -|Symbols(bytes)| % 4);
  }

  lemma SymbolCountMod4(n: nat)
    ensures SymbolCount(n) % 4 != 1
  {
    var k := if n % 3 == 0 then 0 else n % 3 + 1;
    assert (4 * (n / 3) + k) % 4 == k % 4;
  }

  /** Stripping the padding loses nothing: the length alone says how much to put back. */
  lemma RoundTrip(bytes: seq<Byte>)
    ensures Decode(Encode(bytes)) == Some(bytes)
    ensures Encode(bytes) + Padding(Encode(bytes)) == Padded(bytes)
    ensures |Encode(bytes)| % 4 != 1 && '=' !in Encode(bytes)
  {
    EncodeIsSymbols(bytes);
    SymbolsAreSymbols(bytes);
    assert |Encode(bytes)| % 4 != 1 by {
      SymbolsLength(bytes);
      SymbolCountMod4(|bytes|);
    }
    assert Decode(Encode(bytes)) == Some(bytes) by {
      ScanPadded(bytes, []);
      assert [] + bytes == bytes;
    }
  }

  // ---- Which text, and which texts ----------------------------------------------------------

  /** Table 2 of RFC 4648. */
  const ALPHABET := "ABCDEFGHIJKLMNOPQRSTUVWXYZ" + "abcdefghijklmnopqrstuvwxyz" + "0123456789-_"

  lemma AlphabetIs(n: Sextet)
    ensures |ALPHABET| == 64 && Symbol(n) == ALPHABET[n]
  {
    assert forall k :: 0 <= k < 26 ==> ALPHABET[k] as int == 65 + k;
    assert forall k :: 26 <= k < 52 ==> ALPHABET[k] as int == 71 + k;
    assert forall k :: 52 <= k < 62 ==> ALPHABET[k] as int == k - 4;
  }

  /** Reading takes that alphabet, and the two symbols of the standard one. */
  lemma ValueExactly(c: char, n: Sextet)
    ensures Value(c) == Some(n) <==> c == ALPHABET[n] || (n == 62 && c == '+') || (n == 63 && c == '/')
  {
    AlphabetIs(n);
  }

  /** Three bytes and four symbols spell one number, the highest part first. */
  lemma GroupIsNumber(a: Byte, b: Byte, c: Byte)
    ensures var g := Group(a, b, c); |g| == 4 && forall i :: 0 <= i < 4 ==> Value(g[i]).Some?
    ensures var g := Group(a, b, c);
      ((Value(g[0]).value * 64 + Value(g[1]).value) * 64 + Value(g[2]).value) * 64 + Value(g[3]).value
      == (a * 256 + b) * 256 + c
  {
    assert a == a / 4 * 4 + a % 4 && b == b / 16 * 16 + b % 16 && c == c / 64 * 64 + c % 64;
  }

  /** Three of the test vectors of section 10 of RFC 4648, one for each length modulo three. */
  lemma Vectors()
    ensures Encode([102]) == "Zg" && Encode([102, 111]) == "Zm8" && Encode([102, 111, 111]) == "Zm9v"
  {
    EncodeIsSymbols([102]);
    EncodeIsSymbols([102, 111]);
    EncodeIsSymbols([102, 111, 111]);
    hide Encode;
    assert Symbol(25) == 'Z' && Symbol(32) == 'g' && Symbol(38) == 'm' && Symbol(60) == '8';
    assert Symbol(61) == '9' && Symbol(47) == 'v';
    hide Symbol;
    assert Symbols([102]) == [Symbol(25), Symbol(32)];
    assert Symbols([102, 111]) == [Symbol(25), Symbol(38), Symbol(60)];
    assert [102, 111, 111][3..] == [] && Symbols([]) == "";
    assert Symbols([102, 111, 111]) == [Symbol(25), Symbol(38), Symbol(61), Symbol(47)];
  }

  /** The symbols among the characters of a text. */
  function Count(text: string): nat {
    if text == "" then 0 else (if Value(text[0]).Some? then 1 else 0) + Count(text[1..])
  }

  function Held(quad: Quad): nat {
    match quad case Start => 0 case One(_) => 1 case Two(_) => 2 case Three(_) => 3
  }

  lemma {:induction false} ScanOn(text: string, tail: string, quad: Quad, out: seq<Byte>)
    returns (quad': Quad, out': seq<Byte>)
    requires '=' !in text
    ensures Scan(text + tail, quad, 0, out) == Scan(tail, quad', 0, out')
    ensures Held(quad') == (Held(quad) + Count(text)) % 4
  {
    if text == "" {
      assert text + tail == tail;
      quad', out' := quad, out;
    } else {
      assert (text + tail)[1..] == text[1..] + tail && text[0] in text;
      var (q, o) := Next(text[0], quad, out);
      ScanFirst(text + tail, quad, out);
      hide Scan, Next, Value, Held;
      quad', out' := ScanOn(text[1..], tail, q, o);
      OneMore(Held(quad), if Value(text[0]).Some? then 1 else 0, Count(text[1..]));
    }
  }

  lemma OneMore(a: nat, x: nat, b: nat)
    ensures ((a + x) % 4 + b) % 4 == (a + (x + b)) % 4
  {
  }

  function Next(c: char, quad: Quad, out: seq<Byte>): (next: (Quad, seq<Byte>))
    ensures Held(next.0) == (Held(quad) + if Value(c).Some? then 1 else 0) % 4
  {
    match Value(c)
    case None => (quad, out)
    case Some(v) =>
      match quad
      case Start => (One(v), out)
      case One(x) => (Two(v % 16), out + [x * 4 + v / 16])
      case Two(y) => (Three(v % 4), out + [y * 16 + v / 4])
      case Three(z) => (Start, out + [z * 64 + v])
  }

  lemma ScanFirst(text: string, quad: Quad, out: seq<Byte>)
    requires text != "" && text[0] != '='
    ensures var (q, o) := Next(text[0], quad, out); Scan(text, quad, 0, out) == Scan(text[1..], q, 0, o)
  {
  }

  lemma {:induction false} PadsPassOver(n: nat, quad: Quad, pads: nat, out: seq<Byte>)
    requires quad.Start? || quad.One?
    ensures Scan(Repeat('=', n), quad, pads, out).Some? <==> quad.Start?
  {
    if n > 0 {
      assert Repeat('=', n)[1..] == Repeat('=', n - 1);
      PadsPassOver(n - 1, quad, pads, out);
    }
  }

  /** The end of the input: how much padding a started group still needs. */
  lemma PadsEnd(n: nat, quad: Quad, out: seq<Byte>)
    ensures Scan(Repeat('=', n), quad, 0, out).Some?
       <==> quad.Start? || (quad.Two? && n >= 2) || (quad.Three? && n >= 1)
  {
    if quad.Start? || quad.One? {
      PadsPassOver(n, quad, 0, out);
    } else if n > 0 {
      assert Repeat('=', n)[1..] == Repeat('=', n - 1);
      if n > 1 {
        assert Repeat('=', n - 1)[1..] == Repeat('=', n - 2);
      }
    }
  }

  /** Which texts without padding are taken: characters outside the alphabet are passed over, but count for the length
      that says how much padding to put back, and a group begun needs at least two symbols and its padding. */
  lemma DecodesExactly(text: string)
    requires Ascii(text) && '=' !in text
    ensures var (n, pads) := (Count(text) % 4, -|text| % 4);
      Decode(text).Some? <==> n == 0 || (n == 2 && pads >= 2) || (n == 3 && pads >= 1)
  {
    var quad, out := ScanOn(text, Padding(text), Start, []);
    PadsEnd(-|text| % 4, quad, out);
  }
}
