/** Every address and every network has texts, and they read back as it: dotted quads, eight groups, `::`, a quad at
    the end, prefix lengths and masks. */
module AddressForms {
  import opened Wrappers
  import opened Text
  import opened IpBlocks
  import opened AddressText

  const DIGITS := "0123456789"

  // ---- Decimal numbers ----------------------------------------------------------------------

  function DecimalText(n: nat): (s: string)
    ensures s != ""
  {
    if n < 10 then [DIGITS[n]] else DecimalText(n / 10) + [DIGITS[n % 10]]
  }

  lemma DigitIs(d: nat)
    requires d < 10
    ensures DIGITS[d] as int == 48 + d && Digit(DIGITS[d])
  {
  }

  lemma {:induction false} DecimalReads(n: nat)
    ensures AllDigits(DecimalText(n)) && Decimal(DecimalText(n)) == n
    ensures DecimalText(n)[0] == '0' <==> n == 0
  {
    var s := DecimalText(n);
    DigitIs(n % 10);
    if n < 10 {
      assert s[..0] == "";
    } else {
      DecimalReads(n / 10);
      assert s[..|s| - 1] == DecimalText(n / 10);
    }
  }

  /** Zeros in front change nothing. */
  lemma {:induction false} LeadingZero(s: string)
    requires forall c :: c in s ==> Digit(c)
    ensures (forall c :: c in "0" + s ==> Digit(c)) && Decimal("0" + s) == Decimal(s)
  {
    assert forall c :: c in "0" + s ==> c == '0' || c in s;
    if s == "" {
      assert ("0" + s)[..0] == "";
    } else {
      assert ("0" + s)[..|s|] == "0" + s[..|s| - 1];
      assert forall c :: c in s[..|s| - 1] ==> c in s;
      LeadingZero(s[..|s| - 1]);
    }
  }

  /** The text of an octet is the number without leading zeros. */
  lemma OctetExactly(s: string)
    ensures Octet(s) <==> exists n :: 0 <= n < 256 && s == DecimalText(n)
    ensures Octet(s) ==> s == DecimalText(Decimal(s))
  {
    if Octet(s) {
      OctetDigits(s);
    }
    if n :| 0 <= n < 256 && s == DecimalText(n) {
      DecimalReads(n);
      assert n >= 100 ==> DecimalText(n) == DecimalText(n / 10) + [DIGITS[n % 10]] && |DecimalText(n / 10)| == 2;
    }
  }

  lemma OctetDigits(s: string)
    requires Octet(s)
    ensures s == DecimalText(Decimal(s))
  {
    Canonical(s);
  }

  lemma DecimalSnoc(front: string, last: char)
    requires (forall c :: c in front ==> Digit(c)) && Digit(last)
    ensures AllDigits(front + [last]) && Decimal(front + [last]) == Decimal(front) * 10 + (last as int - 48)
    ensures Decimal("") == 0
  {
    var s := front + [last];
    assert s[..|s| - 1] == front && s[|s| - 1] == last;
    assert forall c :: c in s ==> c in front || c == last;
  }

  lemma FrontDigits(s: string)
    requires AllDigits(s)
    ensures s == s[..|s| - 1] + [s[|s| - 1]] && Digit(s[|s| - 1]) && forall c :: c in s[..|s| - 1] ==> Digit(c)
  {
    assert s[|s| - 1] in s && forall c :: c in s[..|s| - 1] ==> c in s;
  }

  /** Digits without a leading zero are the text of their number. */
  lemma {:induction false} Canonical(s: string)
    requires AllDigits(s) && (|s| > 1 ==> s[0] != '0')
    ensures s == DecimalText(Decimal(s)) && (s[0] != '0' ==> Decimal(s) > 0)
  {
    hide Decimal, DecimalText;
    var front, d := s[..|s| - 1], s[|s| - 1] as int - 48;
    FrontDigits(s);
    DecimalSnoc(front, s[|s| - 1]);
    DigitIs(d);
    if front == "" {
      OneDigit(d);
    } else {
      assert front[0] == s[0];
      Canonical(front);
      LastDigit(Decimal(front), d);
    }
  }

  lemma OneDigit(d: nat)
    requires d < 10
    ensures DecimalText(d) == [DIGITS[d]]
  {
  }

  lemma LastDigit(n: nat, d: nat)
    requires n > 0 && d < 10
    ensures DecimalText(n * 10 + d) == DecimalText(n) + [DIGITS[d]]
  {
  }

  // ---- IPv4 ---------------------------------------------------------------------------------

  function Dotted(v: nat): string {
    DecimalText(v / 0x100_0000) + ['.'] + (DecimalText(v / 0x1_0000 % 256) + ['.']
      + (DecimalText(v / 256 % 256) + ['.'] + DecimalText(v % 256)))
  }

  lemma FourParts(a: string, b: string, c: string, d: string)
    requires '.' !in a && '.' !in b && '.' !in c && '.' !in d
    ensures Split(a + ['.'] + (b + ['.'] + (c + ['.'] + d)), '.') == [a, b, c, d]
  {
    SplitWithout(a, '.');
    SplitWithout(b, '.');
    SplitWithout(c, '.');
    SplitWithout(d, '.');
    SplitAtSeparator(c, d, '.');
    SplitAtSeparator(b, c + ['.'] + d, '.');
    SplitAtSeparator(a, b + ['.'] + (c + ['.'] + d), '.');
  }

  lemma NoDot(n: nat)
    ensures '.' !in DecimalText(n) && ':' !in DecimalText(n) && '/' !in DecimalText(n)
  {
    DecimalReads(n);
  }

  lemma DottedReads(v: nat)
    requires v < 0x1_0000_0000
    ensures ParseV4(Dotted(v)) == Some(v)
  {
    var a, b, c, d := v / 0x100_0000, v / 0x1_0000 % 256, v / 256 % 256, v % 256;
    FromBytes(v);
    hide Split, DecimalText, Octet, Decimal;
    NoDot(a);
    NoDot(b);
    NoDot(c);
    NoDot(d);
    FourParts(DecimalText(a), DecimalText(b), DecimalText(c), DecimalText(d));
    OctetOf(a);
    OctetOf(b);
    OctetOf(c);
    OctetOf(d);
    var parts := Split(Dotted(v), '.');
    assert parts == [DecimalText(a), DecimalText(b), DecimalText(c), DecimalText(d)];
    QuadIs(Dotted(v), parts);
  }

  lemma QuadIs(text: string, parts: seq<string>)
    requires Split(text, '.') == parts
    ensures ParseV4(text).Some? <==>
      |parts| == 4 && Octet(parts[0]) && Octet(parts[1]) && Octet(parts[2]) && Octet(parts[3])
    ensures ParseV4(text).Some? ==>
      ParseV4(text).value
        == ((Decimal(parts[0]) * 256 + Decimal(parts[1])) * 256 + Decimal(parts[2])) * 256 + Decimal(parts[3])
  {
    hide Split, Decimal, Digit;
  }

  lemma FromBytes(v: nat)
    requires v < 0x1_0000_0000
    ensures var a, b, c, d := v / 0x100_0000, v / 0x1_0000 % 256, v / 256 % 256, v % 256;
      a < 256 && ((a * 256 + b) * 256 + c) * 256 + d == v
  {
    var x := v / 256;
    var y := x / 256;
    assert v / 0x1_0000 == y && v / 0x100_0000 == y / 256;
    assert v == x * 256 + v % 256 && x == y * 256 + x % 256;
  }

  lemma OctetOf(n: nat)
    requires n < 256
    ensures Octet(DecimalText(n)) && Decimal(DecimalText(n)) == n
  {
    OctetExactly(DecimalText(n));
    DecimalReads(n);
  }

  lemma {:induction false} PartsJoin(text: string)
    requires |Split(text, '.')| == 4
    ensures var p := Split(text, '.'); text == p[0] + ['.'] + (p[1] + ['.'] + (p[2] + ['.'] + p[3]))
  {
    JoinSplit(text, '.');
    var p := Split(text, '.');
    hide Split;
    assert p[1..][1..] == p[2..] && p[2..][1..] == p[3..] && p[3..] == [p[3]];
    assert Join(p[3..], '.') == p[3];
    assert Join(p[2..], '.') == p[2] + ['.'] + p[3];
    assert Join(p[1..], '.') == p[1] + ['.'] + (p[2] + ['.'] + p[3]);
    assert Join(p, '.') == p[0] + ['.'] + (p[1] + ['.'] + (p[2] + ['.'] + p[3]));
  }

  /** An IPv4 address has exactly one text: four numbers below 256 without leading zeros, the highest first. */
  lemma QuadExactly(text: string, v: nat)
    ensures ParseV4(text) == Some(v) <==> v < 0x1_0000_0000 && text == Dotted(v)
  {
    if ParseV4(text) == Some(v) {
      OnlyText(text, v);
    }
    if v < 0x1_0000_0000 && text == Dotted(v) {
      DottedReads(v);
    }
    hide ParseV4, Dotted;
  }

  lemma OnlyText(text: string, v: nat)
    requires ParseV4(text) == Some(v)
    ensures v < 0x1_0000_0000 && text == Dotted(v)
  {
    hide DecimalText, Decimal;
    var p := Split(text, '.');
    QuadIs(text, p);
    OctetDigits(p[0]);
    OctetDigits(p[1]);
    OctetDigits(p[2]);
    OctetDigits(p[3]);
    PartsJoin(text);
    QuadDigits(Decimal(p[0]), Decimal(p[1]), Decimal(p[2]), Decimal(p[3]));
    hide Split, Octet;
  }

  lemma QuadDigits(a: nat, b: nat, c: nat, d: nat)
    requires a < 256 && b < 256 && c < 256 && d < 256
    ensures var v := ((a * 256 + b) * 256 + c) * 256 + d;
      v < 0x1_0000_0000 && v / 0x100_0000 == a && v / 0x1_0000 % 256 == b && v / 256 % 256 == c && v % 256 == d
  {
  }

  // ---- IPv6 ---------------------------------------------------------------------------------

  const HEX := "0123456789abcdef"

  function Hex4(n: nat): string {
    [HEX[n / 4096 % 16], HEX[n / 256 % 16], HEX[n / 16 % 16], HEX[n % 16]]
  }

  lemma HexIs(d: nat)
    requires d < 16
    ensures HexDigit(HEX[d]) == Some(d) && HEX[d] != '.' && HEX[d] != ':' && HEX[d] != '/'
    ensures d >= 10 ==> HexDigit((HEX[d] as int - 32) as char) == Some(d)
  {
  }

  lemma HextetReads(n: nat)
    requires n < 0x1_0000
    ensures PieceOf(Hex4(n)) == Hextet(n)
    ensures '.' !in Hex4(n) && ':' !in Hex4(n) && '/' !in Hex4(n)
  {
    var a, b, c, d := n / 4096 % 16, n / 256 % 16, n / 16 % 16, n % 16;
    HexIs(a);
    HexIs(b);
    HexIs(c);
    HexIs(d);
    HexSnoc("", a);
    HexSnoc([HEX[a]], b);
    HexSnoc([HEX[a]] + [HEX[b]], c);
    HexSnoc([HEX[a]] + [HEX[b]] + [HEX[c]], d);
    assert Hex4(n) == [HEX[a]] + [HEX[b]] + [HEX[c]] + [HEX[d]];
    hide Hex, HexDigit, HexText;
    assert ((a * 16 + b) * 16 + c) * 16 + d == n by { FromHalves(n); }
  }

  lemma FromHalves(n: nat)
    requires n < 0x1_0000
    ensures ((n / 4096 % 16 * 16 + n / 256 % 16) * 16 + n / 16 % 16) * 16 + n % 16 == n
  {
  }

  lemma HexSnoc(s: string, d: nat)
    requires HexText(s) && d < 16
    ensures HexText(s + [HEX[d]]) && Hex(s + [HEX[d]]) == Hex(s) * 16 + d
  {
    HexIs(d);
    assert (s + [HEX[d]])[..|s|] == s;
  }

  /** Zeros in front change nothing, as in the shorter forms of a group. */
  lemma {:induction false} LeadingHexZero(s: string)
    requires HexText(s)
    ensures HexText("0" + s) && Hex("0" + s) == Hex(s)
  {
    assert forall c :: c in "0" + s ==> c == '0' || c in s;
    if s == "" {
      assert ("0" + s)[..0] == "";
    } else {
      assert ("0" + s)[..|s|] == "0" + s[..|s| - 1];
      LeadingHexZero(s[..|s| - 1]);
    }
  }

  /** One to four hexadecimal digits. */
  predicate GroupText(s: string) {
    PieceOf(s).Hextet?
  }

  function Value(s: string): nat
    requires GroupText(s)
  {
    PieceOf(s).n
  }

  predicate GroupTexts(parts: seq<string>) {
    forall s :: s in parts ==> GroupText(s)
  }

  function Values(parts: seq<string>): (values: seq<nat>)
    requires GroupTexts(parts)
    ensures |values| == |parts|
  {
    seq(|parts|, i requires 0 <= i < |parts| => assert parts[i] in parts; Value(parts[i]))
  }

  lemma GroupHasNoMarks(s: string)
    requires GroupText(s)
    ensures s != "" && ':' !in s && '.' !in s
  {
    assert HexDigit(':').None? && HexDigit('.').None?;
  }

  lemma {:induction false} SplitJoin(parts: seq<string>, sep: char)
    requires parts != [] && forall s :: s in parts ==> sep !in s
    ensures Split(Join(parts, sep), sep) == parts
  {
    assert parts[0] in parts;
    SplitWithout(parts[0], sep);
    if |parts| > 1 {
      assert forall s :: s in parts[1..] ==> s in parts;
      SplitJoin(parts[1..], sep);
      SplitAtSeparator(parts[0], Join(parts[1..], sep), sep);
      assert parts[0] + [sep] + Join(parts[1..], sep) == Join(parts, sep);
      assert parts == [parts[0]] + parts[1..];
    } else {
      assert parts == [parts[0]];
    }
  }

  lemma {:induction false} GroupsOf(parts: seq<string>)
    requires GroupTexts(parts)
    ensures Groups(PiecesOf(parts)) == Some(Values(parts))
  {
    if parts != [] {
      var pieces := PiecesOf(parts);
      assert parts[0] in parts && forall s :: s in parts[1..] ==> s in parts;
      assert pieces[1..] == PiecesOf(parts[1..]);
      GroupsOf(parts[1..]);
      assert Values(parts) == [Value(parts[0])] + Values(parts[1..]);
    }
  }

  lemma NoEmpty(parts: seq<string>)
    requires GroupTexts(parts)
    ensures forall x :: x in PiecesOf(parts) ==> x.Hextet?
    ensures |PiecesOf(parts)| == |parts| && forall i :: 0 <= i < |parts| ==> PiecesOf(parts)[i].Hextet?
  {
    forall i | 0 <= i < |parts| ensures PiecesOf(parts)[i].Hextet? {
      assert parts[i] in parts;
    }
  }

  lemma {:induction false} NothingElided(pieces: seq<Piece>, i: nat)
    requires forall k :: i <= k < |pieces| - 1 ==> !pieces[k].Empty?
    ensures FirstElided(pieces, i).None?
    decreases |pieces| - i
  {
    if i < |pieces| {
      NothingElided(pieces, i + 1);
    }
  }

  lemma NoMarks(parts: seq<string>)
    requires GroupTexts(parts)
    ensures forall s :: s in parts ==> s != "" && ':' !in s && '.' !in s
  {
    forall s | s in parts ensures s != "" && ':' !in s && '.' !in s {
      GroupHasNoMarks(s);
    }
  }

  /** Eight groups are the number they spell, the highest first. */
  lemma EightGroups(parts: seq<string>)
    requires |parts| == 8 && GroupTexts(parts)
    ensures ParseV6(Join(parts, ':')) == Some(Number(Values(parts)))
  {
    hide GroupTexts, Split, Join, PiecesOf, Groups, Values, Number, FirstElided, ParseV6;
    NoMarks(parts);
    SplitJoin(parts, ':');
    assert '.' !in parts[7] by { assert parts[7] in parts; }
    NoEmpty(parts);
    GroupsOf(parts);
    NothingElided(PiecesOf(parts), 1);
    PlainSix(Join(parts, ':'), parts);
  }

  lemma PlainSix(text: string, parts: seq<string>)
    requires Split(text, ':') == parts && |parts| == 8 && '.' !in parts[7]
    requires var pieces := PiecesOf(parts);
      && (forall x :: x in pieces ==> x.Hextet?) && FirstElided(pieces, 1).None?
      && Groups(pieces).Some? && |Groups(pieces).value| == 8
    ensures ParseV6(text) == Some(Number(Groups(PiecesOf(parts)).value))
  {
    hide Split, Groups, FirstElided, Number;
  }

  /** The text of an address in full: eight groups of four digits. */
  function SixGroups(v: nat, n: nat): seq<string> {
    if n == 0 then [] else SixGroups(v / 0x1_0000, n - 1) + [Hex4(v % 0x1_0000)]
  }

  lemma GroupBelow(v: nat, n: nat)
    requires n > 0 && v < Pow2(16 * n)
    ensures v / 0x1_0000 < Pow2(16 * (n - 1))
  {
    Pow2Adds(16, 16 * (n - 1));
    SmallPowers();
    assert 16 * n == 16 + 16 * (n - 1);
    hide Pow2;
    TimesMonotone(v / 0x1_0000, Pow2(16 * (n - 1)), 0x1_0000);
  }

  lemma {:induction false} SixGroupsAre(v: nat, n: nat)
    requires v < Pow2(16 * n)
    ensures |SixGroups(v, n)| == n && GroupTexts(SixGroups(v, n)) && Number(Values(SixGroups(v, n))) == v
  {
    hide Hex4;
    if n == 0 {
      assert Pow2(0) == 1;
    } else {
      var front, last := SixGroups(v / 0x1_0000, n - 1), Hex4(v % 0x1_0000);
      GroupBelow(v, n);
      hide Pow2;
      SixGroupsAre(v / 0x1_0000, n - 1);
      HextetReads(v % 0x1_0000);
      assert Values(front + [last]) == Values(front) + [v % 0x1_0000];
    }
  }

  /** Every IPv6 address has a text that reads as it. */
  lemma SixReads(v: nat)
    requires v < Pow2(128)
    ensures ParseV6(Join(SixGroups(v, 8), ':')) == Some(v)
  {
    hide Pow2;
    SixGroupsAre(v, 8);
    EightGroups(SixGroups(v, 8));
  }

  // ---- `::` ---------------------------------------------------------------------------------

  /** Groups with their colons; none is no text. */
  function Run(parts: seq<string>): string {
    if parts == [] then "" else Join(parts, ':')
  }

  function Zeros(n: nat): seq<string> {
    seq(n, _ => "0")
  }

  lemma RunSplits(parts: seq<string>)
    requires GroupTexts(parts)
    ensures Split(Run(parts), ':') == if parts == [] then [""] else parts
  {
    NoMarks(parts);
    if parts != [] {
      SplitJoin(parts, ':');
    }
  }

  lemma ElidedSplits(high: seq<string>, low: seq<string>)
    requires GroupTexts(high) && GroupTexts(low)
    ensures Split(Run(high) + "::" + Run(low), ':')
      == (if high == [] then [""] else high) + [""] + (if low == [] then [""] else low)
  {
    hide GroupTexts, Split;
    RunSplits(high);
    RunSplits(low);
    assert Run(high) + "::" + Run(low) == Run(high) + [':'] + ("" + [':'] + Run(low));
    SplitAtSeparator(Run(high), "" + [':'] + Run(low), ':');
    SplitAtSeparator("", Run(low), ':');
    SplitWithout("", ':');
  }

  /** The pieces of such a text: groups, an empty one, groups; an empty one at an edge where there are none. */
  lemma ElidedPieces(high: seq<string>, low: seq<string>)
    requires GroupTexts(high) && GroupTexts(low)
    ensures var parts := Split(Run(high) + "::" + Run(low), ':');
      && |parts| >= 3 && |parts| == |PiecesOf(parts)| && '.' !in parts[|parts| - 1]
      && PiecesOf(parts) == (if high == [] then [Empty] else PiecesOf(high)) + [Empty]
           + (if low == [] then [Empty] else PiecesOf(low))
  {
    hide Split, Run, GroupTexts;
    ElidedSplits(high, low);
    NoMarks(low);
    assert PieceOf("") == Empty;
    hide PieceOf;
    var h, l := if high == [] then [""] else high, if low == [] then [""] else low;
    assert low != [] ==> low[|low| - 1] in low;
    assert PiecesOf(h + [""] + l) == PiecesOf(h) + [PieceOf("")] + PiecesOf(l);
  }

  /** Reading such pieces: the elided groups are zeros. */
  lemma ElidedNumber(high: seq<string>, low: seq<string>, pieces: seq<Piece>)
    requires GroupTexts(high) && GroupTexts(low) && |high| + |low| <= 7
    requires pieces == (if high == [] then [Empty] else PiecesOf(high)) + [Empty]
      + (if low == [] then [Empty] else PiecesOf(low))
    ensures Bad !in pieces && |pieces| <= 9
    ensures ParsePieces(pieces)
      == Some(Number(Values(high) + seq(8 - |high| - |low|, _ => 0) + Values(low)))
  {
    NoEmpty(high);
    NoEmpty(low);
    GroupsOf(high);
    GroupsOf(low);
    hide GroupTexts, Groups, Values, Number;
    var h, l := if high == [] then [Empty] else PiecesOf(high), if low == [] then [Empty] else PiecesOf(low);
    var skip := |h|;
    hide PiecesOf;
    OnlyOneElided(h, l, pieces);
    EdgeSide(high);
    EdgeSide(low);
    hide FirstElided, Side;
    SidesNumber(pieces, skip, Values(high), Values(low));
  }

  /** An empty piece, or groups. */
  ghost predicate Edge(side: seq<Piece>) {
    side == [Empty] || (side != [] && forall i :: 0 <= i < |side| ==> side[i].Hextet?)
  }

  lemma OnlyOneElided(h: seq<Piece>, l: seq<Piece>, pieces: seq<Piece>)
    requires Edge(h) && Edge(l) && pieces == h + [Empty] + l
    ensures FirstElided(pieces, 1) == Some(|h|) && FirstElided(pieces, |h| + 1).None?
    ensures pieces[..|h|] == h && pieces[|h| + 1..] == l && Bad !in pieces
  {
    var skip := |h|;
    forall k | 0 <= k < |pieces|
      ensures pieces[k] == if k < skip then h[k] else if k == skip then Empty else l[k - skip - 1] {
    }
    SkipTo(pieces, 1, skip);
    NothingElided(pieces, skip + 1);
  }

  lemma SidesNumber(pieces: seq<Piece>, skip: nat, high: seq<nat>, low: seq<nat>)
    requires FirstElided(pieces, 1) == Some(skip) && skip < |pieces| && FirstElided(pieces, skip + 1).None?
    requires Side(pieces[..skip]) == Some(high) && Side(pieces[skip + 1..]) == Some(low) && |high| + |low| <= 7
    ensures ParsePieces(pieces) == Some(Number(high + seq(8 - |high| - |low|, _ => 0) + low))
  {
    hide FirstElided, Side;
  }

  lemma EdgeSide(parts: seq<string>)
    requires GroupTexts(parts)
    ensures Side(if parts == [] then [Empty] else PiecesOf(parts)) == Some(Values(parts))
  {
    GroupsOf(parts);
    NoEmpty(parts);
  }

  lemma {:induction false} SkipTo(pieces: seq<Piece>, i: nat, skip: nat)
    requires 1 <= i <= skip < |pieces| - 1 && pieces[skip].Empty?
    requires forall k :: i <= k < skip ==> !pieces[k].Empty?
    ensures FirstElided(pieces, i) == Some(skip)
    decreases skip - i
  {
    if i < skip {
      SkipTo(pieces, i + 1, skip);
    }
  }

  lemma ElidedSix(text: string, parts: seq<string>)
    requires Split(text, ':') == parts && |parts| >= 3 && '.' !in parts[|parts| - 1]
    requires Bad !in PiecesOf(parts) && |parts| <= 9
    ensures ParseV6(text) == ParsePieces(PiecesOf(parts))
  {
    hide Split, ParsePieces;
  }

  /** `::` stands for as many zero groups as are missing. */
  lemma ElisionFills(high: seq<string>, low: seq<string>)
    requires GroupTexts(high) && GroupTexts(low) && |high| + |low| <= 7
    ensures ParseV6(Run(high) + "::" + Run(low)).Some?
    ensures ParseV6(Run(high) + "::" + Run(low)) == ParseV6(Join(high + Zeros(8 - |high| - |low|) + low, ':'))
  {
    hide ParsePieces, Split, ParseV6, Number, Join, Run, PiecesOf, Values, GroupTexts;
    var parts := Split(Run(high) + "::" + Run(low), ':');
    ElidedPieces(high, low);
    ElidedNumber(high, low, PiecesOf(parts));
    ElidedSix(Run(high) + "::" + Run(low), parts);
    WithZeros(high, low);
    EightGroups(high + Zeros(8 - |high| - |low|) + low);
  }

  lemma WithZeros(high: seq<string>, low: seq<string>)
    requires GroupTexts(high) && GroupTexts(low) && |high| + |low| <= 7
    ensures var all := high + Zeros(8 - |high| - |low|) + low;
      && |all| == 8 && GroupTexts(all)
      && Values(all) == Values(high) + seq(8 - |high| - |low|, _ => 0) + Values(low)
  {
    var n := 8 - |high| - |low|;
    ZeroGroups(n);
    hide GroupText;
    assert Values(Zeros(n)) == seq(n, _ => 0);
    assert GroupTexts(high + Zeros(n) + low);
  }

  lemma ZeroGroups(n: nat)
    ensures GroupTexts(Zeros(n)) && Values(Zeros(n)) == seq(n, _ => 0)
  {
    assert "0"[..0] == "" && Hex("0") == 0 && PieceOf("0") == Hextet(0);
  }

  // ---- A quad at the end --------------------------------------------------------------------

  /** A dotted quad in the last place stands for its two groups. */
  lemma QuadAtEnd(parts: seq<string>, v: nat)
    requires |parts| >= 2 && v < 0x1_0000_0000 && forall s :: s in parts ==> ':' !in s
    ensures ParseV6(Join(parts + [Dotted(v)], ':'))
         == ParseV6(Join(parts + [Hex4(v / 0x1_0000), Hex4(v % 0x1_0000)], ':'))
  {
    var quad, pair := parts + [Dotted(v)], parts + [Hex4(v / 0x1_0000), Hex4(v % 0x1_0000)];
    hide Dotted, Hex4, ParseV4, PieceOf, Split, Join, PiecesOf, ParsePieces, AllPieces;
    DottedMarks(v);
    HextetReads(v / 0x1_0000);
    HextetReads(v % 0x1_0000);
    SplitJoin(quad, ':');
    SplitJoin(pair, ':');
    PairPieces(parts, v);
    assert |quad| >= 3 && |pair| >= 3;
  }

  lemma PairPieces(parts: seq<string>, v: nat)
    requires v < 0x1_0000_0000
    ensures AllPieces(parts + [Dotted(v)]) == AllPieces(parts + [Hex4(v / 0x1_0000), Hex4(v % 0x1_0000)])
  {
    hide Dotted, Hex4, ParseV4, PieceOf;
    DottedReads(v);
    DottedMarks(v);
    HextetReads(v / 0x1_0000);
    HextetReads(v % 0x1_0000);
    var quad, pair := parts + [Dotted(v)], parts + [Hex4(v / 0x1_0000), Hex4(v % 0x1_0000)];
    var two := [Hextet(v / 65536), Hextet(v % 65536)];
    assert quad[..|quad| - 1] == parts && quad[|quad| - 1] == Dotted(v);
    assert AllPieces(quad) == PiecesOf(parts) + two;
    assert pair[|pair| - 1] == Hex4(v % 0x1_0000);
    assert PiecesOf(pair) == PiecesOf(parts) + two;
  }

  lemma DottedMarks(v: nat)
    ensures ':' !in Dotted(v) && '.' in Dotted(v) && '/' !in Dotted(v)
  {
    NoDot(v / 0x100_0000);
    NoDot(v / 0x1_0000 % 256);
    NoDot(v / 256 % 256);
    NoDot(v % 256);
    hide DecimalText;
    assert Dotted(v)[|DecimalText(v / 0x100_0000)|] == '.';
  }

  // ---- Networks -----------------------------------------------------------------------------

  lemma TwoParts(address: string, length: string)
    requires '/' !in address && '/' !in length
    ensures Split(address + "/" + length, '/') == [address, length]
  {
    SplitWithout(address, '/');
    SplitWithout(length, '/');
    SplitAtSeparator(address, length, '/');
    assert address + "/" + length == address + ['/'] + length;
  }

  /** An address, a slash and a prefix length are the network of that length the address is in. */
  lemma QuadBlock(v: nat, length: string)
    requires v < 0x1_0000_0000 && AllDigits(length) && Decimal(length) <= 32
    ensures var b := ParseBlock(Dotted(v) + "/" + length);
      b.Some? && b.value.family == V4 && b.value.prefix == Decimal(length) && b.value.Contains(Address(V4, v))
  {
    DottedReads(v);
    DottedMarks(v);
    hide Dotted, ParseV4, ParseV6, Decimal, Pow2;
    assert '/' !in length;
    TwoParts(Dotted(v), length);
    ReadsAs(Dotted(v) + "/" + length, V4, Dotted(v), length, v, Decimal(length));
  }

  lemma ReadsAs(text: string, f: Family, address: string, length: string, v: nat, p: nat)
    requires Split(text, '/') == [address, length] && ParseFamily(address, f) == Some(v)
    requires p <= Width(f) && ParsePrefix(length, f) == Some(p)
    ensures ParseBlockAs(text, f) == Some(BlockOf(Address(f, v), p))
  {
    hide Split, ParseFamily, ParsePrefix, BlockOf;
    var parts := Split(text, '/');
    assert parts[0] == address && parts[1] == length;
  }

  /** The same for IPv6. */
  lemma SixBlock(v: nat, length: string)
    requires v < Pow2(128) && AllDigits(length) && Decimal(length) <= 128
    ensures var b := ParseBlock(Join(SixGroups(v, 8), ':') + "/" + length);
      b.Some? && b.value.family == V6 && b.value.prefix == Decimal(length) && b.value.Contains(Address(V6, v))
  {
    var text := Join(SixGroups(v, 8), ':');
    SixReads(v);
    SixMarks(v);
    hide SixGroups, Join, ParseV4, ParseV6, Decimal, Pow2;
    assert '/' !in length;
    TwoParts(text, length);
    ReadsAs(text + "/" + length, V6, text, length, v, Decimal(length));
    NotAs(text + "/" + length, V4, text, length);
    hide Split;
  }

  lemma NotAs(text: string, f: Family, address: string, length: string)
    requires Split(text, '/') == [address, length] && ParseFamily(address, f).None?
    ensures ParseBlockAs(text, f).None?
  {
    hide Split, ParseFamily, ParsePrefix, BlockOf;
    var parts := Split(text, '/');
    assert parts[0] == address;
  }

  lemma {:induction false} JoinMarks(parts: seq<string>, sep: char, mark: char)
    requires parts != [] && mark != sep && forall s :: s in parts ==> mark !in s
    ensures mark !in Join(parts, sep)
  {
    assert parts[0] in parts;
    if |parts| > 1 {
      assert forall s :: s in parts[1..] ==> s in parts;
      JoinMarks(parts[1..], sep, mark);
    }
  }

  lemma {:induction false} GroupMarks(v: nat, n: nat)
    ensures |SixGroups(v, n)| == n && forall s :: s in SixGroups(v, n) ==> '/' !in s && '.' !in s
  {
    if n > 0 {
      GroupMarks(v / 0x1_0000, n - 1);
      HextetReads(v % 0x1_0000);
    }
  }

  lemma SixMarks(v: nat)
    ensures var text := Join(SixGroups(v, 8), ':'); '/' !in text && ParseV4(text).None?
  {
    GroupMarks(v, 8);
    hide SixGroups;
    var parts := SixGroups(v, 8);
    JoinMarks(parts, ':', '/');
    JoinMarks(parts, ':', '.');
    hide Join;
    SplitWithout(Join(parts, ':'), '.');
  }

  /** As many ones as the length says, then zeros; and the other way round. */
  function NetMask(p: nat): (mask: nat)
    requires p <= 32
    ensures mask < Pow2(32) && mask == Pow2(32) - Pow2(32 - p)
  {
    PowerBelow(32 - p, 32);
    Pow2(32) - Pow2(32 - p)
  }

  function HostMask(p: nat): nat
    requires p <= 32
  {
    Pow2(32 - p) - 1
  }

  lemma PrefixFromMask(text: string, v: nat, p: nat)
    requires !AllDigits(text) && ParseV4(text) == Some(v) && p <= 32 && v < Pow2(32)
    requires if MaskPrefix(v, 32).Some? then MaskPrefix(v, 32) == Some(p)
             else MaskPrefix(Pow2(32) - 1 - v, 32) == Some(p)
    ensures ParsePrefix(text, V4) == Some(p)
  {
    hide AllDigits, Decimal, ParseV4, Pow2, MaskPrefix;
  }

  /** A netmask, or its complement, stands for its length. All zeros and all ones are netmasks. */
  lemma MaskLengths(p: nat)
    requires p <= 32
    ensures ParsePrefix(Dotted(NetMask(p)), V4) == Some(p)
    ensures 0 < p < 32 ==> ParsePrefix(Dotted(HostMask(p)), V4) == Some(p)
  {
    SmallPowers();
    PowerBelow(32 - p, 32);
    hide Dotted, ParseV4, AllDigits, Decimal, Pow2, MaskPrefix, ParsePrefix;
    MaskFound(p, 32);
    QuadIsNoNumber(NetMask(p));
    DottedReads(NetMask(p));
    PrefixFromMask(Dotted(NetMask(p)), NetMask(p), p);
    if 0 < p < 32 {
      QuadIsNoNumber(HostMask(p));
      DottedReads(HostMask(p));
      NoHostIsMask(p, 32);
      assert Pow2(32) - 1 - HostMask(p) == NetMask(p);
      PrefixFromMask(Dotted(HostMask(p)), HostMask(p), p);
    }
  }

  lemma QuadIsNoNumber(v: nat)
    ensures !AllDigits(Dotted(v))
  {
    DottedMarks(v);
    hide Dotted;
  }

  lemma {:induction false} PowerBelow(i: nat, j: nat)
    requires i <= j
    ensures Pow2(i) <= Pow2(j) && (i < j ==> Pow2(i) < Pow2(j))
    decreases j
  {
    if i < j {
      PowerBelow(i, j - 1);
    }
  }

  lemma {:induction false} MaskFound(p: nat, q: nat)
    requires p <= q <= 32
    ensures MaskPrefix(NetMask(p), q) == Some(p)
    decreases q
  {
    PowerBelow(32 - q, 32);
    PowerBelow(32 - q, 32 - p);
    if p < q {
      MaskFound(p, q - 1);
    }
  }

  lemma Doubles(n: nat)
    requires n > 0
    ensures Pow2(n) == 2 * Pow2(n - 1)
  {
  }

  /** A host mask is odd, and the only odd netmask is all ones. */
  lemma HostIsNoMask(p: nat, q: nat)
    requires 0 < p < 32 && q <= 32
    ensures HostMask(p) != Pow2(32) - Pow2(32 - q)
  {
    PowerBelow(32 - p, 32);
    Doubles(32);
    Doubles(32 - p);
    if q < 32 {
      Doubles(32 - q);
    } else {
      assert Pow2(0) == 1;
    }
    hide Pow2;
  }

  lemma {:induction false} NoHostIsMask(p: nat, q: nat)
    requires 0 < p < 32 && q <= 32
    ensures MaskPrefix(HostMask(p), q).None?
    decreases q
  {
    HostIsNoMask(p, q);
    hide Pow2, HostMask;
    if q > 0 {
      NoHostIsMask(p, q - 1);
    }
  }
}
