/** Addresses and networks as text, as Python's `ipaddress` reads them, without zone identifiers. */
module AddressText {
  import opened Wrappers
  import opened Text
  import opened IpBlocks

  predicate AllDigits(s: string) {
    s != "" && forall c :: c in s ==> Digit(c)
  }

  function Decimal(s: string): nat
    requires forall c :: c in s ==> Digit(c)
  {
    if s == "" then 0 else
    assert s[|s| - 1] in s && Digit(s[|s| - 1]);
    Decimal(s[..|s| - 1]) * 10 + (s[|s| - 1] as int - 48)
  }

  /** One to three digits, no leading zero, at most 255. */
  predicate Octet(s: string) {
    AllDigits(s) && |s| <= 3 && (|s| > 1 ==> s[0] != '0') && Decimal(s) <= 255
  }

  function ParseV4(text: string): Option<nat> {
    var parts := Split(text, '.');
    if |parts| == 4 && Octet(parts[0]) && Octet(parts[1]) && Octet(parts[2]) && Octet(parts[3])
    then Some(((Decimal(parts[0]) * 256 + Decimal(parts[1])) * 256 + Decimal(parts[2])) * 256 + Decimal(parts[3]))
    else None
  }

  /** One colon-separated part of an IPv6 address. */
  datatype Piece = Empty | Hextet(n: nat) | Bad

  function HexDigit(c: char): Option<nat> {
    if Digit(c) then Some(c as int - 48)
    else if 'a' <= c <= 'f' then Some(c as int - 87)
    else if 'A' <= c <= 'F' then Some(c as int - 55)
    else None
  }

  predicate HexText(s: string) {
    forall c :: c in s ==> HexDigit(c).Some?
  }

  function Hex(s: string): nat
    requires HexText(s)
  {
    if s == "" then 0 else Hex(s[..|s| - 1]) * 16 + HexDigit(s[|s| - 1]).value
  }

  function PieceOf(part: string): Piece {
    if part == "" then Empty
    else if |part| <= 4 && HexText(part) then Hextet(Hex(part))
    else Bad
  }

  function PiecesOf(parts: seq<string>): seq<Piece> {
    seq(|parts|, i requires 0 <= i < |parts| => PieceOf(parts[i]))
  }

  /** A last part with dots is an IPv4 address standing for two hextets. */
  function AllPieces(parts: seq<string>): seq<Piece>
    requires parts != []
  {
    var last := parts[|parts| - 1];
    if '.' !in last then PiecesOf(parts) else
    match ParseV4(last)
    case None => [Bad]
    case Some(v) => PiecesOf(parts[..|parts| - 1]) + [Hextet(v / 65536), Hextet(v % 65536)]
  }

  function Groups(pieces: seq<Piece>): Option<seq<nat>> {
    if pieces == [] then Some([])
    else if !pieces[0].Hextet? then None
    else match Groups(pieces[1..])
      case None => None
      case Some(rest) => Some([pieces[0].n] + rest)
  }

  function Number(groups: seq<nat>): nat {
    if groups == [] then 0 else Number(groups[..|groups| - 1]) * 65536 + groups[|groups| - 1]
  }

  predicate Elided(pieces: seq<Piece>, i: nat) {
    1 <= i < |pieces| - 1 && pieces[i].Empty?
  }

  /** The groups before or after `::`; an empty part beside it belongs to the colons at the text's edge. */
  function Side(pieces: seq<Piece>): Option<seq<nat>> {
    if pieces == [Empty] then Some([]) else Groups(pieces)
  }

  function FirstElided(pieces: seq<Piece>, i: nat): Option<nat>
    ensures FirstElided(pieces, i).Some? ==> Elided(pieces, FirstElided(pieces, i).value)
    decreases |pieces| - i
  {
    if i >= |pieces| then None else if Elided(pieces, i) then Some(i) else FirstElided(pieces, i + 1)
  }

  function ParsePieces(pieces: seq<Piece>): Option<nat> {
    match FirstElided(pieces, 1)
    case None => (match Groups(pieces) case Some(g) => if |g| == 8 then Some(Number(g)) else None case None => None)
    case Some(skip) =>
      if FirstElided(pieces, skip + 1).Some? then None else
      match (Side(pieces[..skip]), Side(pieces[skip + 1..]))
      case (Some(high), Some(low)) =>
        if |high| + |low| > 7 then None
        else Some(Number(high + seq(8 - |high| - |low|, _ => 0) + low))
      case _ => None
  }

  function ParseV6(text: string): Option<nat> {
    var parts := Split(text, ':');
    if |parts| < 3 then None else
    var pieces := AllPieces(parts);
    if |pieces| > 9 || Bad in pieces then None else ParsePieces(pieces)
  }

  function ParseAddress(text: string): Option<Address> {
    match ParseV4(text)
    case Some(v) => Some(Address(V4, v))
    case None =>
      match ParseV6(text)
      case Some(v) => Some(Address(V6, v))
      case None => None
  }

  function MaskPrefix(mask: nat, p: nat): Option<nat>
    requires p <= 32
  {
    if mask == Pow2(32) - Pow2(32 - p) then Some(p) else if p == 0 then None else MaskPrefix(mask, p - 1)
  }

  /** A prefix length or, for IPv4 only, a netmask or its complement. */
  function ParsePrefix(text: string, f: Family): (p: Option<nat>)
    ensures p.Some? ==> p.value <= Width(f)
  {
    if AllDigits(text) && Decimal(text) <= Width(f) then Some(Decimal(text))
    else if f.V6? then None
    else match ParseV4(text)
      case None => None
      case Some(v) =>
        var net := MaskPrefix(v, 32);
        if net.Some? && net.value <= 32 then net
        else if v < Pow2(32) then
          var host := MaskPrefix(Pow2(32) - 1 - v, 32);
          if host.Some? && host.value <= 32 then host else None
        else None
  }

  function ParseFamily(text: string, f: Family): Option<nat> {
    if f.V4? then ParseV4(text) else ParseV6(text)
  }

  function ParseBlockAs(text: string, f: Family): (b: Option<Block>)
    ensures b.Some? ==> b.value.Valid() && b.value.family == f
  {
    var parts := Split(text, '/');
    if |parts| != 2 then None else
    match (ParseFamily(parts[0], f), ParsePrefix(parts[1], f))
    case (Some(v), Some(p)) => Some(BlockOf(Address(f, v), p))
    case _ => None
  }

  /** A network written with its slash; the host bits need not be zero. */
  function ParseBlock(text: string): (b: Option<Block>)
    ensures b.Some? ==> b.value.Valid()
  {
    var v4 := ParseBlockAs(text, V4);
    if v4.Some? then v4 else ParseBlockAs(text, V6)
  }

  // ---- What the text of an address looks like -----------------------------------------------

  /** One to three octets between dots: what may follow a dot inside an address. */
  predicate OctetTail(s: string) {
    var labels := Split(s, '.');
    |labels| <= 3 && forall l :: l in labels ==> Octet(l)
  }

  lemma QuadTail(text: string, s: string)
    requires ParseV4(text).Some? && EndsWith(text, "." + s)
    ensures OctetTail(s)
  {
    var front := LabelsBeforeSuffix(text, s);
    var parts := Split(text, '.');
    var n := |Split(front, '.')|;
    forall l | l in Split(s, '.') ensures Octet(l) {
      var i :| 0 <= i < |Split(s, '.')| && Split(s, '.')[i] == l;
      assert parts[n + i] == l;
    }
  }

  lemma AllPiecesClean(parts: seq<string>, i: nat)
    requires parts != [] && Bad !in AllPieces(parts) && i < |parts| - 1
    ensures '.' !in parts[i]
  {
    assert Bad in [Bad];
    assert AllPieces(parts)[i] == PieceOf(parts[i]);
    if '.' in parts[i] {
      DotIsBad(parts[i]);
    }
  }

  lemma DotIsBad(part: string)
    requires '.' in part
    ensures PieceOf(part) == Bad
  {
    assert HexDigit('.').None?;
  }

  /** The only dots in an address are those of a dotted quad at its end. */
  lemma AddressTail(text: string, s: string)
    requires ParseAddress(text).Some? && EndsWith(text, "." + s)
    ensures OctetTail(s)
  {
    if ParseV4(text).Some? {
      QuadTail(text, s);
    } else {
      var parts := Split(text, ':');
      SixTail(text, s, text[..|text| - |s| - 1]);
    }
  }

  lemma SixTail(text: string, s: string, front: string)
    requires ParseV6(text).Some? && text == front + "." + s
    ensures OctetTail(s)
  {
    var parts := Split(text, ':');
    if ':' in s {
      var i, before, after := DotBeforeColon(front, s);
      AllPiecesClean(parts, i);
    } else {
      var lead := LastPart(front, s);
      var last := parts[|parts| - 1];
      assert last == lead + "." + s;
      assert '.' in last by { assert last[|lead|] == '.'; }
      assert EndsWith(last, "." + s) by { assert last == lead + ("." + s); }
      assert Bad in [Bad];
      assert ParseV4(last).Some?;
      QuadTail(last, s);
    }
  }

  /** A dot with a colon somewhere after it stands in a part that is not the last. */
  lemma {:induction false} DotBeforeColon(front: string, s: string) returns (i: nat, before: string, after: string)
    requires ':' in s
    ensures i < |Split(front + "." + s, ':')| - 1 && '.' in Split(front + "." + s, ':')[i]
  {
    var k :| 0 <= k < |s| && s[k] == ':';
    before, after := front + "." + s[..k], s[k + 1..];
    assert front + "." + s == before + [':'] + after by { assert s == s[..k] + [':'] + s[k + 1..]; }
    SplitAtSeparator(before, after, ':');
    i := PartWith(before, |front|, ':');
  }

  lemma {:induction false} PartWith(s: string, at: nat, sep: char) returns (i: nat)
    requires at < |s| && s[at] != sep
    ensures i < |Split(s, sep)| && s[at] in Split(s, sep)[i]
  {
    var rest := Split(s[1..], sep);
    if at == 0 {
      i := 0;
      assert Split(s, sep)[0][0] == s[0];
    } else {
      var j := PartWith(s[1..], at - 1, sep);
      assert s[1..][at - 1] == s[at];
      i := if s[0] == sep then j + 1 else j;
      if s[0] != sep && j == 0 {
        var k :| 0 <= k < |rest[0]| && rest[0][k] == s[at];
        assert Split(s, sep)[0] == [s[0]] + rest[0];
        assert Split(s, sep)[0][k + 1] == s[at];
      } else {
        assert Split(s, sep)[i] == rest[j];
      }
    }
  }

  lemma {:induction false} LastPart(front: string, s: string) returns (lead: string)
    requires ':' !in s
    ensures var parts := Split(front + "." + s, ':'); parts[|parts| - 1] == lead + "." + s
  {
    var text := front + "." + s;
    if ':' !in front {
      lead := front;
      assert forall c :: c in text ==> c in front || c == '.' || c in s;
      SplitWithout(text, ':');
    } else {
      var k :| 0 <= k < |front| && front[k] == ':';
      var rest := front[k + 1..];
      assert front == front[..k] + [':'] + rest;
      assert text == front[..k] + [':'] + (rest + "." + s);
      SplitAtSeparator(front[..k], rest + "." + s, ':');
      lead := LastPart(rest, s);
    }
  }

  lemma NotAnAddress(text: string)
    requires '.' !in text && ':' !in text
    ensures ParseAddress(text).None?
  {
    SplitWithout(text, '.');
    SplitWithout(text, ':');
  }
}
