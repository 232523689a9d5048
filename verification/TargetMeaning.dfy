/** Which allowlist entries are taken, why the others are not, and that a network permits each of its addresses. */
module TargetMeaning {
  import opened Wrappers
  import opened Text
  import opened IpBlocks
  import opened AddressText
  import opened AddressForms
  import opened TargetPolicy

  // ---- Host names, letter by letter ---------------------------------------------------------

  const ALNUM := UPPER + LOWER + "0123456789"

  predicate Alnum(c: char) {
    c in ALNUM
  }

  lemma AlnumIs(c: char)
    ensures Alnum(c) <==> Letter(c) || Digit(c)
  {
    assert |ALNUM| == 62;
    assert forall k :: 0 <= k < 26 ==> ALNUM[k] as int == 65 + k;
    assert forall k :: 26 <= k < 52 ==> ALNUM[k] as int == 71 + k;
    assert forall k :: 52 <= k < 62 ==> ALNUM[k] as int == k - 4;
    if Letter(c) || Digit(c) {
      var k := if c <= '9' then c as int + 4 else if c <= 'Z' then c as int - 65 else c as int - 71;
      assert ALNUM[k] == c;
    }
  }

  /** A letter or digit; inside the text also a hyphen, or a dot between letters or digits. */
  ghost predicate FineAt(s: string, i: nat)
    requires i < |s|
  {
    || Alnum(s[i])
    || (s[i] == '-' && 0 < i < |s| - 1)
    || (s[i] == '.' && 0 < i < |s| - 1 && Alnum(s[i - 1]) && Alnum(s[i + 1]))
  }

  ghost predicate DotWithin(s: string, i: nat) {
    exists k :: i <= k < i + 64 && k < |s| && s[k] == '.'
  }

  /** Not empty, every character in its place, and never 64 of them on end without a dot. */
  ghost predicate HostText(s: string) {
    && s != ""
    && (forall i :: 0 <= i < |s| ==> FineAt(s, i))
    && (forall i: nat :: i < |s| && i + 64 <= |s| ==> DotWithin(s, i))
  }

  lemma OneLabel(s: string)
    requires '.' !in s
    ensures Label(s) <==> HostText(s)
  {
    forall c ensures Alnum(c) <==> Letter(c) || Digit(c) {
      AlnumIs(c);
    }
    hide Alnum;
    if |s| >= 64 {
      assert !DotWithin(s, 0);
    }
    if HostText(s) {
      assert FineAt(s, 0) && FineAt(s, |s| - 1);
      forall c | c in s ensures Letter(c) || Digit(c) || c == '-' {
        var i :| 0 <= i < |s| && s[i] == c;
        assert FineAt(s, i);
      }
    }
    if Label(s) {
      forall i | 0 <= i < |s| ensures FineAt(s, i) {
        assert s[i] in s;
      }
    }
  }

  lemma Around(x: string, y: string)
    ensures var s := x + "." + y;
      && |s| == |x| + 1 + |y| && s[|x|] == '.'
      && (forall i :: 0 <= i < |x| ==> s[i] == x[i])
      && (forall i :: 0 <= i < |y| ==> s[|x| + 1 + i] == y[i])
  {
  }

  lemma DotIsNotAlnum()
    ensures !Alnum('.') && !Alnum('-')
  {
    AlnumIs('.');
    AlnumIs('-');
  }

  lemma ShortStart(x: string, s: string)
    requires '.' !in x && x <= s && HostText(s)
    ensures |x| < 64
  {
    hide FineAt;
    forall k | 0 <= k < |x| ensures s[k] != '.' {
      assert x[k] in x;
    }
    assert DotWithin(s, 0) ==> |x| < 64;
  }

  lemma LabelOf(x: string, y: string)
    requires '.' !in x && HostText(x + "." + y)
    ensures HostText(x)
  {
    DotIsNotAlnum();
    hide Alnum;
    var s := x + "." + y;
    Around(x, y);
    assert FineAt(s, |x|);
    forall i | 0 <= i < |x| ensures FineAt(x, i) {
      assert FineAt(s, i) && s[i] in x;
      if i == |x| - 1 {
        assert Alnum(s[|x| - 1]);
      }
    }
    ShortStart(x, s);
  }

  lemma NameOf(x: string, y: string)
    requires '.' !in x && HostText(x + "." + y)
    ensures HostText(y)
  {
    DotIsNotAlnum();
    hide Alnum;
    var s, n := x + "." + y, |x| + 1;
    Around(x, y);
    assert FineAt(s, |x|);
    forall i | 0 <= i < |y| ensures FineAt(y, i) {
      assert FineAt(s, n + i);
      if 0 < i < |y| - 1 {
        assert s[n + i - 1] == y[i - 1] && s[n + i + 1] == y[i + 1];
      } else if i == 0 {
        assert Alnum(s[n]);
      }
    }
    forall i: nat | i < |y| && i + 64 <= |y| ensures DotWithin(y, i) {
      assert DotWithin(s, n + i);
      var k :| n + i <= k < n + i + 64 && k < |s| && s[k] == '.';
      assert y[k - n] == '.';
    }
  }

  lemma Together(x: string, y: string)
    requires '.' !in x && HostText(x) && HostText(y)
    ensures HostText(x + "." + y)
  {
    DotIsNotAlnum();
    hide Alnum;
    var s, n := x + "." + y, |x| + 1;
    Around(x, y);
    assert FineAt(x, 0) && FineAt(x, |x| - 1) && FineAt(y, 0) && FineAt(y, |y| - 1);
    assert x[0] in x && x[|x| - 1] in x;
    forall i | 0 <= i < |s| ensures FineAt(s, i) {
      if i < |x| {
        assert FineAt(x, i) && x[i] in x;
      } else if i > |x| {
        assert FineAt(y, i - n);
        if 0 < i - n < |y| - 1 {
          assert s[i - 1] == y[i - n - 1] && s[i + 1] == y[i - n + 1];
        }
      }
    }
    forall i: nat | i < |s| && i + 64 <= |s| ensures DotWithin(s, i) {
      DotInWindow(x, y, i);
    }
  }

  lemma DotInWindow(x: string, y: string, i: nat)
    requires '.' !in x && HostText(x) && HostText(y) && i + 64 <= |x + "." + y|
    ensures DotWithin(x + "." + y, i)
  {
    hide Alnum, FineAt;
    var s, n := x + "." + y, |x| + 1;
    Around(x, y);
    ShortStart(x, x);
    if i < n {
      assert s[|x|] == '.' && i <= |x| < i + 64;
    } else {
      assert DotWithin(y, i - n);
      var k :| i - n <= k < i - n + 64 && k < |y| && y[k] == '.';
      assert s[n + k] == '.';
    }
  }

  /** A name with a dot is a label and a name. */
  lemma LabelThenName(x: string, y: string)
    requires '.' !in x
    ensures HostText(x + "." + y) <==> HostText(x) && HostText(y)
  {
    hide HostText;
    if HostText(x + "." + y) {
      LabelOf(x, y);
      NameOf(x, y);
    }
    if HostText(x) && HostText(y) {
      Together(x, y);
    }
  }

  /** Being made of labels is what it says letter by letter. */
  lemma {:induction false} HostnameIsText(s: string)
    ensures Hostname(s) <==> HostText(s)
    decreases |s|
  {
    if '.' in s {
      var k := FirstDot(s);
      var x, y := s[..k], s[k + 1..];
      assert s == x + ['.'] + y && s == x + "." + y;
      SplitAtSeparator(x, y, '.');
      SplitWithout(x, '.');
      OneLabel(x);
      HostnameIsText(y);
      LabelThenName(x, y);
      hide HostText, Label, Split;
      assert forall l :: l in Split(s, '.') <==> l == x || l in Split(y, '.');
    } else {
      SplitWithout(s, '.');
      OneLabel(s);
    }
  }

  lemma FirstDot(s: string) returns (k: nat)
    requires '.' in s
    ensures k < |s| && s[k] == '.' && '.' !in s[..k]
  {
    k := 0;
    while s[k] != '.'
      invariant k < |s| && '.' !in s[..k] && '.' in s[k..]
      decreases |s| - k
    {
      assert s[..k + 1] == s[..k] + [s[k]] && s[k..] == [s[k]] + s[k + 1..];
      k := k + 1;
    }
  }

  // ---- Addresses that no generator may reach ------------------------------------------------

  /** 127.0.0.0 to 127.255.255.255, 169.254.0.0 to 169.254.255.255, ::1, and the 1024th of all addresses that begins at
      fe80::, as numbers. */
  ghost predicate Unreachable(a: Address) {
    match a.family
    case V4 => 0x7F00_0000 <= a.value <= 0x7FFF_FFFF || 0xA9FE_0000 <= a.value <= 0xA9FE_FFFF
    case V6 =>
      || a.value == 1
      || 0xFE80_0000_0000_0000_0000_0000_0000_0000 <= a.value < 0xFEC0_0000_0000_0000_0000_0000_0000_0000
  }

  lemma Ranges(b: Block, a: Address)
    requires b in BLOCKED
    ensures b.Valid() && (b.Contains(a) <==> a.family == b.family && b.base <= a.value < b.base + b.Size())
  {
    BlockedAreBlocks();
    MaskIsRange(b, a);
  }

  lemma Sizes()
    ensures LOOPBACK4.Size() == 0x100_0000 && LINK_LOCAL4.Size() == 0x1_0000
    ensures LOOPBACK6.Size() == 1 && LINK_LOCAL6.Size() == 0x40_0000_0000_0000_0000_0000_0000_0000
  {
    Powers();
    assert Pow2(0) == 1;
  }

  lemma BlockedExactly(a: Address)
    ensures BlockedAddr(a) <==> Unreachable(a)
  {
    Sizes();
    hide Pow2, Masked;
    forall b | b in BLOCKED
      ensures b.Valid() && (b.Contains(a) <==> a.family == b.family && b.base <= a.value < b.base + b.Size()) {
      Ranges(b, a);
    }
    assert BLOCKED == [LOOPBACK4, LINK_LOCAL4, LOOPBACK6, LINK_LOCAL6];
    assert LOOPBACK4 in BLOCKED && LINK_LOCAL4 in BLOCKED && LOOPBACK6 in BLOCKED && LINK_LOCAL6 in BLOCKED;
  }

  /** A network is refused for what it overlaps exactly when one of its addresses is such an address. */
  lemma OverlapExactly(n: Block)
    requires n.Valid()
    ensures OverlapsAny(n) <==> exists a :: n.Contains(a) && Unreachable(a)
  {
    BlockedAreBlocks();
    if OverlapsAny(n) {
      var b :| b in BLOCKED && Overlaps(n, b);
      OverlapIsNesting(n, b);
      var a :| n.Contains(a) && b.Contains(a);
      BlockedExactly(a);
    }
    if a :| n.Contains(a) && Unreachable(a) {
      BlockedExactly(a);
      var b :| b in BLOCKED && b.prefix <= Width(b.family) && b.Contains(a);
      OverlapIsNesting(n, b);
      assert Share(n, b);
    }
  }

  // ---- The verdict --------------------------------------------------------------------------

  lemma PaddedExactly(entry: string)
    ensures Candidate(entry) == Lower(entry) <==> Strip(entry) == entry
  {
    hide Lower, Strip;
    var i, j := StripExactly(entry);
    if Candidate(entry) == Lower(entry) {
      assert |Strip(entry)| == |entry|;
    }
  }

  /** The first thing wrong with an entry, or nothing. Without padding and in lower case, it has to be a network none of
      whose addresses is unreachable, or, perhaps after a dot, a reachable address or a name that is not one of two. */
  lemma VerdictExactly(entry: string)
    ensures var e := Lower(entry); var bare := if "." <= e then e[1..] else e;
      Verdict(entry) ==
        if entry == "" || Strip(entry) != entry then Some(EmptyOrPadded)
        else if ParseBlock(e).Some? then
          if ParseBlock(e).value.prefix == 0 then Some(PermitsEverything)
          else if exists a :: ParseBlock(e).value.Contains(a) && Unreachable(a) then Some(OverlapsBlocked)
          else None
        else if '/' in e then Some(LooksLikePath)
        else if bare == "localhost" || bare == "metadata.google.internal" then Some(BlockedName)
        else if ParseAddress(bare).Some? then
          if Unreachable(ParseAddress(bare).value) then Some(BlockedAddress) else None
        else if HostText(bare) then None
        else Some(NotAHost)
  {
    hide Lower, Strip, ParseBlock, ParseAddress, Hostname, HostText, Unreachable, BlockedAddr, OverlapsAny;
    var e := Lower(entry);
    var bare := if "." <= e then e[1..] else e;
    PaddedExactly(entry);
    BlockHasSlash(e);
    hide Network;
    assert METADATA == "metadata.google.internal";
    hide METADATA;
    if ParseBlock(e).Some? {
      OverlapExactly(ParseBlock(e).value);
    }
    if ParseAddress(bare).Some? {
      BlockedExactly(ParseAddress(bare).value);
    }
    HostnameIsText(bare);
    assert RemovePrefix(e, ".") == bare;
  }

  // ---- Every address of a network -----------------------------------------------------------

  /** A text of the address. */
  function AddressAsText(a: Address): string {
    if a.family.V4? then Dotted(a.value) else Join(SixGroups(a.value, 8), ':')
  }

  lemma AddressReads(a: Address)
    requires a.value < Pow2(Width(a.family))
    ensures ParseAddress(AddressAsText(a)) == Some(a)
  {
    SmallPowers();
    hide Pow2, Dotted, SixGroups, Join, ParseV4, ParseV6;
    if a.family.V4? {
      DottedReads(a.value);
    } else {
      SixReads(a.value);
      SixMarks(a.value);
    }
  }

  predicate Plain(c: char) {
    '0' <= c <= '9' || 'a' <= c <= 'f' || c == '.' || c == ':'
  }

  lemma PlainIsCandidate(text: string)
    requires forall c :: c in text ==> Plain(c)
    ensures Candidate(text) == text
  {
    assert forall i :: 0 <= i < |text| ==> text[i] in text;
    assert StripLeft(text) == text;
    assert StripRight(text) == text;
    assert Lower(text) == text;
  }

  lemma DottedIsPlain(v: nat)
    ensures Dotted(v) != "" && forall c :: c in Dotted(v) ==> Plain(c)
  {
    DecimalReads(v / 0x100_0000);
    DecimalReads(v / 0x1_0000 % 256);
    DecimalReads(v / 256 % 256);
    DecimalReads(v % 256);
    hide DecimalText, Decimal;
  }

  lemma {:induction false} JoinIsPlain(parts: seq<string>)
    requires parts != [] && forall s :: s in parts ==> s != "" && forall c :: c in s ==> Plain(c)
    ensures Join(parts, ':') != "" && forall c :: c in Join(parts, ':') ==> Plain(c)
  {
    assert parts[0] in parts;
    if |parts| > 1 {
      assert forall s :: s in parts[1..] ==> s in parts;
      JoinIsPlain(parts[1..]);
    }
  }

  lemma {:induction false} GroupsArePlain(v: nat, n: nat)
    ensures |SixGroups(v, n)| == n
    ensures forall s :: s in SixGroups(v, n) ==> s != "" && forall c :: c in s ==> Plain(c)
  {
    if n > 0 {
      GroupsArePlain(v / 0x1_0000, n - 1);
      HexIsPlain(v % 0x1_0000);
    }
  }

  lemma HexIsPlain(n: nat)
    ensures Hex4(n) != "" && forall c :: c in Hex4(n) ==> Plain(c)
  {
    forall d: nat | d < 16 ensures Plain(HEX[d]) {
    }
  }

  lemma TextIsPlain(a: Address)
    ensures AddressAsText(a) != "" && Candidate(AddressAsText(a)) == AddressAsText(a)
  {
    if a.family.V4? {
      DottedIsPlain(a.value);
    } else {
      GroupsArePlain(a.value, 8);
      JoinIsPlain(SixGroups(a.value, 8));
    }
    PlainIsCandidate(AddressAsText(a));
  }

  /** A network permits each of its addresses, from the first to the last. */
  lemma EachAddressPermitted(entry: string, a: Address)
    requires ParseBlock(Lower(Strip(entry))).Some?
    requires var n := ParseBlock(Lower(Strip(entry))).value;
      a.family == n.family && n.base <= a.value < n.base + n.Size() && a.value < Pow2(Width(a.family))
    ensures ParseAddress(AddressAsText(a)) == Some(a) && Permits([entry], AddressAsText(a))
  {
    AddressReads(a);
    TextIsPlain(a);
    hide ParseBlock, ParseAddress, AddressAsText, Pow2, Permits;
    NetworkPermits(entry, AddressAsText(a));
  }
}
